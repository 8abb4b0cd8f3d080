/** Git's text formats: the `cat-file --batch` response and the two readers of `ls-tree -r -z` output. */
module GitObjects {
  import opened Prelude
  import opened ByteOrder
  import opened StagedDiff

  datatype GitError = Truncated | Malformed | Unexpected | Trailing | Unsupported | Ambiguous | Rejected

  // ---------------------------------------------------------------- splitting

  /** The first position of `b` in `s`, or the length. */
  function IndexOf(s: Bytes, b: byte): (n: nat)
    ensures n <= |s| && (n < |s| ==> s[n] == b)
  {
    if s == [] || s[0] == b then 0 else 1 + IndexOf(s[1..], b)
  }

  lemma {:induction false} IndexOfIsFirst(s: Bytes, b: byte)
    ensures forall i | 0 <= i < IndexOf(s, b) :: s[i] != b
  {
    if s != [] && s[0] != b {
      IndexOfIsFirst(s[1..], b);
      assert forall i | 0 < i < IndexOf(s, b) :: s[i] == s[1..][i - 1];
    }
  }

  /** The pieces between separators; never empty. */
  function Split(s: Bytes, b: byte): (pieces: seq<Bytes>)
    ensures |pieces| >= 1
    decreases |s|
  {
    var n := IndexOf(s, b);
    if n == |s| then [s] else [s[..n]] + Split(s[n + 1..], b)
  }

  function Joined(pieces: seq<Bytes>, b: byte): Bytes
    requires |pieces| >= 1
  {
    if |pieces| == 1 then pieces[0] else pieces[0] + [b] + Joined(pieces[1..], b)
  }

  lemma {:induction false} IndexIs(a: Bytes, b: byte, rest: Bytes)
    requires b !in a
    ensures IndexOf(a + [b] + rest, b) == |a| && IndexOf(a, b) == |a|
  {
    if a == [] {
      assert (a + [b] + rest)[0] == b;
    } else {
      assert (a + [b] + rest)[1..] == a[1..] + [b] + rest && (a + [b] + rest)[0] == a[0];
      IndexIs(a[1..], b, rest);
    }
  }

  lemma SplitFirst(a: Bytes, b: byte, rest: Bytes)
    requires b !in a
    ensures Split(a + [b] + rest, b) == [a] + Split(rest, b) && Split(a, b) == [a]
  {
    IndexIs(a, b, rest);
    assert (a + [b] + rest)[..|a|] == a && (a + [b] + rest)[|a| + 1..] == rest;
  }

  /** Splitting loses nothing. */
  lemma {:induction false} SplitJoins(s: Bytes, b: byte)
    ensures Joined(Split(s, b), b) == s
    ensures forall i | 0 <= i < |Split(s, b)| :: b !in Split(s, b)[i]
    decreases |s|
  {
    var n := IndexOf(s, b);
    IndexOfIsFirst(s, b);
    if n < |s| {
      SplitJoins(s[n + 1..], b);
      assert s == s[..n] + [b] + s[n + 1..];
    }
  }

  // ---------------------------------------------------------------- object names and sizes

  predicate IsHexByte(b: byte) { 0x30 <= b <= 0x39 || 0x61 <= b <= 0x66 }

  predicate IsObjectName(s: Bytes, hexLength: nat) { |s| == hexLength && forall i | 0 <= i < |s| :: IsHexByte(s[i]) }

  predicate AllDigits(s: Bytes) { forall i | 0 <= i < |s| :: 0x30 <= s[i] <= 0x39 }

  function Number(s: Bytes): nat
    requires AllDigits(s)
  {
    if s == [] then 0 else 10 * Number(s[..|s| - 1]) + (s[|s| - 1] - 0x30)
  }

  /** The interpreter refuses to read numbers with more than `limit` digits. */
  function ReportedSize(s: Bytes, limit: nat): Result<nat, GitError> {
    if s == [] || !AllDigits(s) || |s| > limit then Err(Malformed) else Ok(Number(s))
  }

  const BLOB: Bytes := [0x62, 0x6C, 0x6F, 0x62]

  // ---------------------------------------------------------------- the batch response

  /** One answer: its size text (zero-padded or not) and its content. */
  datatype Answer = Answer(size: Bytes, content: Bytes)

  predicate AnswerFits(a: Answer, limit: nat) {
    a.size != [] && AllDigits(a.size) && |a.size| <= limit && Number(a.size) == |a.content|
  }

  function PrintedHeader(name: Bytes, size: Bytes): Bytes { name + [SPACE] + (BLOB + [SPACE] + size) }

  /** What Git prints for the entries from `k` on. */
  function Printed(entries: seq<FileEntry>, answers: seq<Answer>, k: nat): Bytes
    requires |answers| == |entries| && k <= |entries|
    decreases |entries| - k
  {
    if k == |entries| then []
    else
      PrintedHeader(entries[k].name, answers[k].size) + [LF]
        + (answers[k].content + [LF] + Printed(entries, answers, k + 1))
  }

  /** Header fields against the entry: the size, if they name exactly that blob. */
  function HeaderSize(header: Bytes, entry: FileEntry, limit: nat): Result<nat, GitError> {
    FieldsSize(Split(header, SPACE), entry, limit)
  }

  function FieldsSize(fields: seq<Bytes>, entry: FileEntry, limit: nat): Result<nat, GitError> {
    if |fields| != 3 then Err(Malformed)
    else if !IsObjectName(fields[0], |entry.name|) then Err(Malformed)
    else if ReportedSize(fields[2], limit).Err? then Err(Malformed)
    else if fields[0] != entry.name || fields[1] != BLOB then Err(Unexpected)
    else ReportedSize(fields[2], limit)
  }

  /** The first `b` at or after `from`, or the end. */
  function Find(raw: Bytes, b: byte, from: nat): (n: nat)
    requires from <= |raw|
    ensures from <= n <= |raw| && (n < |raw| ==> raw[n] == b)
    decreases |raw| - from
  {
    if from == |raw| || raw[from] == b then from else Find(raw, b, from + 1)
  }

  datatype Piece = Piece(start: nat, end: nat)

  /** Where the content answering `entry` lies, if the answer at `from` is one. */
  function ReadOne(raw: Bytes, from: nat, entry: FileEntry, limit: nat): (r: Result<Piece, GitError>)
    requires from <= |raw|
    ensures r.Ok? ==> from < r.value.start <= r.value.end < |raw|
  {
    var h := Find(raw, LF, from);
    if h == |raw| then Err(Truncated)
    else
      match HeaderSize(raw[from..h], entry, limit)
      case Err(e) => Err(e)
      case Ok(size) =>
        if h + 1 + size >= |raw| || raw[h + 1 + size] != LF then Err(Truncated) else Ok(Piece(h + 1, h + 1 + size))
  }

  function ParseFrom(raw: Bytes, from: nat, entries: seq<FileEntry>, k: nat, limit: nat): Result<seq<Bytes>, GitError>
    requires from <= |raw| && k <= |entries|
    decreases |entries| - k
  {
    if k == |entries| then (if from == |raw| then Ok([]) else Err(Trailing))
    else
      match ReadOne(raw, from, entries[k], limit)
      case Err(e) => Err(e)
      case Ok(p) =>
        match ParseFrom(raw, p.end + 1, entries, k + 1, limit)
        case Err(e) => Err(e)
        case Ok(rest) => Ok([raw[p.start..p.end]] + rest)
  }

  function ParseBatch(raw: Bytes, entries: seq<FileEntry>, limit: nat): Result<seq<Bytes>, GitError> {
    ParseFrom(raw, 0, entries, 0, limit)
  }

  predicate NamesValid(entries: seq<FileEntry>) {
    forall i | 0 <= i < |entries| :: IsObjectName(entries[i].name, |entries[i].name|)
  }

  /** One header and one content at the cursor. */
  method ReadAnswer(raw: Bytes, cursor: nat, entry: FileEntry, limit: nat) returns (r: Result<Piece, GitError>)
    requires cursor <= |raw|
    ensures r == ReadOne(raw, cursor, entry, limit)
    ensures r.Ok? ==> exists a :: AnswerAt(raw, cursor, entry, limit, a, r.value)
  {
    AnswerIsReadExactlyIfPrinted(raw, cursor, entry, limit);
    var headerEnd := Find(raw, LF, cursor);
    if headerEnd == |raw| { return Err(Truncated); }
    var size := HeaderSize(raw[cursor..headerEnd], entry, limit);
    if size.Err? { return Err(size.error); }
    var start := headerEnd + 1;
    var end := start + size.value;
    if end >= |raw| || raw[end] != LF { return Err(Truncated); }
    return Ok(Piece(start, end));
  }

  method ParseBatchBlobResponse(raw: Bytes, entries: seq<FileEntry>, limit: nat)
    returns (r: Result<seq<Bytes>, GitError>)
    ensures r == ParseBatch(raw, entries, limit)
  {
    hide ReadOne;
    ghost var whole := ParseBatch(raw, entries, limit);
    var cursor: nat := 0;
    var contents: seq<Bytes> := [];
    StartsEmpty(whole);
    for k := 0 to |entries|
      invariant cursor <= |raw|
      invariant Continues(whole, contents, ParseFrom(raw, cursor, entries, k, limit))
    {
      var piece := ReadAnswer(raw, cursor, entries[k], limit);
      if piece.Err? {
        Unfolded(raw, cursor, entries, k, limit, piece);
        return Err(piece.error);
      }
      var content := raw[piece.value.start..piece.value.end];
      CollectsOne(raw, entries, limit, cursor, k, contents, piece.value);
      contents := contents + [content];
      cursor := piece.value.end + 1;
    }
    assert contents + [] == contents;
    if cursor != |raw| { return Err(Trailing); }
    return Ok(contents);
  }

  lemma Unfolded(raw: Bytes, from: nat, entries: seq<FileEntry>, k: nat, limit: nat, piece: Result<Piece, GitError>)
    requires from <= |raw| && k < |entries| && piece == ReadOne(raw, from, entries[k], limit)
    ensures piece.Err? ==> ParseFrom(raw, from, entries, k, limit) == Err(piece.error)
    ensures piece.Ok? ==>
              var rest := ParseFrom(raw, piece.value.end + 1, entries, k + 1, limit);
              ParseFrom(raw, from, entries, k, limit) == if rest.Ok?
                then Ok([raw[piece.value.start..piece.value.end]] + rest.value) else rest
  {
  }

  /** The whole answer is what was collected followed by what is still to come. */
  predicate Continues(whole: Result<seq<Bytes>, GitError>, collected: seq<Bytes>, rest: Result<seq<Bytes>, GitError>) {
    match rest
    case Ok(more) => whole == Ok(collected + more)
    case Err(e) => whole == Err(e)
  }

  lemma StartsEmpty(r: Result<seq<Bytes>, GitError>)
    ensures Continues(r, [], r)
  {
    if r.Ok? { assert [] + r.value == r.value; }
  }

  lemma CollectedOne(
      whole: Result<seq<Bytes>, GitError>, collected: seq<Bytes>, one: Bytes, rest: Result<seq<Bytes>, GitError>)
    ensures Continues(whole, collected, if rest.Ok? then Ok([one] + rest.value) else rest) ==>
              Continues(whole, collected + [one], rest)
  {
    if rest.Ok? { assert collected + ([one] + rest.value) == (collected + [one]) + rest.value; }
  }

  lemma CollectsOne(raw: Bytes, entries: seq<FileEntry>, limit: nat, from: nat, k: nat, collected: seq<Bytes>, p: Piece)
    requires from <= |raw| && k < |entries| && ReadOne(raw, from, entries[k], limit) == Ok(p)
    requires Continues(ParseBatch(raw, entries, limit), collected, ParseFrom(raw, from, entries, k, limit))
    ensures Continues(ParseBatch(raw, entries, limit), collected + [raw[p.start..p.end]],
                ParseFrom(raw, p.end + 1, entries, k + 1, limit))
  {
    Unfolded(raw, from, entries, k, limit, Ok(p));
    CollectedOne(ParseBatch(raw, entries, limit), collected, raw[p.start..p.end],
        ParseFrom(raw, p.end + 1, entries, k + 1, limit));
  }

  // ---------------------------------------------------------------- the parser undoes the printer

  lemma ThreeFields(a: Bytes, b: Bytes, c: Bytes)
    requires SPACE !in a && SPACE !in b && SPACE !in c
    ensures Split(a + [SPACE] + (b + [SPACE] + c), SPACE) == [a, b, c]
  {
    SplitFirst(a, SPACE, b + [SPACE] + c);
    SplitFirst(b, SPACE, c);
    SplitFirst(c, SPACE, []);
  }

  lemma PrintedHeaderReads(entry: FileEntry, size: Bytes, limit: nat)
    requires IsObjectName(entry.name, |entry.name|) && size != [] && AllDigits(size) && |size| <= limit
    ensures HeaderSize(PrintedHeader(entry.name, size), entry, limit) == Ok(Number(size))
    ensures LF !in PrintedHeader(entry.name, size)
  {
    NoSeparatorInside(entry.name, size);
    ThreeFields(entry.name, BLOB, size);
    assert FieldsSize([entry.name, BLOB, size], entry, limit) == Ok(Number(size));
  }

  lemma NoSeparatorInside(name: Bytes, size: Bytes)
    requires IsObjectName(name, |name|) && AllDigits(size)
    ensures SPACE !in name && SPACE !in BLOB && SPACE !in size
    ensures LF !in PrintedHeader(name, size)
  {
    assert forall i | 0 <= i < |name| :: name[i] != LF;
    assert forall i | 0 <= i < |size| :: size[i] != LF;
    assert LF !in name && LF !in size && LF !in BLOB;
    var tail := BLOB + [SPACE] + size;
    assert LF !in tail;
  }

  function Contents(answers: seq<Answer>, k: nat): seq<Bytes>
    requires k <= |answers|
    decreases |answers| - k
  {
    if k == |answers| then [] else [answers[k].content] + Contents(answers, k + 1)
  }

  predicate AllFit(answers: seq<Answer>, limit: nat) { forall i | 0 <= i < |answers| :: AnswerFits(answers[i], limit) }

  /** Whatever the contents hold, newlines and header look-alikes included. */
  lemma ParserUndoesPrinter(entries: seq<FileEntry>, answers: seq<Answer>, limit: nat)
    requires |answers| == |entries| && NamesValid(entries) && AllFit(answers, limit)
    ensures ParseBatch(Printed(entries, answers, 0), entries, limit) == Ok(Contents(answers, 0))
  {
    var raw := Printed(entries, answers, 0);
    assert raw[0..] == raw;
    PrintedFromIsRead(raw, 0, entries, answers, 0, limit);
  }

  lemma {:induction false} PrintedFromIsRead(
      raw: Bytes, from: nat, entries: seq<FileEntry>, answers: seq<Answer>, k: nat, limit: nat)
    requires |answers| == |entries| && k <= |entries| && NamesValid(entries) && AllFit(answers, limit)
    requires from <= |raw| && raw[from..] == Printed(entries, answers, k)
    ensures ParseFrom(raw, from, entries, k, limit) == Ok(Contents(answers, k))
    decreases |entries| - k
  {
    hide ReadOne, PrintedHeader, AnswerFits, IsObjectName;
    if k == |entries| {
      assert |raw[from..]| == |raw| - from;
    } else {
      assert AnswerFits(answers[k], limit) && IsObjectName(entries[k].name, |entries[k].name|);
      var p := PrintedAnswerIsRead(raw, from, entries[k], answers[k], Printed(entries, answers, k + 1), limit);
      PrintedFromIsRead(raw, p.end + 1, entries, answers, k + 1, limit);
      OneMore(raw, from, entries, answers, k, limit, p);
    }
  }

  lemma OneMore(raw: Bytes, from: nat, entries: seq<FileEntry>, answers: seq<Answer>, k: nat, limit: nat, p: Piece)
    requires from <= |raw| && k < |entries| == |answers| && ReadOne(raw, from, entries[k], limit) == Ok(p)
    requires raw[p.start..p.end] == answers[k].content
    requires ParseFrom(raw, p.end + 1, entries, k + 1, limit) == Ok(Contents(answers, k + 1))
    ensures ParseFrom(raw, from, entries, k, limit) == Ok(Contents(answers, k))
  {
    Unfolded(raw, from, entries, k, limit, Ok(p));
  }

  lemma PrintedAnswerIsRead(raw: Bytes, from: nat, entry: FileEntry, a: Answer, rest: Bytes, limit: nat)
    returns (p: Piece)
    requires AnswerFits(a, limit) && IsObjectName(entry.name, |entry.name|) && from <= |raw|
    requires raw[from..] == PrintedHeader(entry.name, a.size) + [LF] + (a.content + [LF] + rest)
    ensures ReadOne(raw, from, entry, limit) == Ok(p) && p.end < |raw| && p.start <= p.end
    ensures raw[p.start..p.end] == a.content && raw[p.end + 1..] == rest
  {
    var header := PrintedHeader(entry.name, a.size);
    PrintedHeaderReads(entry, a.size, limit);
    PartsAreCutOut(raw, from, header, a.content, rest);
    var h := from + |header|;
    assert Find(raw, LF, from) == h by { FindIs(raw, from, h); }
    p := Piece(h + 1, h + 1 + |a.content|);
  }

  lemma SliceOfSuffix(raw: Bytes, from: nat, i: nat, j: nat)
    requires from <= |raw| && i <= j <= |raw| - from
    ensures raw[from..][i..j] == raw[from + i..from + j]
  {
  }

  lemma PartsOfWhole(header: Bytes, content: Bytes, rest: Bytes)
    ensures var whole := header + [LF] + (content + [LF] + rest);
            var start := |header| + 1;
            && |whole| == start + |content| + 1 + |rest| && whole[0..|header|] == header && whole[|header|] == LF
            && whole[start..start + |content|] == content && whole[start + |content|] == LF
            && whole[start + |content| + 1..|whole|] == rest
  {
  }

  lemma PartsAreCutOut(raw: Bytes, from: nat, header: Bytes, content: Bytes, rest: Bytes)
    requires from <= |raw| && raw[from..] == header + [LF] + (content + [LF] + rest) && LF !in header
    ensures var h := from + |header|;
            && h + 1 + |content| < |raw| && raw[from..h] == header && raw[h] == LF && raw[h + 1 + |content|] == LF
            && raw[h + 1..h + 1 + |content|] == content && raw[h + 1 + |content| + 1..] == rest
            && forall i | from <= i < h :: raw[i] != LF
  {
    var whole, n, c := raw[from..], |header|, |content|;
    PartsOfWhole(header, content, rest);
    SliceOfSuffix(raw, from, 0, n);
    SliceOfSuffix(raw, from, n + 1, n + 1 + c);
    SliceOfSuffix(raw, from, n + 1 + c + 1, |whole|);
    assert whole[n] == raw[from + n] && whole[n + 1 + c] == raw[from + n + 1 + c];
    forall i | from <= i < from + n ensures raw[i] != LF { assert raw[i] == header[i - from]; }
  }

  lemma {:induction false} FindIs(raw: Bytes, from: nat, h: nat)
    requires from <= h < |raw| && raw[h] == LF && forall i | from <= i < h :: raw[i] != LF
    ensures Find(raw, LF, from) == h
    decreases h - from
  {
    if from < h { FindIs(raw, from + 1, h); }
  }

  /**
   At `from` stand the header for `entry` with a fitting size, LF, that many bytes from `p.start` to `p.end`,
   and LF.
   */
  ghost predicate AnswerAt(raw: Bytes, from: nat, entry: FileEntry, limit: nat, a: Answer, p: Piece) {
    && from <= p.start <= p.end < |raw| && AnswerFits(a, limit) && a.content == raw[p.start..p.end]
    && raw[from..] == PrintedHeader(entry.name, a.size) + [LF] + (a.content + [LF] + raw[p.end + 1..])
  }

  /** One answer is accepted, with the place of its content, exactly if it is printed at the cursor. */
  lemma AnswerIsReadExactlyIfPrinted(raw: Bytes, from: nat, entry: FileEntry, limit: nat)
    requires from <= |raw|
    ensures var r := ReadOne(raw, from, entry, limit); r.Ok? ==>
              exists a :: AnswerAt(raw, from, entry, limit, a, r.value)
    ensures IsObjectName(entry.name, |entry.name|) ==>
              forall a, p :: AnswerAt(raw, from, entry, limit, a, p) ==> ReadOne(raw, from, entry, limit) == Ok(p)
  {
    hide PrintedHeader, AnswerFits;
    var r := ReadOne(raw, from, entry, limit);
    if r.Ok? {
      var a := AcceptedAnswer(raw, from, entry, limit, r.value);
      assert AnswerAt(raw, from, entry, limit, a, r.value);
    }
    if IsObjectName(entry.name, |entry.name|) {
      forall a, p | AnswerAt(raw, from, entry, limit, a, p) ensures ReadOne(raw, from, entry, limit) == Ok(p) {
        var q := PrintedAnswerIsRead(raw, from, entry, a, raw[p.end + 1..], limit);
        assert |raw[q.end + 1..]| == |raw[p.end + 1..]|;
        assert q.end - q.start == |a.content| == p.end - p.start;
      }
    }
  }

  /** Acceptance means the whole response is one answer per entry, in order, with nothing between or after. */
  lemma AcceptedResponseIsPrinted(raw: Bytes, entries: seq<FileEntry>, limit: nat) returns (answers: seq<Answer>)
    requires ParseBatch(raw, entries, limit).Ok?
    ensures |answers| == |entries| && AllFit(answers, limit) && Printed(entries, answers, 0) == raw
    ensures ParseBatch(raw, entries, limit).value == Contents(answers, 0)
  {
    answers := AcceptedFromIsPrinted(raw, 0, entries, 0, limit, []);
    assert raw[0..] == raw;
  }

  lemma PiecesMakeTheWhole(raw: Bytes, from: nat, h: nat, end: nat)
    requires from <= h < end < |raw| && raw[h] == LF && raw[end] == LF
    ensures raw[from..] == raw[from..h] + [LF] + (raw[h + 1..end] + [LF] + raw[end + 1..])
  {
  }

  lemma {:induction false} AcceptedFromIsPrinted(
      raw: Bytes, from: nat, entries: seq<FileEntry>, k: nat, limit: nat, earlier: seq<Answer>)
    returns (answers: seq<Answer>)
    requires from <= |raw| && k <= |entries| && |earlier| == k && AllFit(earlier, limit)
    requires ParseFrom(raw, from, entries, k, limit).Ok?
    ensures |answers| == |entries| && AllFit(answers, limit) && answers[..k] == earlier
    ensures Printed(entries, answers, k) == raw[from..]
    ensures ParseFrom(raw, from, entries, k, limit).value == Contents(answers, k)
    decreases |entries| - k
  {
    hide ReadOne, PrintedHeader, AnswerFits;
    if k == |entries| {
      answers := earlier;
    } else {
      var p := ReadOne(raw, from, entries[k], limit).value;
      var mine := AcceptedAnswer(raw, from, entries[k], limit, p);
      answers := AcceptedFromIsPrinted(raw, p.end + 1, entries, k + 1, limit, earlier + [mine]);
      assert answers[k] == mine by { assert answers[..k + 1][k] == mine; }
      assert answers[..k] == answers[..k + 1][..k];
    }
  }

  lemma AcceptedAnswer(raw: Bytes, from: nat, entry: FileEntry, limit: nat, p: Piece) returns (a: Answer)
    requires from <= |raw| && ReadOne(raw, from, entry, limit) == Ok(p)
    ensures AnswerFits(a, limit) && a.content == raw[p.start..p.end]
    ensures raw[from..] == PrintedHeader(entry.name, a.size) + [LF] + (a.content + [LF] + raw[p.end + 1..])
  {
    var size := AcceptedHeader(raw[from..p.start - 1], entry, limit);
    a := Answer(size, raw[p.start..p.end]);
    PiecesMakeTheWhole(raw, from, p.start - 1, p.end);
  }

  lemma AcceptedHeader(header: Bytes, entry: FileEntry, limit: nat) returns (size: Bytes)
    requires HeaderSize(header, entry, limit).Ok?
    ensures header == PrintedHeader(entry.name, size)
    ensures size != [] && AllDigits(size) && |size| <= limit && HeaderSize(header, entry, limit) == Ok(Number(size))
  {
    var fields := Split(header, SPACE);
    SplitJoins(header, SPACE);
    size := fields[2];
    assert fields[1..][0] == BLOB && fields[1..][1..] == [size];
    assert Joined(fields[1..], SPACE) == BLOB + [SPACE] + size;
  }

  /** Decimal digits without leading zeros. */
  function Decimal(n: nat): (s: Bytes)
    ensures s != [] && AllDigits(s) && Number(s) == n
    decreases n
  {
    if n < 10 then [0x30 + n] else Decimal(n / 10) + [0x30 + n % 10]
  }

  /** The answers of a Git process: every size in decimal. */
  function DecimalAnswers(contents: seq<Bytes>): seq<Answer> {
    seq(|contents|, i requires 0 <= i < |contents| => Answer(Decimal(|contents[i]|), contents[i]))
  }

  lemma {:induction false} ContentsOfAnswers(contents: seq<Bytes>, k: nat)
    requires k <= |contents|
    ensures Contents(DecimalAnswers(contents), k) == contents[k..]
    decreases |contents| - k
  {
    if k < |contents| {
      ContentsOfAnswers(contents, k + 1);
      assert contents[k..] == [contents[k]] + contents[k + 1..];
    }
  }

  /** Every response Git prints is accepted with its contents, as long as no size has more digits than can be read. */
  lemma DecimalResponsesAreAccepted(entries: seq<FileEntry>, contents: seq<Bytes>, limit: nat)
    requires |contents| == |entries| && NamesValid(entries)
    ensures (forall i | 0 <= i < |contents| :: |Decimal(|contents[i]|)| <= limit) <==>
              AllFit(DecimalAnswers(contents), limit)
    ensures AllFit(DecimalAnswers(contents), limit) ==>
              ParseBatch(Printed(entries, DecimalAnswers(contents), 0), entries, limit) == Ok(contents)
  {
    if AllFit(DecimalAnswers(contents), limit) {
      ParserUndoesPrinter(entries, DecimalAnswers(contents), limit);
      ContentsOfAnswers(contents, 0);
      forall i | 0 <= i < |contents|
        ensures |Decimal(|contents[i]|)| <= limit
      {
        assert AnswerFits(DecimalAnswers(contents)[i], limit);
      }
    }
  }

  // ---------------------------------------------------------------- two readers of one tree listing

  const MODE_REGULAR: Bytes := [0x31, 0x30, 0x30, 0x36, 0x34, 0x34]
  const MODE_EXECUTABLE: Bytes := [0x31, 0x30, 0x30, 0x37, 0x35, 0x35]

  /** NUL-terminated records. */
  function NulRecords(raw: Bytes): Result<seq<Bytes>, GitError> {
    if raw == [] then Ok([])
    else if raw[|raw| - 1] != NUL then Err(Malformed)
    else Ok(Split(raw[..|raw| - 1], NUL))
  }

  function Checked(mode: Bytes, kind: Bytes, name: Bytes, path: Bytes, hexLength: nat): Result<FileEntry, GitError> {
    if mode !in {MODE_REGULAR, MODE_EXECUTABLE} || kind != BLOB then Err(Unsupported)
    else if !IsObjectName(name, hexLength) then Err(Malformed)
    else Ok(FileEntry(path, mode, name))
  }

  /** The state reader cuts at the first two spaces of the metadata. */
  function StateLine(record: Bytes, hexLength: nat): Result<FileEntry, GitError> {
    var tab := IndexOf(record, TAB);
    if tab == |record| then Err(Malformed)
    else
      match CutTwice(record[..tab])
      case None => Err(Malformed)
      case Some(fields) => Checked(fields.0, fields.1, fields.2, record[tab + 1..], hexLength)
  }

  function CutTwice(metadata: Bytes): Option<(Bytes, Bytes, Bytes)> {
    var first := IndexOf(metadata, SPACE);
    if first == |metadata| then None
    else
      var others := metadata[first + 1..];
      var second := IndexOf(others, SPACE);
      if second == |others| then None else Some((metadata[..first], others[..second], others[second + 1..]))
  }

  /** The bundle reader cuts the metadata at every space and wants three fields. */
  function BundleLine(record: Bytes, hexLength: nat): Result<FileEntry, GitError> {
    var tab := IndexOf(record, TAB);
    if tab == |record| then Err(Malformed)
    else
      var fields := Split(record[..tab], SPACE);
      if |fields| != 3 then Err(Malformed) else Checked(fields[0], fields[1], fields[2], record[tab + 1..], hexLength)
  }

  /** Paths must be nonempty and strictly increasing, starting after `previous`. */
  function StateEntries(records: seq<Bytes>, hexLength: nat, previous: Option<Bytes>): Result<seq<FileEntry>, GitError>
  {
    if records == [] then Ok([])
    else
      match StateLine(records[0], hexLength)
      case Err(e) => Err(e)
      case Ok(entry) =>
        if entry.path == [] || (previous.Some? && !Less(previous.value, entry.path)) then Err(Ambiguous)
        else
          match StateEntries(records[1..], hexLength, Some(entry.path))
          case Err(e) => Err(e)
          case Ok(rest) => Ok([entry] + rest)
  }

  function StateTree(raw: Bytes, hexLength: nat): Result<seq<FileEntry>, GitError> {
    match NulRecords(raw)
    case Err(e) => Err(e)
    case Ok(records) => StateEntries(records, hexLength, None)
  }

  /** No empty record, no repeated path; `seen` are the paths so far. */
  function BundleEntries(records: seq<Bytes>, hexLength: nat, seen: set<Bytes>): Result<seq<FileEntry>, GitError> {
    if records == [] then Ok([])
    else
      match BundleLine(records[0], hexLength)
      case Err(e) => Err(e)
      case Ok(entry) =>
        if entry.path in seen then Err(Ambiguous)
        else
          match BundleEntries(records[1..], hexLength, seen + {entry.path})
          case Err(e) => Err(e)
          case Ok(rest) => Ok([entry] + rest)
  }

  function Inserted(e: FileEntry, entries: seq<FileEntry>): seq<FileEntry> {
    if entries == [] || Less(e.path, entries[0].path) then [e] + entries else [entries[0]] + Inserted(e, entries[1..])
  }

  function SortedByPath(entries: seq<FileEntry>): seq<FileEntry> {
    if entries == [] then [] else Inserted(entries[0], SortedByPath(entries[1..]))
  }

  function Paths(entries: seq<FileEntry>): set<Bytes> { set e | e in entries :: e.path }

  /** `acceptable` is the repository's rule for a set of paths: encoding, safety, no case collisions. */
  function BundleTree(raw: Bytes, hexLength: nat, acceptable: set<Bytes> -> bool): Result<seq<FileEntry>, GitError> {
    match NulRecords(raw)
    case Err(e) => Err(e)
    case Ok(records) =>
      if [] in records then Err(Malformed)
      else
        match BundleEntries(records, hexLength, {})
        case Err(e) => Err(e)
        case Ok(entries) => if acceptable(Paths(entries)) then Ok(SortedByPath(entries)) else Err(Rejected)
  }

  method ParseBaseTree(raw: Bytes, hexLength: nat) returns (r: Result<seq<FileEntry>, GitError>)
    ensures r == StateTree(raw, hexLength)
  {
    var records := NulRecords(raw);
    if records.Err? { return Err(records.error); }
    var all := records.value;
    ghost var whole := StateEntries(all, hexLength, None);
    var entries: seq<FileEntry> := [];
    var previous: Option<Bytes> := None;
    assert all[0..] == all;
    StartsWith(whole);
    for k := 0 to |all|
      invariant Extends(whole, entries, StateEntries(all[k..], hexLength, previous))
    {
      assert all[k..][0] == all[k] && all[k..][1..] == all[k + 1..];
      var entry := StateLine(all[k], hexLength);
      if entry.Err? { return Err(entry.error); }
      if entry.value.path == [] || (previous.Some? && !Less(previous.value, entry.value.path)) {
        return Err(Ambiguous);
      }
      previous := Some(entry.value.path);
      TookOne(whole, entries, entry.value, StateEntries(all[k + 1..], hexLength, previous));
      entries := entries + [entry.value];
    }
    assert entries + [] == entries;
    return Ok(entries);
  }

  method ParseBaseTreeEntries(raw: Bytes, hexLength: nat, acceptable: set<Bytes> -> bool)
    returns (r: Result<seq<FileEntry>, GitError>)
    ensures r == BundleTree(raw, hexLength, acceptable)
  {
    var records := NulRecords(raw);
    if records.Err? { return Err(records.error); }
    var all := records.value;
    if [] in all { return Err(Malformed); }
    ghost var whole := BundleEntries(all, hexLength, {});
    var byPath: map<Bytes, Stored> := map[];
    var entries: seq<FileEntry> := [];
    assert all[0..] == all;
    assert byPath.Keys == {};
    StartsWith(whole);
    for k := 0 to |all|
      invariant byPath.Keys == Paths(entries)
      invariant Extends(whole, entries, BundleEntries(all[k..], hexLength, byPath.Keys))
    {
      assert all[k..][0] == all[k] && all[k..][1..] == all[k + 1..];
      var entry := BundleLine(all[k], hexLength);
      if entry.Err? { return Err(entry.error); }
      if entry.value.path in byPath { return Err(Ambiguous); }
      ghost var seen := byPath.Keys;
      byPath := byPath[entry.value.path := Stored(entry.value.mode, entry.value.name)];
      assert byPath.Keys == seen + {entry.value.path};
      TookOne(whole, entries, entry.value, BundleEntries(all[k + 1..], hexLength, byPath.Keys));
      entries := entries + [entry.value];
    }
    assert entries + [] == entries;
    if !acceptable(byPath.Keys) { return Err(Rejected); }
    return Ok(SortedByPath(entries));
  }

  type Listing = Result<seq<FileEntry>, GitError>

  predicate Extends(whole: Listing, collected: seq<FileEntry>, rest: Listing) {
    match rest
    case Ok(more) => whole == Ok(collected + more)
    case Err(e) => whole == Err(e)
  }

  lemma StartsWith(whole: Listing)
    ensures Extends(whole, [], whole)
  {
    if whole.Ok? { assert [] + whole.value == whole.value; }
  }

  lemma TookOne(whole: Listing, collected: seq<FileEntry>, e: FileEntry, rest: Listing)
    ensures Extends(whole, collected, if rest.Ok? then Ok([e] + rest.value) else rest) ==>
              Extends(whole, collected + [e], rest)
  {
    if rest.Ok? { assert collected + ([e] + rest.value) == (collected + [e]) + rest.value; }
  }

  /** Both readers accept the same lines, with the same fields. */
  lemma LinesAgree(record: Bytes, hexLength: nat, e: FileEntry)
    ensures BundleLine(record, hexLength) == Ok(e) <==> StateLine(record, hexLength) == Ok(e)
  {
    CutsAgree(record[..IndexOf(record, TAB)], hexLength);
  }

  lemma CutsAgree(metadata: Bytes, hexLength: nat)
    ensures var fields, cut := Split(metadata, SPACE), CutTwice(metadata);
            && (|fields| == 3 ==> cut == Some((fields[0], fields[1], fields[2])))
            && (|fields| != 3 && cut.Some? ==> !IsObjectName(cut.value.2, hexLength))
  {
    hide Split, IsObjectName, CutTwice;
    if CutTwice(metadata).Some? {
      SplitInThree(metadata);
      NameHasNoSpace(CutTwice(metadata).value.2, hexLength);
    } else {
      SplitInTwo(metadata);
    }
  }

  lemma SplitInThree(metadata: Bytes)
    requires CutTwice(metadata).Some?
    ensures var cut := CutTwice(metadata).value; Split(metadata, SPACE) == [cut.0] + ([cut.1] + Split(cut.2, SPACE))
  {
    hide Split;
    var n := IndexOf(metadata, SPACE);
    SplitUnfolds(metadata, n);
    SplitUnfolds(metadata[n + 1..], IndexOf(metadata[n + 1..], SPACE));
  }

  lemma SplitInTwo(metadata: Bytes)
    requires CutTwice(metadata).None?
    ensures |Split(metadata, SPACE)| <= 2
  {
    hide Split;
    var n := IndexOf(metadata, SPACE);
    SplitUnfolds(metadata, n);
    if n < |metadata| { SplitUnfolds(metadata[n + 1..], IndexOf(metadata[n + 1..], SPACE)); }
  }

  lemma SplitUnfolds(s: Bytes, n: nat)
    requires IndexOf(s, SPACE) == n <= |s|
    ensures n == |s| ==> Split(s, SPACE) == [s]
    ensures n < |s| ==> Split(s, SPACE) == [s[..n]] + Split(s[n + 1..], SPACE)
  {
    hide IndexOf;
  }

  lemma NameHasNoSpace(name: Bytes, hexLength: nat)
    ensures IsObjectName(name, hexLength) ==> Split(name, SPACE) == [name]
    ensures |Split(name, SPACE)| != 1 ==> !IsObjectName(name, hexLength)
    ensures |Split(name, SPACE)| == 1 ==> Split(name, SPACE) == [name]
  {
    var n := IndexOf(name, SPACE);
    if n < |name| { assert !IsHexByte(name[n]); }
  }

  lemma {:induction false} SortedStays(entries: seq<FileEntry>)
    requires Increasing(entries)
    ensures SortedByPath(entries) == entries
  {
    if entries != [] {
      SortedStays(entries[1..]);
      assert |entries| > 1 ==> entries[1..][0] == entries[1] && Less(entries[0].path, entries[1].path);
    }
  }

  lemma {:induction false} StateEntriesIncrease(records: seq<Bytes>, hexLength: nat, previous: Option<Bytes>)
    requires StateEntries(records, hexLength, previous).Ok?
    ensures var entries := StateEntries(records, hexLength, previous).value;
            Increasing(entries) && RealModes(entries) && (previous.Some? ==> AllAfter(entries, previous.value))
    ensures [] !in records
  {
    if records != [] {
      var entry := StateLine(records[0], hexLength).value;
      StateEntriesIncrease(records[1..], hexLength, Some(entry.path));
      var rest := StateEntries(records[1..], hexLength, Some(entry.path)).value;
      forall i | 0 <= i < |rest| && previous.Some? ensures Less(previous.value, rest[i].path) {
        LessIsTransitive(previous.value, entry.path, rest[i].path);
      }
    }
  }

  /** The state reader's listing is a valid input of the staged comparison. */
  lemma StateTreeIsSorted(raw: Bytes, hexLength: nat)
    requires StateTree(raw, hexLength).Ok?
    ensures Increasing(StateTree(raw, hexLength).value) && RealModes(StateTree(raw, hexLength).value)
  {
    StateEntriesIncrease(NulRecords(raw).value, hexLength, None);
  }

  lemma {:induction false} BundleFollowsState(
      records: seq<Bytes>, hexLength: nat, previous: Option<Bytes>, seen: set<Bytes>)
    requires StateEntries(records, hexLength, previous).Ok?
    requires forall p | p in seen :: previous.Some? && (p == previous.value || Less(p, previous.value))
    ensures BundleEntries(records, hexLength, seen) == StateEntries(records, hexLength, previous)
  {
    if records != [] {
      var entry := StateLine(records[0], hexLength).value;
      LinesAgree(records[0], hexLength, entry);
      forall p | p in seen ensures Less(p, entry.path) && p != entry.path {
        if p != previous.value { LessIsTransitive(p, previous.value, entry.path); }
        LessIsIrreflexive(p);
      }
      BundleFollowsState(records[1..], hexLength, Some(entry.path), seen + {entry.path});
    }
  }

  /**
   Whatever the state reader accepts, the bundle reader reads as the same entries in the same order,
   unless the repository's path rule rejects them; so where both accept, they agree.
   */
  lemma ReadersAgree(raw: Bytes, hexLength: nat, acceptable: set<Bytes> -> bool)
    requires StateTree(raw, hexLength).Ok?
    ensures BundleTree(raw, hexLength, acceptable) ==
            if acceptable(Paths(StateTree(raw, hexLength).value)) then StateTree(raw, hexLength) else Err(Rejected)
  {
    var records := NulRecords(raw).value;
    StateEntriesIncrease(records, hexLength, None);
    BundleFollowsState(records, hexLength, None, {});
    SortedStays(StateTree(raw, hexLength).value);
  }

  /** The state reader accepts exactly what the bundle reader accepts in increasing order with no empty path. */
  lemma {:induction false} StateFollowsBundle(
      records: seq<Bytes>, hexLength: nat, previous: Option<Bytes>, seen: set<Bytes>)
    requires BundleEntries(records, hexLength, seen).Ok?
    requires var entries := BundleEntries(records, hexLength, seen).value;
             Increasing(entries) && (previous.Some? ==> AllAfter(entries, previous.value))
             && forall i | 0 <= i < |entries| :: entries[i].path != []
    ensures StateEntries(records, hexLength, previous) == BundleEntries(records, hexLength, seen)
  {
    if records != [] {
      var entry := BundleLine(records[0], hexLength).value;
      LinesAgree(records[0], hexLength, entry);
      var entries := BundleEntries(records, hexLength, seen).value;
      assert entries[0] == entry && entries[1..] == BundleEntries(records[1..], hexLength, seen + {entry.path}).value;
      StateFollowsBundle(records[1..], hexLength, Some(entry.path), seen + {entry.path});
    }
  }
}
