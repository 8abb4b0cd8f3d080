/**
 Draining a child's output: whatever the chunks, the newest lines are kept, the rest is counted, and a
 broken raw copy, live view or line observer never disturbs the capture. Decoding is done; a chunk pairs
 the raw bytes with the text they complete.
 */
module OutputCapture {
  import opened ByteOrder

  type Text = string

  const RETAINED := 10
  const VISIBLE := 5

  datatype Chunk = Chunk(raw: Bytes, text: Text)

  /** Lines with their newline; the last one may lack it. */
  function LinesOf(t: Text): seq<Text>
    decreases |t|
  {
    if t == "" then []
    else
      var n := FirstNewline(t);
      if n == |t| then [t] else [t[..n + 1]] + LinesOf(t[n + 1..])
  }

  function FirstNewline(t: Text): (n: nat)
    ensures n <= |t| && (n < |t| ==> t[n] == '\n')
  {
    if t == "" || t[0] == '\n' then 0 else 1 + FirstNewline(t[1..])
  }

  function Newest(lines: seq<Text>, count: nat): seq<Text> {
    if |lines| <= count then lines else lines[|lines| - count..]
  }

  /** The newest lines are the end of the list: `count` of them, or all if there are fewer. */
  lemma NewestAreTheEnd(lines: seq<Text>, count: nat)
    ensures |Newest(lines, count)| == if |lines| < count then |lines| else count
    ensures Newest(lines, count) == lines[|lines| - |Newest(lines, count)|..]
  {
  }

  function TextOf(chunks: seq<Chunk>): Text { if chunks == [] then "" else chunks[0].text + TextOf(chunks[1..]) }

  /** The last ten lines and the number of older ones. `all` is every line ever appended. */
  class RollingLineBuffer {
    var lines: seq<Text>
    var discarded: nat
    ghost var all: seq<Text>

    ghost predicate Valid()
      reads this
    {
      lines == Newest(all, RETAINED) && discarded == |all| - |lines|
    }

    constructor ()
      ensures Valid() && all == []
    {
      lines, discarded, all := [], 0, [];
    }

    method Append(line: Text)
      requires Valid()
      modifies this
      ensures Valid() && all == old(all) + [line]
      ensures |lines| == (if |all| < 10 then |all| else 10) && lines == all[|all| - |lines|..]
      ensures discarded + |lines| == |all|
    {
      if |lines| == RETAINED {
        discarded := discarded + 1;
        lines := lines[1..];
      }
      lines := lines + [line];
      all := all + [line];
    }

    /** How many lines were ever appended. */
    method Count() returns (count: nat)
      requires Valid()
      ensures count == |all|
    {
      count := |lines| + discarded;
    }

    method RetainedLines() returns (kept: seq<Text>)
      requires Valid()
      ensures kept == Newest(all, RETAINED)
    {
      kept := lines;
    }

    method VisibleLines() returns (shown: seq<Text>)
      requires Valid()
      ensures shown == Newest(all, VISIBLE)
    {
      shown := if |lines| > VISIBLE then lines[|lines| - VISIBLE..] else lines;
    }
  }

  /** How a destination answers one write: it took everything, or it took a part and failed. */
  datatype Reply = Done | Broke(taken: nat)

  /** What of one piece gets through. */
  function Taken<T>(piece: seq<T>, reply: Reply): seq<T> {
    if reply.Done? || reply.taken >= |piece| then piece else piece[..reply.taken]
  }

  /** A destination that is dropped at its first failing write. */
  class Sink<T> {
    var open: bool
    var written: seq<T>

    constructor ()
      ensures open && written == []
    {
      open, written := true, [];
    }

    /** The destination has seen the first `k` pieces. */
    ghost predicate Follows(pieces: seq<seq<T>>, reply: nat -> Reply, k: nat)
      reads this
    {
      k <= |pieces| && open == AllTaken(pieces, reply, k) && written == Received(pieces, reply, k)
    }

    method Write(piece: seq<T>, reply: Reply)
      modifies this
      ensures open == (old(open) && (|piece| == 0 || reply.Done?))
      ensures written == old(written) + if old(open) then Taken(piece, reply) else []
    {
      if open && |piece| > 0 {
        written := written + Taken(piece, reply);
        open := reply.Done?;
      }
    }

    /** Write what comes next in a stream. */
    method WriteNext(piece: seq<T>, answer: Reply, ghost pieces: seq<seq<T>>, ghost reply: nat -> Reply, ghost k: nat)
      requires k < |pieces| && Follows(pieces, reply, k) && piece == pieces[k] && answer == reply(k)
      modifies this
      ensures Follows(pieces, reply, k + 1)
    {
      Write(piece, answer);
    }

    method Next(pieces: seq<seq<T>>, reply: nat -> Reply, k: nat)
      requires k < |pieces| && Follows(pieces, reply, k)
      modifies this
      ensures Follows(pieces, reply, k + 1)
    {
      WriteNext(pieces[k], reply(k), pieces, reply, k);
    }
  }

  /** No write among the first `k` failed; empty pieces are not written at all. */
  predicate AllTaken<T>(pieces: seq<seq<T>>, reply: nat -> Reply, k: nat)
    requires k <= |pieces|
  {
    forall i | 0 <= i < k :: |pieces[i]| == 0 || reply(i).Done?
  }

  /** What a destination has received after the first `k` pieces. */
  function Received<T>(pieces: seq<seq<T>>, reply: nat -> Reply, k: nat): seq<T>
    requires k <= |pieces|
  {
    if k == 0 then []
    else
      Received(pieces, reply, k - 1) + if AllTaken(pieces, reply, k - 1) then Taken(pieces[k - 1], reply(k - 1)) else []
  }

  function Flat<T>(pieces: seq<seq<T>>): seq<T> {
    if pieces == [] then [] else Flat(pieces[..|pieces| - 1]) + pieces[|pieces| - 1]
  }

  /**
   A destination has a prefix of the stream, and all of it as long as no write failed: no gap, nothing twice. Its first
   failing write still gives it what it took of that piece, and nothing comes after that.
   */
  lemma {:induction false} ReceivedIsAPrefix<T>(pieces: seq<seq<T>>, reply: nat -> Reply, k: nat)
    requires k <= |pieces|
    ensures Received(pieces, reply, k) <= Flat(pieces[..k])
    ensures AllTaken(pieces, reply, k) ==> Received(pieces, reply, k) == Flat(pieces[..k])
    ensures k > 0 && !AllTaken(pieces, reply, k - 1) ==> Received(pieces, reply, k) == Received(pieces, reply, k - 1)
    ensures k > 0 && AllTaken(pieces, reply, k - 1) && !AllTaken(pieces, reply, k) ==>
              reply(k - 1).Broke?
              && |Received(pieces, reply, k)| == |Flat(pieces[..k - 1])|
                   + if reply(k - 1).taken < |pieces[k - 1]| then reply(k - 1).taken else |pieces[k - 1]|
  {
    if k > 0 {
      ReceivedIsAPrefix(pieces, reply, k - 1);
      assert pieces[..k][..k - 1] == pieces[..k - 1];
      assert Taken(pieces[k - 1], reply(k - 1)) <= pieces[k - 1];
    }
  }

  /** What the line observer is shown after each line: the newest five and how many were evicted. */
  datatype Snapshot = Snapshot(shown: seq<Text>, discarded: nat)

  function SnapshotOf(lines: seq<Text>): Snapshot {
    Snapshot(Newest(lines, VISIBLE), |lines| - |Newest(lines, RETAINED)|)
  }

  /** The observer is shown the last five lines, and how many lines before the last ten there were. */
  lemma SnapshotShowsTheEnd(lines: seq<Text>)
    ensures var view, n := SnapshotOf(lines), |lines|;
            && view.shown == (if n < 5 then lines else lines[n - 5..])
            && view.discarded == if n < 10 then 0 else n - 10
  {
    NewestAreTheEnd(lines, VISIBLE);
    NewestAreTheEnd(lines, RETAINED);
  }

  function Snapshots(lines: seq<Text>): seq<seq<Snapshot>> {
    seq(|lines|, i requires 0 <= i < |lines| => [SnapshotOf(lines[..i + 1])])
  }

  lemma {:induction false} FirstNewlineOfSum(t: Text, more: Text)
    requires FirstNewline(t) < |t|
    ensures FirstNewline(t + more) == FirstNewline(t)
  {
    if t[0] != '\n' {
      assert (t + more)[1..] == t[1..] + more;
      FirstNewlineOfSum(t[1..], more);
    }
  }

  lemma LinesUnfold(t: Text, n: nat)
    requires FirstNewline(t) == n < |t|
    ensures LinesOf(t) == [t[..n + 1]] + LinesOf(t[n + 1..])
  {
    hide FirstNewline;
  }

  /** A complete first line can be taken before the rest is known. */
  lemma FirstLineIsFinal(t: Text, more: Text)
    requires FirstNewline(t) < |t|
    ensures LinesOf(t + more) == [t[..FirstNewline(t) + 1]] + LinesOf(t[FirstNewline(t) + 1..] + more)
  {
    hide LinesOf, FirstNewline;
    var n := FirstNewline(t);
    FirstNewlineOfSum(t, more);
    assert (t + more)[..n + 1] == t[..n + 1] && (t + more)[n + 1..] == t[n + 1..] + more;
    LinesUnfold(t + more, n);
  }

  /** Append one line and show the observer the new view. */
  method Publish(
      buffer: RollingLineBuffer, observer: Sink<Snapshot>, line: Text, ghost whole: seq<Text>, shows: nat -> Reply)
    requires buffer.Valid() && buffer.all + [line] <= whole && observer.Follows(Snapshots(whole), shows, |buffer.all|)
    modifies buffer, observer
    ensures buffer.Valid() && buffer.all == old(buffer.all) + [line]
    ensures observer.Follows(Snapshots(whole), shows, |buffer.all|)
  {
    hide Newest, Snapshots, Received, AllTaken;
    ghost var k := |buffer.all|;
    buffer.Append(line);
    assert whole[..k + 1] == buffer.all;
    SnapshotAt(whole, k);
    var shown := buffer.VisibleLines();
    var count := buffer.Count();
    observer.WriteNext([Snapshot(shown, buffer.discarded)], shows(count - 1), Snapshots(whole), shows, k);
  }

  lemma SnapshotAt(whole: seq<Text>, k: nat)
    requires k < |whole|
    ensures var lines := whole[..k + 1];
            && |Snapshots(whole)| == |whole|
            && Snapshots(whole)[k] == [Snapshot(Newest(lines, VISIBLE), |lines| - |Newest(lines, RETAINED)|)]
  {
  }

  /** Move every complete line of `pending` into the buffer. */
  method TakeCompleteLines(
    buffer: RollingLineBuffer, observer: Sink<Snapshot>, pending: Text, ghost more: Text, ghost whole: seq<Text>,
    shows: nat -> Reply)
    returns (rest: Text)
    requires buffer.Valid() && buffer.all + LinesOf(pending + more) == whole
    requires observer.Follows(Snapshots(whole), shows, |buffer.all|)
    modifies buffer, observer
    ensures buffer.Valid() && FirstNewline(rest) == |rest| && buffer.all + LinesOf(rest + more) == whole
    ensures observer.Follows(Snapshots(whole), shows, |buffer.all|)
  {
    hide LinesOf, Snapshots, Received, AllTaken, Newest;
    rest := pending;
    while FirstNewline(rest) < |rest|
      invariant buffer.Valid() && buffer.all + LinesOf(rest + more) == whole
      invariant observer.Follows(Snapshots(whole), shows, |buffer.all|)
      decreases |rest|
    {
      var n := FirstNewline(rest);
      FirstLineIsFinal(rest, more);
      var line := rest[..n + 1];
      ghost var later := LinesOf(rest[n + 1..] + more);
      assert buffer.all + ([line] + later) == (buffer.all + [line]) + later;
      Publish(buffer, observer, line, whole, shows);
      rest := rest[n + 1..];
    }
  }

  lemma TextUnfolds(chunks: seq<Chunk>, i: nat)
    requires i < |chunks|
    ensures TextOf(chunks[i..]) == chunks[i].text + TextOf(chunks[i + 1..])
  {
    assert chunks[i..][1..] == chunks[i + 1..];
  }

  function Raws(chunks: seq<Chunk>): seq<Bytes> { seq(|chunks|, i requires 0 <= i < |chunks| => chunks[i].raw) }

  function Texts(chunks: seq<Chunk>): seq<Text> { seq(|chunks|, i requires 0 <= i < |chunks| => chunks[i].text) }

  /** Take one chunk's text: the buffer and the pending part stand for the same lines as before. */
  method TakeText(
    buffer: RollingLineBuffer, observer: Sink<Snapshot>, pending: Text, text: Text, ghost more: Text,
    ghost whole: seq<Text>, shows: nat -> Reply)
    returns (rest: Text)
    requires buffer.Valid() && buffer.all + LinesOf(pending + (text + more)) == whole
    requires observer.Follows(Snapshots(whole), shows, |buffer.all|)
    modifies buffer, observer
    ensures buffer.Valid() && FirstNewline(rest) == |rest| && buffer.all + LinesOf(rest + more) == whole
    ensures observer.Follows(Snapshots(whole), shows, |buffer.all|)
  {
    assert pending + (text + more) == (pending + text) + more;
    rest := TakeCompleteLines(buffer, observer, pending + text, more, whole, shows);
  }

  /** How the three destinations of one capture answer their writes. */
  datatype Destinations = Destinations(copies: nat -> Reply, prints: nat -> Reply, shows: nat -> Reply)

  /** The reads of one child, one after the other; what follows the last newline stays pending. */
  method DrainChunks(
    buffer: RollingLineBuffer, raw: Sink<byte>, live: Sink<char>, observer: Sink<Snapshot>, chunks: seq<Chunk>,
    answers: Destinations, ghost whole: seq<Text>)
    returns (pending: Text)
    requires buffer.Valid() && buffer.all == [] && whole == LinesOf(TextOf(chunks))
    requires raw.Follows(Raws(chunks), answers.copies, 0) && live.Follows(Texts(chunks), answers.prints, 0)
    requires observer.Follows(Snapshots(whole), answers.shows, 0)
    modifies buffer, raw, live, observer
    ensures buffer.Valid() && FirstNewline(pending) == |pending|
    ensures buffer.all + LinesOf(pending + TextOf(chunks[|chunks|..])) == whole
    ensures raw.Follows(Raws(chunks), answers.copies, |chunks|) && live.Follows(Texts(chunks), answers.prints, |chunks|)
    ensures observer.Follows(Snapshots(whole), answers.shows, |buffer.all|)
  {
    hide LinesOf, TextOf, Received, AllTaken, Snapshots, Newest;
    pending := "";
    assert chunks[0..] == chunks && "" + TextOf(chunks) == TextOf(chunks) && [] + whole == whole;
    for i := 0 to |chunks|
      invariant buffer.Valid() && FirstNewline(pending) == |pending|
                && buffer.all + LinesOf(pending + TextOf(chunks[i..])) == whole
      invariant raw.Follows(Raws(chunks), answers.copies, i) && live.Follows(Texts(chunks), answers.prints, i)
      invariant observer.Follows(Snapshots(whole), answers.shows, |buffer.all|)
    {
      raw.Next(Raws(chunks), answers.copies, i);
      live.Next(Texts(chunks), answers.prints, i);
      TextUnfolds(chunks, i);
      pending := TakeText(buffer, observer, pending, chunks[i].text, TextOf(chunks[i + 1..]), whole, answers.shows);
    }
  }

  /** At the end of the output an unterminated last line is a line. */
  method TakeLastLine(
    buffer: RollingLineBuffer, observer: Sink<Snapshot>, pending: Text, ghost whole: seq<Text>, shows: nat -> Reply)
    requires buffer.Valid() && buffer.all + (if pending == "" then [] else [pending]) == whole
    requires observer.Follows(Snapshots(whole), shows, |buffer.all|)
    modifies buffer, observer
    ensures buffer.Valid() && buffer.all == whole && observer.Follows(Snapshots(whole), shows, |buffer.all|)
  {
    hide Received, AllTaken, Snapshots, Newest;
    if pending != "" {
      Publish(buffer, observer, pending, whole, shows);
    } else {
      assert buffer.all + [] == buffer.all;
    }
  }

  /** The drain of one child's output; every destination may fail at any of its writes. */
  method Drain(
    buffer: RollingLineBuffer, raw: Sink<byte>, live: Sink<char>, observer: Sink<Snapshot>, chunks: seq<Chunk>,
    answers: Destinations)
    requires buffer.Valid() && buffer.all == []
    requires raw.open && raw.written == [] && live.open && live.written == [] && observer.open && observer.written == []
    modifies buffer, raw, live, observer
    ensures buffer.Valid() && buffer.all == LinesOf(TextOf(chunks))
    ensures raw.Follows(Raws(chunks), answers.copies, |chunks|) && live.Follows(Texts(chunks), answers.prints, |chunks|)
    ensures observer.Follows(Snapshots(buffer.all), answers.shows, |buffer.all|)
  {
    hide LinesOf, TextOf, Snapshots, Newest;
    ghost var whole := LinesOf(TextOf(chunks));
    var pending := DrainChunks(buffer, raw, live, observer, chunks, answers, whole);
    NothingLeft(chunks, pending);
    TakeLastLine(buffer, observer, pending, whole, answers.shows);
  }

  lemma NothingLeft(chunks: seq<Chunk>, pending: Text)
    requires FirstNewline(pending) == |pending|
    ensures TextOf(chunks[|chunks|..]) == "" && pending + "" == pending
    ensures LinesOf(pending) == if pending == "" then [] else [pending]
  {
  }

  /** Drain into new destinations and read the buffer. */
  method DrainAndRead(chunks: seq<Chunk>, answers: Destinations)
    returns (kept: seq<Text>, shown: seq<Text>, discarded: nat)
    ensures kept == Newest(LinesOf(TextOf(chunks)), RETAINED)
    ensures shown == Newest(LinesOf(TextOf(chunks)), VISIBLE)
    ensures discarded == |LinesOf(TextOf(chunks))| - |kept|
  {
    hide LinesOf, TextOf, Newest, Snapshots, Received, AllTaken;
    var buffer := new RollingLineBuffer();
    var raw := new Sink<byte>();
    var live := new Sink<char>();
    var observer := new Sink<Snapshot>();
    Drain(buffer, raw, live, observer, chunks, answers);
    kept := buffer.RetainedLines();
    shown := buffer.VisibleLines();
    discarded := buffer.discarded;
  }

  /** What the capture reports after the drain, from the decoded output alone. */
  method Capture(chunks: seq<Chunk>, answers: Destinations) returns (kept: seq<Text>, shown: seq<Text>, discarded: nat)
    ensures var lines := LinesOf(TextOf(chunks));
            && |kept| == (if |lines| < 10 then |lines| else 10) && kept == lines[|lines| - |kept|..]
            && |shown| == (if |lines| < 5 then |lines| else 5) && shown == lines[|lines| - |shown|..]
            && discarded + |kept| == |lines|
  {
    hide LinesOf, TextOf;
    kept, shown, discarded := DrainAndRead(chunks, answers);
  }

  /** A line ends at its first newline; only the last line of a text may have none. */
  predicate IsLine(line: Text, last: bool) {
    line != "" && (forall i | 0 <= i < |line| - 1 :: line[i] != '\n') && (last || line[|line| - 1] == '\n')
  }

  predicate AreLines(lines: seq<Text>) { lines != [] ==> IsLine(lines[0], |lines| == 1) && AreLines(lines[1..]) }

  /** The lines are those of the text: joined they give it back, and each is one line. */
  lemma {:induction false} LinesMakeTheText(t: Text)
    ensures Joined(LinesOf(t)) == t && AreLines(LinesOf(t)) && (t != "" ==> LinesOf(t) != [])
    decreases |t|
  {
    if t != "" {
      var n := FirstNewline(t);
      NoNewlineBeforeTheFirst(t);
      if n == |t| {
        assert t + "" == t;
      } else {
        LinesMakeTheText(t[n + 1..]);
        assert t[..n + 1] + t[n + 1..] == t;
      }
    }
  }

  function Joined(lines: seq<Text>): Text { if lines == [] then "" else lines[0] + Joined(lines[1..]) }

  lemma {:induction false} NoNewlineBeforeTheFirst(t: Text)
    ensures forall i | 0 <= i < FirstNewline(t) :: t[i] != '\n'
  {
    if t != "" && t[0] != '\n' {
      NoNewlineBeforeTheFirst(t[1..]);
      assert forall i | 0 < i < FirstNewline(t) :: t[i] == t[1..][i - 1];
    }
  }
}
