/**
 The stored form of the Exchange ledger: format 4 is written, formats 1 to 4 are read. Documents are
 JSON values; duplicate object keys are gone before this point. `normal` is the path constructor's
 normal form, `encoded` the file-system encoding of a path.
 */
module LedgerCodec {
  import opened Prelude
  import opened Bindings
  import opened ExchangeLedger
  import opened ByteOrder

  /** Object keys: those the schema knows, and all others. */
  datatype Name =
    | Entries | FormatVersion
    | AttemptedFlag | ApplyStatus | KindName | Manifest | PathText | Digest | CompletedCommit
    | AttemptRunId | ResultDigest
    | BaseCommit | FingerprintAlgorithm | RepoId | StateFingerprint
    | Unknown(name: string)

  datatype Json =
    | JNull | JBool(flag: bool) | JInt(number: int) | JString(text: string)
    | JList(items: seq<Json>) | JObject(fields: map<Name, Json>) | JFraction

  datatype Invalid = Invalid

  /** The host's rules for path text. */
  datatype Paths = Paths(normal: string -> string, absolute: string -> bool, encoded: string -> Bytes)

  ghost predicate PathsLawful(p: Paths) {
    && (forall t :: p.normal(p.normal(t)) == p.normal(t))
    && (forall t, u :: p.encoded(t) == p.encoded(u) ==> t == u)
  }

  // ---------------------------------------------------------------- fields

  function KindText(k: Kind): string {
    match k case Other => "other" case PatchPackage => "patch_package" case ResultBundle => "result_bundle"
  }

  function KindOf(t: string): Result<Kind, Invalid> {
    if t == "other" then Ok(Other) else if t == "patch_package" then Ok(PatchPackage)
    else if t == "result_bundle" then Ok(ResultBundle) else Err(Invalid)
  }

  function StatusText(s: Status): string {
    match s case Attempted => "attempted" case Failed => "failed" case Succeeded => "succeeded"
  }

  function ParseStatus(v: Json): Result<Option<Status>, Invalid> {
    match v
    case JNull => Ok(None)
    case JString(t) =>
      if t == "attempted" then Ok(Some(Attempted)) else if t == "failed" then Ok(Some(Failed))
      else if t == "succeeded" then Ok(Some(Succeeded)) else Err(Invalid)
    case _ => Err(Invalid)
  }

  /** The object format is chosen by the length of the text. */
  function ParseCommit(t: string): Result<CommitId, Invalid> {
    if IsLowerHex(t, 40) then Ok(CommitId(t, Sha1))
    else if IsLowerHex(t, 64) then Ok(CommitId(t, Sha256))
    else Err(Invalid)
  }

  const MANIFEST_FIELDS := {BaseCommit, FingerprintAlgorithm, RepoId, StateFingerprint}

  function ParseSelection(v: Json): Result<Option<Selection>, Invalid> {
    match v
    case JNull => Ok(None)
    case JObject(f) =>
      if f.Keys != MANIFEST_FIELDS || exists k :: k in f && !f[k].JString? then Err(Invalid)
      else
        (match ParseCommit(f[BaseCommit].text)
         case Err(e) => Err(e)
         case Ok(commit) =>
           var selection := Selection(f[RepoId].text, commit, f[StateFingerprint].text, f[FingerprintAlgorithm].text);
           if ValidSelection(selection) then Ok(Some(selection)) else Err(Invalid))
    case _ => Err(Invalid)
  }

  function OptionalText(v: Json): Result<Option<string>, Invalid> {
    match v case JNull => Ok(None) case JString(t) => Ok(Some(t)) case _ => Err(Invalid)
  }

  function OptionalCommit(v: Json): Result<Option<CommitId>, Invalid> {
    match v
    case JNull => Ok(None)
    case JString(t) => (match ParseCommit(t) case Ok(c) => Ok(Some(c)) case Err(e) => Err(e))
    case _ => Err(Invalid)
  }

  // ---------------------------------------------------------------- records

  function EntryFields(version: int): set<Name> {
    if version == 1 then {AttemptedFlag, KindName, Manifest, PathText, Digest}
    else if version == 2 then {ApplyStatus, KindName, Manifest, PathText, Digest}
    else if version == 3 then {ApplyStatus, KindName, Manifest, PathText, Digest, CompletedCommit}
    else {ApplyStatus, KindName, Manifest, PathText, Digest, CompletedCommit, AttemptRunId, ResultDigest}
  }

  function Field(f: map<Name, Json>, name: Name): Json { if name in f then f[name] else JNull }

  function EntryStatus(f: map<Name, Json>, version: int): Result<Option<Status>, Invalid> {
    if version == 1 then
      match Field(f, AttemptedFlag)
      case JBool(attempted) => Ok(if attempted then Some(Attempted) else None)
      case _ => Err(Invalid)
    else ParseStatus(Field(f, ApplyStatus))
  }

  function Checked(paths: Paths, r: Record): Result<Record, Invalid> {
    if paths.absolute(r.identity.path) && IsSha256(r.identity.sha256) && RecordValid(r) then Ok(r) else Err(Invalid)
  }

  function ParseRecord(paths: Paths, v: Json, version: int): Result<Record, Invalid> {
    if !v.JObject? || v.fields.Keys != EntryFields(version) then Err(Invalid)
    else
      var f := v.fields;
      if !Field(f, PathText).JString? || !Field(f, Digest).JString? || !Field(f, KindName).JString? then Err(Invalid)
      else
        var kind, manifest, status :=
          KindOf(Field(f, KindName).text), ParseSelection(Field(f, Manifest)), EntryStatus(f, version);
        var commit, runId, resultSha :=
          OptionalCommit(Field(f, CompletedCommit)), OptionalText(Field(f, AttemptRunId)),
            OptionalText(Field(f, ResultDigest));
        if kind.Err? || manifest.Err? || status.Err? || commit.Err? || runId.Err? || resultSha.Err? then Err(Invalid)
        else
          Checked(paths, Record(Identity(paths.normal(Field(f, PathText).text), Field(f, Digest).text),
                                kind.value, manifest.value, status.value, commit.value, runId.value, resultSha.value))
  }

  function ParseRecords(paths: Paths, items: seq<Json>, version: int): Result<seq<Record>, Invalid> {
    if items == [] then Ok([])
    else
      var r, rest := ParseRecord(paths, items[0], version), ParseRecords(paths, items[1..], version);
      if r.Err? || rest.Err? then Err(Invalid) else Ok([r.value] + rest.value)
  }

  function ParseState(paths: Paths, document: Json): Result<seq<Record>, Invalid> {
    if !document.JObject? || document.fields.Keys != {Entries, FormatVersion} then Err(Invalid)
    else
      var version, entries := document.fields[FormatVersion], document.fields[Entries];
      if !version.JInt? || !(1 <= version.number <= 4) || !entries.JList? then Err(Invalid)
      else
        match ParseRecords(paths, entries.items, version.number)
        case Err(e) => Err(e)
        case Ok(records) => if UniqueIdentities(records) then Ok(records) else Err(Invalid)
  }

  // ---------------------------------------------------------------- encoding

  function SelectionDocument(s: Option<Selection>): Json {
    match s
    case None => JNull
    case Some(m) => JObject(map[BaseCommit := JString(m.baseCommit.hex), FingerprintAlgorithm := JString(m.algorithm),
                                RepoId := JString(m.repoId), StateFingerprint := JString(m.fingerprint)])
  }

  function TextOrNull(t: Option<string>): Json { if t.Some? then JString(t.value) else JNull }

  function EncodeRecord(r: Record): Json {
    JObject(map[ApplyStatus := if r.status.Some? then JString(StatusText(r.status.value)) else JNull,
                AttemptRunId := TextOrNull(r.runId), ResultDigest := TextOrNull(r.resultSha),
                CompletedCommit := if r.completedCommit.Some? then JString(r.completedCommit.value.hex) else JNull,
                KindName := JString(KindText(r.kind)), Manifest := SelectionDocument(r.manifest),
                PathText := JString(r.identity.path), Digest := JString(r.identity.sha256)])
  }

  function EncodeRecords(rs: seq<Record>): seq<Json> {
    seq(|rs|, i requires 0 <= i < |rs| => EncodeRecord(rs[i]))
  }

  function Codes(t: string): Bytes { seq(|t|, i requires 0 <= i < |t| => (t[i] as int) % 0x100) }

  predicate ComesBefore(paths: Paths, a: Record, b: Record) {
    var p, q := paths.encoded(a.identity.path), paths.encoded(b.identity.path);
    Less(p, q) || (p == q && Less(Codes(a.identity.sha256), Codes(b.identity.sha256)))
  }

  function Insert(paths: Paths, r: Record, rs: seq<Record>): seq<Record> {
    if rs == [] || ComesBefore(paths, r, rs[0]) then [r] + rs else [rs[0]] + Insert(paths, r, rs[1..])
  }

  function Sorted(paths: Paths, rs: seq<Record>): seq<Record> {
    if rs == [] then [] else Insert(paths, rs[0], Sorted(paths, rs[1..]))
  }

  function EncodeState(paths: Paths, rs: seq<Record>): Json {
    JObject(map[Entries := JList(EncodeRecords(Sorted(paths, rs))), FormatVersion := JInt(4)])
  }

  // ---------------------------------------------------------------- what a stored record is

  /** What the record's own fields guarantee before any cross-field rule. */
  predicate Stored(paths: Paths, r: Record) {
    && paths.normal(r.identity.path) == r.identity.path && paths.absolute(r.identity.path)
    && IsSha256(r.identity.sha256) && RecordValid(r)
    && (r.manifest.Some? ==> ValidSelection(r.manifest.value))
    && (r.completedCommit.Some? ==> ValidCommit(r.completedCommit.value))
  }

  predicate AllStored(paths: Paths, rs: seq<Record>) { forall i | 0 <= i < |rs| :: Stored(paths, rs[i]) }

  lemma CommitRoundTrip(c: CommitId)
    requires ValidCommit(c)
    ensures ParseCommit(c.hex) == Ok(c)
  {
  }

  lemma SelectionRoundTrip(s: Option<Selection>)
    requires s.Some? ==> ValidSelection(s.value)
    ensures ParseSelection(SelectionDocument(s)) == Ok(s)
  {
    if s.Some? {
      CommitRoundTrip(s.value.baseCommit);
      assert SelectionDocument(s).fields.Keys == MANIFEST_FIELDS;
    }
  }

  lemma EncodedFields(r: Record)
    ensures var f := EncodeRecord(r).fields;
            && f.Keys == EntryFields(4)
            && Field(f, PathText) == JString(r.identity.path) && Field(f, Digest) == JString(r.identity.sha256)
            && Field(f, KindName) == JString(KindText(r.kind)) && Field(f, Manifest) == SelectionDocument(r.manifest)
            && Field(f, ApplyStatus) == (if r.status.Some? then JString(StatusText(r.status.value)) else JNull)
            && Field(f, CompletedCommit)
                 == (if r.completedCommit.Some? then JString(r.completedCommit.value.hex) else JNull)
            && Field(f, AttemptRunId) == TextOrNull(r.runId) && Field(f, ResultDigest) == TextOrNull(r.resultSha)
  {
  }

  lemma KindAndStatusRoundTrip(k: Kind, s: Status)
    ensures KindOf(KindText(k)) == Ok(k) && ParseStatus(JString(StatusText(s))) == Ok(Some(s))
  {
  }

  lemma RecordRoundTrip(paths: Paths, r: Record)
    requires Stored(paths, r)
    ensures ParseRecord(paths, EncodeRecord(r), 4) == Ok(r)
  {
    EncodedFields(r);
    KindAndStatusRoundTrip(r.kind, r.status.GetOr(Attempted));
    SelectionRoundTrip(r.manifest);
    if r.completedCommit.Some? { CommitRoundTrip(r.completedCommit.value); }
    assert Checked(paths, r) == Ok(r);
    hide Checked, Stored, RecordValid, Field, EntryFields, SelectionDocument, ParseSelection, ParseCommit, KindOf;
    hide KindText, StatusText;
  }

  predicate RoundTrips(paths: Paths, r: Record) { ParseRecord(paths, EncodeRecord(r), 4) == Ok(r) }

  lemma RecordsRoundTrip(paths: Paths, rs: seq<Record>)
    requires AllStored(paths, rs)
    ensures ParseRecords(paths, EncodeRecords(rs), 4) == Ok(rs)
  {
    forall i | 0 <= i < |rs| ensures RoundTrips(paths, rs[i]) { RecordRoundTrip(paths, rs[i]); }
    ListRoundTrips(paths, rs);
  }

  lemma {:induction false} ListRoundTrips(paths: Paths, rs: seq<Record>)
    requires forall i | 0 <= i < |rs| :: RoundTrips(paths, rs[i])
    ensures ParseRecords(paths, EncodeRecords(rs), 4) == Ok(rs)
  {
    hide ParseRecord, EncodeRecord;
    if rs != [] {
      assert RoundTrips(paths, rs[0]);
      ListRoundTrips(paths, rs[1..]);
      ParsedInTurn(paths, EncodeRecords(rs), 4, rs[0], rs[1..]);
      assert [rs[0]] + rs[1..] == rs;
    }
  }

  lemma ParsedInTurn(paths: Paths, items: seq<Json>, version: int, r: Record, rest: seq<Record>)
    requires items == [EncodeRecord(r)] + EncodeRecords(rest) && ParseRecord(paths, EncodeRecord(r), version) == Ok(r)
    requires ParseRecords(paths, EncodeRecords(rest), version) == Ok(rest)
    ensures ParseRecords(paths, items, version) == Ok([r] + rest)
  {
    assert items[1..] == EncodeRecords(rest);
  }

  lemma AcceptedRecordIsStored(paths: Paths, v: Json, version: int)
    requires PathsLawful(paths) && ParseRecord(paths, v, version).Ok?
    ensures Stored(paths, ParseRecord(paths, v, version).value)
    ensures v.JObject? && v.fields.Keys == EntryFields(version)
  {
  }

  lemma {:induction false} AcceptedRecordsAreStored(paths: Paths, items: seq<Json>, version: int)
    requires PathsLawful(paths) && ParseRecords(paths, items, version).Ok?
    ensures AllStored(paths, ParseRecords(paths, items, version).value)
  {
    if items != [] {
      AcceptedRecordIsStored(paths, items[0], version);
      AcceptedRecordsAreStored(paths, items[1..], version);
    }
  }

  // ---------------------------------------------------------------- sorting

  predicate InOrder(paths: Paths, rs: seq<Record>) {
    forall i, j | 0 <= i < j < |rs| :: ComesBefore(paths, rs[i], rs[j])
  }

  lemma OrderIsStrict(paths: Paths, a: Record, b: Record, c: Record)
    ensures !ComesBefore(paths, a, a)
    ensures ComesBefore(paths, a, b) && ComesBefore(paths, b, c) ==> ComesBefore(paths, a, c)
  {
    var p, q, r := paths.encoded(a.identity.path), paths.encoded(b.identity.path), paths.encoded(c.identity.path);
    var x, y, z := Codes(a.identity.sha256), Codes(b.identity.sha256), Codes(c.identity.sha256);
    LessIsIrreflexive(p);
    LessIsIrreflexive(x);
    if Less(p, q) && Less(q, r) { LessIsTransitive(p, q, r); }
    if Less(x, y) && Less(y, z) { LessIsTransitive(x, y, z); }
  }

  /** Different identities are always ordered one way. */
  lemma OrderIsTotal(paths: Paths, a: Record, b: Record)
    requires PathsLawful(paths) && Stored(paths, a) && Stored(paths, b) && a.identity != b.identity
    ensures ComesBefore(paths, a, b) || ComesBefore(paths, b, a)
  {
    LessIsTotal(paths.encoded(a.identity.path), paths.encoded(b.identity.path));
    LessIsTotal(Codes(a.identity.sha256), Codes(b.identity.sha256));
    if Codes(a.identity.sha256) == Codes(b.identity.sha256) {
      forall i | 0 <= i < 64 ensures a.identity.sha256[i] == b.identity.sha256[i] {
        assert Codes(a.identity.sha256)[i] == Codes(b.identity.sha256)[i];
        assert IsLowerHexDigit(a.identity.sha256[i]) && IsLowerHexDigit(b.identity.sha256[i]);
      }
      assert a.identity.sha256 == b.identity.sha256;
    }
  }

  lemma WithoutSecond(paths: Paths, r: Record, rs: seq<Record>)
    requires rs != [] && AllStored(paths, [r] + rs) && UniqueIdentities([r] + rs) && InOrder(paths, rs)
    ensures AllStored(paths, [r] + rs[1..]) && UniqueIdentities([r] + rs[1..]) && InOrder(paths, rs[1..])
  {
    var all := [r] + rs;
    forall i | 0 <= i < |rs| ensures ([r] + rs[1..])[i] == if i == 0 then all[0] else all[i + 1] {}
  }

  lemma FirstStaysFirst(paths: Paths, first: Record, rest: seq<Record>, tail: seq<Record>)
    requires multiset(tail) == multiset(rest) && InOrder(paths, tail)
    requires forall i | 0 <= i < |rest| :: ComesBefore(paths, first, rest[i])
    ensures InOrder(paths, [first] + tail)
  {
    forall x | x in tail ensures ComesBefore(paths, first, x) {
      assert x in multiset(tail);
      assert x in multiset(rest);
      assert x in rest;
    }
  }

  lemma SwapFronts(r: Record, rs: seq<Record>, tail: seq<Record>)
    requires rs != [] && multiset(tail) == multiset([r] + rs[1..])
    ensures multiset([rs[0]] + tail) == multiset([r] + rs)
  {
    assert rs == [rs[0]] + rs[1..];
  }

  lemma {:induction false} InsertKeeps(paths: Paths, r: Record, rs: seq<Record>)
    requires PathsLawful(paths) && AllStored(paths, [r] + rs) && UniqueIdentities([r] + rs) && InOrder(paths, rs)
    ensures InOrder(paths, Insert(paths, r, rs)) && multiset(Insert(paths, r, rs)) == multiset([r] + rs)
  {
    if rs == [] || ComesBefore(paths, r, rs[0]) {
      forall i | 0 < i < |rs|
        ensures rs != [] ==> ComesBefore(paths, r, rs[i])
      {
        OrderIsStrict(paths, r, rs[0], rs[i]);
      }
    } else {
      var all := [r] + rs;
      assert all[0] == r && all[1] == rs[0];
      OrderIsTotal(paths, r, rs[0]);
      WithoutSecond(paths, r, rs);
      InsertKeeps(paths, r, rs[1..]);
      FirstStaysFirst(paths, rs[0], [r] + rs[1..], Insert(paths, r, rs[1..]));
      SwapFronts(r, rs, Insert(paths, r, rs[1..]));
    }
  }

  lemma {:induction false} SortedIsInOrder(paths: Paths, rs: seq<Record>)
    requires PathsLawful(paths) && AllStored(paths, rs) && UniqueIdentities(rs)
    ensures InOrder(paths, Sorted(paths, rs)) && multiset(Sorted(paths, rs)) == multiset(rs)
  {
    if rs != [] {
      var rest := Sorted(paths, rs[1..]);
      assert rs == [rs[0]] + rs[1..];
      SortedIsInOrder(paths, rs[1..]);
      SameBagSameProperties(paths, [rs[0]] + rest, rs);
      InsertKeeps(paths, rs[0], rest);
    }
  }

  /** Validity and uniqueness read a record list as a bag. */
  lemma SameBagSameProperties(paths: Paths, one: seq<Record>, two: seq<Record>)
    requires multiset(one) == multiset(two) && AllStored(paths, two) && UniqueIdentities(two)
    ensures AllStored(paths, one) && UniqueIdentities(one)
  {
    forall x | x in one ensures x in two { assert x in multiset(one); assert x in multiset(two); }
    forall i | 0 <= i < |one| ensures Stored(paths, one[i]) { assert one[i] in two; }
    forall i, j | 0 <= i < j < |one| ensures one[i].identity != one[j].identity {
      assert one[i] in two && one[j] in two;
      if one[i] == one[j] {
        RepeatsAreCounted(one, i, j);
        OneOfEach(two, one[i]);
      }
    }
  }

  lemma RepeatsAreCounted(s: seq<Record>, i: nat, j: nat)
    requires i < j < |s| && s[i] == s[j]
    ensures multiset(s)[s[i]] >= 2
  {
    assert s == s[..j] + [s[j]] + s[j + 1..];
    assert s[..j][i] == s[j] && s[j] in multiset(s[..j]);
  }

  lemma OneOfEach(s: seq<Record>, x: Record)
    requires UniqueIdentities(s) && x in s
    ensures multiset(s)[x] == 1
  {
    var k :| 0 <= k < |s| && s[k] == x;
    assert s == s[..k] + [s[k]] + s[k + 1..];
    assert x !in s[..k] && x !in s[k + 1..];
  }

  /** A list in the canonical order is determined by its records. */
  lemma {:induction false} OrderDeterminesTheList(paths: Paths, one: seq<Record>, two: seq<Record>)
    requires InOrder(paths, one) && InOrder(paths, two) && multiset(one) == multiset(two)
    ensures one == two
  {
    if one == [] {
      assert multiset(two) == multiset{};
      assert |multiset(two)| == |two|;
    } else {
      FirstIsLeast(paths, one, two);
      assert one == [one[0]] + one[1..] && two == [two[0]] + two[1..];
      assert multiset(one[1..]) == multiset(one) - multiset{one[0]};
      assert multiset(two[1..]) == multiset(two) - multiset{two[0]};
      OrderDeterminesTheList(paths, one[1..], two[1..]);
    }
  }

  lemma FirstIsLeast(paths: Paths, one: seq<Record>, two: seq<Record>)
    requires InOrder(paths, one) && InOrder(paths, two) && multiset(one) == multiset(two) && one != []
    ensures two != [] && one[0] == two[0]
  {
    assert one[0] in multiset(one) && one[0] in multiset(two) && one[0] in two;
    assert two[0] in multiset(two) && two[0] in multiset(one) && two[0] in one;
    if one[0] != two[0] {
      var i :| 0 <= i < |one| && one[i] == two[0];
      var j :| 0 <= j < |two| && two[j] == one[0];
      OrderIsStrict(paths, one[0], two[0], one[0]);
      assert false;
    }
  }

  // ---------------------------------------------------------------- the codec's promises

  /** Reading back what was written gives the same records, in the canonical order. */
  lemma EncodingRoundTrips(paths: Paths, rs: seq<Record>)
    requires PathsLawful(paths) && AllStored(paths, rs) && UniqueIdentities(rs)
    ensures ParseState(paths, EncodeState(paths, rs)) == Ok(Sorted(paths, rs))
    ensures multiset(Sorted(paths, rs)) == multiset(rs)
    ensures var out := Sorted(paths, rs);
            forall i, j | 0 <= i < j < |out| ::
              var p, q := paths.encoded(out[i].identity.path), paths.encoded(out[j].identity.path);
              Less(p, q) || (p == q && Less(Codes(out[i].identity.sha256), Codes(out[j].identity.sha256)))
  {
    SortedIsInOrder(paths, rs);
    SameBagSameProperties(paths, Sorted(paths, rs), rs);
    RecordsRoundTrip(paths, Sorted(paths, rs));
  }

  /** The written document depends on the records only, not on their order; and equal documents mean equal records. */
  lemma EncodingIsCanonical(paths: Paths, one: seq<Record>, two: seq<Record>)
    requires PathsLawful(paths) && AllStored(paths, one) && UniqueIdentities(one) && AllStored(paths, two)
             && UniqueIdentities(two)
    ensures EncodeState(paths, one) == EncodeState(paths, two) <==> multiset(one) == multiset(two)
  {
    EncodingRoundTrips(paths, one);
    EncodingRoundTrips(paths, two);
    if multiset(one) == multiset(two) { OrderDeterminesTheList(paths, Sorted(paths, one), Sorted(paths, two)); }
  }

  /** Every accepted document, whatever its version, is rewritten in version 4 and read back to the same records. */
  lemma AcceptedDocumentsMigrate(paths: Paths, document: Json)
    requires PathsLawful(paths) && ParseState(paths, document).Ok?
    ensures var records := ParseState(paths, document).value;
            && AllStored(paths, records) && LedgerValid(records)
            && ParseState(paths, EncodeState(paths, records)) == Ok(Sorted(paths, records))
            && multiset(Sorted(paths, records)) == multiset(records)
            && EncodeState(paths, records).fields[FormatVersion] == JInt(4)
  {
    var records := ParseState(paths, document).value;
    AcceptedRecordsAreStored(paths, document.fields[Entries].items, document.fields[FormatVersion].number);
    EncodingRoundTrips(paths, records);
  }

  // ---------------------------------------------------------------- what an entry says, text by text

  predicate StatesKind(v: Json, k: Kind) {
    match k
    case Other => v == JString("other")
    case PatchPackage => v == JString("patch_package")
    case ResultBundle => v == JString("result_bundle")
  }

  predicate StatesStatus(v: Json, s: Option<Status>) {
    match s
    case None => v == JNull
    case Some(Attempted) => v == JString("attempted")
    case Some(Failed) => v == JString("failed")
    case Some(Succeeded) => v == JString("succeeded")
  }

  predicate StatesText(v: Json, t: Option<string>) { if t.Some? then v == JString(t.value) else v == JNull }

  /** Forty lower-case hexadecimal digits are SHA-1 names, sixty-four SHA-256 names. */
  predicate StatesCommit(v: Json, c: Option<CommitId>) {
    if c.None? then v == JNull
    else v == JString(c.value.hex) && IsLowerHex(c.value.hex, if c.value.format == Sha1 then 40 else 64)
  }

  predicate StatesManifest(v: Json, m: Option<Selection>) {
    if m.None? then v == JNull
    else
      && v.JObject? && v.fields.Keys == {BaseCommit, FingerprintAlgorithm, RepoId, StateFingerprint}
      && StatesCommit(v.fields[BaseCommit], Some(m.value.baseCommit))
      && v.fields[FingerprintAlgorithm] == JString(m.value.algorithm) && v.fields[RepoId] == JString(m.value.repoId)
      && v.fields[StateFingerprint] == JString(m.value.fingerprint)
      && m.value.algorithm == "patchharbor-state-v1" && IsCanonicalUuid4(m.value.repoId)
      && IsLowerHex(m.value.fingerprint, 16)
  }

  /** The entry has exactly the fields of its version, and each field a record has states that field. */
  predicate EntryStates(paths: Paths, v: Json, version: int, r: Record) {
    && v.JObject?
    && v.fields.Keys == {KindName, Manifest, PathText, Digest}
                        + (if version == 1 then {AttemptedFlag} else {ApplyStatus})
                        + (if version in {1, 2} then {} else {CompletedCommit})
                        + (if version in {1, 2, 3} then {} else {AttemptRunId, ResultDigest})
    && v.fields[PathText].JString? && r.identity.path == paths.normal(v.fields[PathText].text)
    && v.fields[Digest] == JString(r.identity.sha256)
    && StatesKind(v.fields[KindName], r.kind) && StatesManifest(v.fields[Manifest], r.manifest)
    && (if version == 1 then v.fields[AttemptedFlag] == JBool(r.status.Some?) && r.status in {None, Some(Attempted)}
        else StatesStatus(v.fields[ApplyStatus], r.status))
    && StatesCommit(if version in {1, 2} then JNull else v.fields[CompletedCommit], r.completedCommit)
    && StatesText(if version in {1, 2, 3} then JNull else v.fields[AttemptRunId], r.runId)
    && StatesText(if version in {1, 2, 3} then JNull else v.fields[ResultDigest], r.resultSha)
  }

  /** What makes an entry that states a record acceptable. */
  predicate Reads(paths: Paths, v: Json, version: int, r: Record) {
    && EntryStates(paths, v, version, r) && paths.absolute(r.identity.path)
    && IsSha256(r.identity.sha256) && RecordValid(r)
  }

  lemma SelectionIsStated(v: Json, m: Option<Selection>)
    ensures ParseSelection(v) == Ok(m) <==> StatesManifest(v, m)
  {
    if v.JObject? && v.fields.Keys == MANIFEST_FIELDS && m.Some? {
      var f := v.fields;
      assert BaseCommit in f && FingerprintAlgorithm in f && RepoId in f && StateFingerprint in f;
    }
  }

  lemma FieldsAreStated(v: Json, k: Kind, s: Option<Status>, c: Option<CommitId>, t: Option<string>)
    ensures v.JString? ==> (KindOf(v.text) == Ok(k) <==> StatesKind(v, k))
    ensures ParseStatus(v) == Ok(s) <==> StatesStatus(v, s)
    ensures OptionalCommit(v) == Ok(c) <==> StatesCommit(v, c)
    ensures OptionalText(v) == Ok(t) <==> StatesText(v, t)
  {
  }

  lemma FieldNames(f: map<Name, Json>, version: int)
    ensures f.Keys == EntryFields(version) <==>
              f.Keys == {KindName, Manifest, PathText, Digest}
                        + (if version == 1 then {AttemptedFlag} else {ApplyStatus})
                        + (if version in {1, 2} then {} else {CompletedCommit})
                        + (if version in {1, 2, 3} then {} else {AttemptRunId, ResultDigest})
    ensures f.Keys == EntryFields(version) ==>
              && Field(f, KindName) == f[KindName] && Field(f, Manifest) == f[Manifest]
              && Field(f, PathText) == f[PathText] && Field(f, Digest) == f[Digest]
              && (version == 1 ==> Field(f, AttemptedFlag) == f[AttemptedFlag])
              && (version != 1 ==> Field(f, ApplyStatus) == f[ApplyStatus])
              && Field(f, CompletedCommit) == (if version in {1, 2} then JNull else f[CompletedCommit])
              && Field(f, AttemptRunId) == (if version in {1, 2, 3} then JNull else f[AttemptRunId])
              && Field(f, ResultDigest) == (if version in {1, 2, 3} then JNull else f[ResultDigest])
  {
    var names := {KindName, Manifest, PathText, Digest} + (if version == 1 then {AttemptedFlag} else {ApplyStatus})
      + (if version in {1, 2} then {} else {CompletedCommit})
      + (if version in {1, 2, 3} then {} else {AttemptRunId, ResultDigest});
    assert names == EntryFields(version);
    if f.Keys == names {
      assert forall n :: n in f <==> n in names;
    }
  }

  /** The parser takes an entry as a record exactly if each of its fields is read as that of the record. */
  lemma EachFieldIsRead(paths: Paths, v: Json, version: int, r: Record)
    requires v.JObject? && v.fields.Keys == EntryFields(version)
    ensures var f := v.fields;
            ParseRecord(paths, v, version) == Ok(r) <==>
              && Field(f, PathText).JString? && r.identity.path == paths.normal(Field(f, PathText).text)
              && Field(f, Digest).JString? && Field(f, Digest).text == r.identity.sha256
              && Field(f, KindName).JString? && KindOf(Field(f, KindName).text) == Ok(r.kind)
              && ParseSelection(Field(f, Manifest)) == Ok(r.manifest) && EntryStatus(f, version) == Ok(r.status)
              && OptionalCommit(Field(f, CompletedCommit)) == Ok(r.completedCommit)
              && OptionalText(Field(f, AttemptRunId)) == Ok(r.runId)
              && OptionalText(Field(f, ResultDigest)) == Ok(r.resultSha)
              && paths.absolute(r.identity.path) && IsSha256(r.identity.sha256) && RecordValid(r)
  {
    hide Field, EntryFields, ParseSelection, KindOf, EntryStatus, OptionalCommit, OptionalText, RecordValid, IsSha256;
  }

  /**
   An entry is read as a record exactly if it states that record, field by field, in an absolute path, a SHA-256
   digest and the record's own invariants.
   */
  lemma EntryIsReadExactlyAsStated(paths: Paths, v: Json, version: int, r: Record)
    ensures ParseRecord(paths, v, version) == Ok(r) <==> Reads(paths, v, version, r)
  {
    hide ParseSelection, KindOf, ParseStatus, OptionalCommit, OptionalText, StatesKind, StatesStatus, StatesCommit;
    hide StatesText, StatesManifest, RecordValid, IsSha256, EntryFields, Field;
    if v.JObject? {
      var f := v.fields;
      FieldNames(f, version);
      if f.Keys == EntryFields(version) {
        EachFieldIsRead(paths, v, version, r);
        SelectionIsStated(Field(f, Manifest), r.manifest);
        FieldsAreStated(Field(f, KindName), r.kind, None, None, None);
        FieldsAreStated(Field(f, ApplyStatus), Other, r.status, None, None);
        FieldsAreStated(Field(f, CompletedCommit), Other, None, r.completedCommit, None);
        FieldsAreStated(Field(f, AttemptRunId), Other, None, None, r.runId);
        FieldsAreStated(Field(f, ResultDigest), Other, None, None, r.resultSha);
        KindIsText(Field(f, KindName), r.kind);
      }
    }
  }

  lemma {:induction false} ListIsReadInOrder(paths: Paths, items: seq<Json>, version: int, rs: seq<Record>)
    ensures ParseRecords(paths, items, version) == Ok(rs) <==>
              |items| == |rs| && forall i | 0 <= i < |items| :: Reads(paths, items[i], version, rs[i])
  {
    hide ParseRecord, Reads;
    if items != [] && rs != [] {
      EntryIsReadExactlyAsStated(paths, items[0], version, rs[0]);
      ListIsReadInOrder(paths, items[1..], version, rs[1..]);
      assert rs == [rs[0]] + rs[1..];
      if |items| == |rs| && forall i | 0 <= i < |items| :: Reads(paths, items[i], version, rs[i]) {
        forall i | 0 <= i < |items| - 1 ensures Reads(paths, items[1..][i], version, rs[1..][i]) {
          assert items[i + 1] == items[1..][i] && rs[i + 1] == rs[1..][i];
        }
      }
    }
  }

  /**
   A document is read as a list of records exactly if it names a version from 1 to 4 and its entries, in this order,
   state those records, no two of one identity.
   */
  lemma DocumentIsReadExactlyAsStated(paths: Paths, document: Json, rs: seq<Record>)
    ensures ParseState(paths, document) == Ok(rs) <==>
              && document.JObject? && document.fields.Keys == {Entries, FormatVersion}
              && document.fields[Entries].JList? && document.fields[FormatVersion].JInt?
              && var items, version := document.fields[Entries].items, document.fields[FormatVersion].number;
                1 <= version <= 4 && |items| == |rs| && UniqueIdentities(rs)
                && forall i | 0 <= i < |items| :: Reads(paths, items[i], version, rs[i])
  {
    hide Reads, ParseRecords, UniqueIdentities;
    if document.JObject? && document.fields.Keys == {Entries, FormatVersion} {
      var version, entries := document.fields[FormatVersion], document.fields[Entries];
      if version.JInt? && entries.JList? { ListIsReadInOrder(paths, entries.items, version.number, rs); }
    }
  }

  lemma KindIsText(v: Json, k: Kind)
    ensures StatesKind(v, k) ==> v.JString?
  {
  }

  /** What an older entry says: `attempted` means an attempt without outcome; missing fields are empty. */
  lemma OlderEntriesMean(paths: Paths, v: Json, version: int)
    requires ParseRecord(paths, v, version).Ok? && version in {1, 2, 3}
    ensures var r := ParseRecord(paths, v, version).value;
            && r.runId.None? && r.resultSha.None? && (version < 3 ==> r.completedCommit.None?)
            && (version == 1 ==> v.JObject? && AttemptedFlag in v.fields && v.fields[AttemptedFlag].JBool?
                                 && r.status == if v.fields[AttemptedFlag].flag then Some(Attempted) else None)
  {
    var f := v.fields;
    assert AttemptRunId !in f && ResultDigest !in f;
    assert version < 3 ==> CompletedCommit !in f;
    assert version == 1 ==> AttemptedFlag in f;
  }

  lemma SelectionHasOneDocument(v: Json, s: Option<Selection>)
    requires ParseSelection(v) == Ok(s)
    ensures v == SelectionDocument(s)
  {
    if v.JObject? {
      assert v.fields == SelectionDocument(s).fields;
    }
  }

  lemma OptionalFieldsHaveOneForm(v: Json, t: Option<string>, c: Option<CommitId>, s: Option<Status>)
    ensures OptionalText(v) == Ok(t) ==> v == TextOrNull(t)
    ensures OptionalCommit(v) == Ok(c) ==> v == if c.Some? then JString(c.value.hex) else JNull
    ensures ParseStatus(v) == Ok(s) ==> v == if s.Some? then JString(StatusText(s.value)) else JNull
  {
  }

  lemma KindHasOneText(t: string, k: Kind)
    ensures KindOf(t) == Ok(k) ==> t == KindText(k)
  {
  }

  /** An accepted version-4 entry with a normal path is the very document the encoder writes for its record. */
  lemma CurrentEntriesHaveOneForm(paths: Paths, v: Json, r: Record)
    requires ParseRecord(paths, v, 4) == Ok(r) && v.JObject? && PathText in v.fields
             && v.fields[PathText] == JString(r.identity.path)
    ensures v == EncodeRecord(r)
  {
    var f := v.fields;
    EncodedFields(r);
    SelectionHasOneDocument(Field(f, Manifest), r.manifest);
    KindHasOneText(Field(f, KindName).text, r.kind);
    OptionalFieldsHaveOneForm(Field(f, AttemptRunId), r.runId, None, None);
    OptionalFieldsHaveOneForm(Field(f, ResultDigest), r.resultSha, None, None);
    OptionalFieldsHaveOneForm(Field(f, CompletedCommit), None, r.completedCommit, None);
    OptionalFieldsHaveOneForm(Field(f, ApplyStatus), None, None, r.status);
    hide EncodeRecord, SelectionDocument, KindText, StatusText, TextOrNull, Field;
    SameFieldsSameMap(f, EncodeRecord(r).fields);
  }

  lemma SameFieldsSameMap(f: map<Name, Json>, g: map<Name, Json>)
    requires f.Keys == g.Keys == EntryFields(4)
    requires forall n | n in EntryFields(4) :: Field(f, n) == Field(g, n)
    ensures f == g
  {
    forall n | n in f ensures f[n] == g[n] { assert Field(f, n) == Field(g, n); }
  }
}
