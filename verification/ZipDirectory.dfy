/**
 The bounded walks over a ZIP central directory made before any archive library allocates for it
 (sections 4.3.12 and 4.3.14 to 4.3.16 of the PKWARE APPNOTE): the strict one for runtime archives,
 and the wider one of the start file, which also reads ZIP64 records.
 */
module ZipDirectory {
  import opened Prelude
  import opened ByteOrder

  const ENTRY_SIGNATURE: Bytes := [0x50, 0x4B, 0x01, 0x02]
  const END_SIGNATURE: Bytes := [0x50, 0x4B, 0x05, 0x06]
  const ZIP64_END_SIGNATURE: Bytes := [0x50, 0x4B, 0x06, 0x06]
  const ZIP64_LOCATOR_SIGNATURE: Bytes := [0x50, 0x4B, 0x06, 0x07]

  predicate SignatureAt(raw: Bytes, at: nat, signature: Bytes)
    requires |signature| == 4
  {
    at + 4 <= |raw| && raw[at] == signature[0] && raw[at + 1] == signature[1] && raw[at + 2] == signature[2]
      && raw[at + 3] == signature[3]
  }

  function U16(raw: Bytes, at: nat): nat
    requires at + 2 <= |raw|
  {
    (raw[at] as int) + 0x100 * (raw[at + 1] as int)
  }

  function U32(raw: Bytes, at: nat): nat
    requires at + 4 <= |raw|
  {
    U16(raw, at) + 0x1_0000 * U16(raw, at + 2)
  }

  function U64(raw: Bytes, at: nat): nat
    requires at + 8 <= |raw|
  {
    U32(raw, at) + 0x1_0000_0000 * U32(raw, at + 4)
  }

  // ---------------------------------------------------------------- tiling

  /** The strict walk allows short names and nothing else in a header; the wide one bounds names only. */
  datatype Profile = Strict | Wide

  /** The length of the directory header at `cursor`, if there is one that ends its fixed part before `end`. */
  function HeaderLength(profile: Profile, raw: Bytes, cursor: nat, end: nat): (r: Option<nat>)
    requires end <= |raw|
    ensures r.Some? ==> r.value >= 47
  {
    if cursor + 46 > end || !SignatureAt(raw, cursor, ENTRY_SIGNATURE) then None
    else
      var name, extra, comment := U16(raw, cursor + 28), U16(raw, cursor + 30), U16(raw, cursor + 32);
      match profile
      case Strict => if 0 < name <= 512 && extra == comment == 0 then Some(46 + name) else None
      case Wide => if 0 < name <= 4096 then Some(46 + name + extra + comment) else None
  }

  /** The bytes from `from` to `end` are exactly `count` headers, one after the other. */
  predicate Tiles(profile: Profile, raw: Bytes, from: nat, end: nat, count: nat)
    requires end <= |raw|
    decreases count
  {
    if count == 0 then from == end
    else
      HeaderLength(profile, raw, from, end).Some?
        && Tiles(profile, raw, from + HeaderLength(profile, raw, from, end).value, end, count - 1)
  }

  lemma {:induction false} TilesEndBefore(profile: Profile, raw: Bytes, from: nat, end: nat, count: nat)
    requires end <= |raw| && Tiles(profile, raw, from, end, count)
    ensures from <= end && 47 * count <= end - from
    decreases count
  {
    if count > 0 { TilesEndBefore(profile, raw, from + HeaderLength(profile, raw, from, end).value, end, count - 1); }
  }

  /** The same bounds cannot be tiled by two different counts: a small forged count hides nothing. */
  lemma {:induction false} TilingCountIsUnique(profile: Profile, raw: Bytes, from: nat, end: nat, one: nat, two: nat)
    requires end <= |raw| && Tiles(profile, raw, from, end, one) && Tiles(profile, raw, from, end, two)
    ensures one == two
    decreases one
  {
    TilesEndBefore(profile, raw, from, end, one);
    TilesEndBefore(profile, raw, from, end, two);
    if one > 0 && two > 0 {
      TilingCountIsUnique(profile, raw, from + HeaderLength(profile, raw, from, end).value, end, one - 1, two - 1);
    }
  }

  /** Strict headers are wide headers of the same length. */
  lemma {:induction false} StrictTilesAreWide(raw: Bytes, from: nat, end: nat, count: nat)
    requires end <= |raw| && Tiles(Strict, raw, from, end, count)
    ensures Tiles(Wide, raw, from, end, count)
    decreases count
  {
    if count > 0 { StrictTilesAreWide(raw, from + HeaderLength(Strict, raw, from, end).value, end, count - 1); }
  }

  // ---------------------------------------------------------------- the strict walk

  datatype Boundary = Boundary(
    disk: nat, directoryDisk: nat, diskCount: nat, count: nat, size: nat, offset: nat, comment: nat)

  function BoundaryAt(raw: Bytes, at: nat): Boundary
    requires at + 22 <= |raw|
  {
    Boundary(U16(raw, at + 4), U16(raw, at + 6), U16(raw, at + 8), U16(raw, at + 10), U32(raw, at + 12),
        U32(raw, at + 16), U16(raw, at + 20))
  }

  predicate StrictBoundary(raw: Bytes, limit: nat) {
    |raw| >= 22 &&
    var end := |raw| - 22;
    var b := BoundaryAt(raw, end);
    && SignatureAt(raw, end, END_SIGNATURE)
    && b.disk == b.directoryDisk == b.comment == 0 && b.diskCount == b.count && 0 < b.count <= limit
    && b.offset + b.size == end && b.count * 47 <= b.size <= b.count * (46 + 512)
  }

  predicate StrictAccepts(raw: Bytes, limit: nat) {
    StrictBoundary(raw, limit) &&
    var b := BoundaryAt(raw, |raw| - 22);
    Tiles(Strict, raw, b.offset, |raw| - 22, b.count)
  }

  /** `limit` is the smaller of the caller's and the policy's entry limit. */
  method BoundedDirectory(raw: Bytes, limit: nat) returns (r: Option<nat>)
    ensures r.Some? <==> StrictAccepts(raw, limit)
    ensures r.Some? ==> r.value == BoundaryAt(raw, |raw| - 22).count
  {
    if !StrictBoundary(raw, limit) { return None; }
    var end := |raw| - 22;
    var b := BoundaryAt(raw, end);
    var walked := WalkHeaders(Strict, raw, b.offset, end, b.count);
    return if walked then Some(b.count) else None;
  }

  /** The cursor loop both walks share. */
  method WalkHeaders(profile: Profile, raw: Bytes, offset: nat, end: nat, count: nat) returns (tiled: bool)
    requires end <= |raw|
    ensures tiled <==> Tiles(profile, raw, offset, end, count)
  {
    var cursor: nat := offset;
    for k := 0 to count
      invariant Tiles(profile, raw, offset, end, count) <==> Tiles(profile, raw, cursor, end, count - k)
    {
      var length := HeaderLength(profile, raw, cursor, end);
      if length.None? { return false; }
      cursor := cursor + length.value;
    }
    return cursor == end;
  }

  // ---------------------------------------------------------------- the wide walk

  datatype Directory = Directory(count: nat, offset: nat, end: nat)

  /** The last end signature at or after `start`. */
  function LastBoundary(raw: Bytes, start: nat, below: nat): (r: Option<nat>)
    ensures r.Some? ==> start <= r.value < below && SignatureAt(raw, r.value, END_SIGNATURE)
    ensures forall i | start <= i < below && SignatureAt(raw, i, END_SIGNATURE) :: r.Some? && i <= r.value
    decreases below
  {
    if below <= start then None
    else if SignatureAt(raw, below - 1, END_SIGNATURE) then Some(below - 1)
    else LastBoundary(raw, start, below - 1)
  }

  function Zip64Directory(raw: Bytes, position: nat, b: Boundary): Option<Directory>
    requires 20 <= position <= |raw|
  {
    var disk, record, disks := U32(raw, position - 16), U64(raw, position - 12), U32(raw, position - 4);
    if disk != 0 || disks != 1 || record + 76 > position then None
    else if !SignatureAt(raw, record, ZIP64_END_SIGNATURE) || U64(raw, record + 4) != 44
      || record + 12 + 44 != position - 20 then None
    else
      var diskCount, count, size, offset :=
        U64(raw, record + 24), U64(raw, record + 32), U64(raw, record + 40), U64(raw, record + 48);
      if U32(raw, record + 16) != 0 || U32(raw, record + 20) != 0 || diskCount != count then None
      else if b.diskCount !in {0xFFFF, diskCount} || b.count !in {0xFFFF, count}
              || b.size !in {0xFFFF_FFFF, size} || b.offset !in {0xFFFF_FFFF, offset} then None
      else if offset + size != record then None
      else Some(Directory(count, offset, record))
  }

  function WideDirectory(raw: Bytes): (r: Option<Directory>)
    ensures r.Some? ==> r.value.offset <= r.value.end <= |raw|
  {
    var start := if |raw| > 65557 then |raw| - 65557 else 0;
    var found := LastBoundary(raw, start, |raw|);
    if found.None? || found.value + 22 > |raw| then None
    else
      var position := found.value;
      var b := BoundaryAt(raw, position);
      if b.disk != 0 || b.directoryDisk != 0 || position + 22 + b.comment != |raw| then None
      else if position >= 20 && SignatureAt(raw, position - 20, ZIP64_LOCATOR_SIGNATURE)
        then Zip64Directory(raw, position, b)
      else if b.diskCount != b.count || b.offset + b.size != position then None
      else Some(Directory(b.count, b.offset, position))
  }

  predicate WideAccepts(raw: Bytes, maximum: nat) {
    WideDirectory(raw).Some? &&
    var d := WideDirectory(raw).value;
    0 < d.count <= maximum && Tiles(Wide, raw, d.offset, d.end, d.count)
  }

  method DirectoryBudget(raw: Bytes, maximum: nat) returns (ok: bool)
    ensures ok <==> WideAccepts(raw, maximum)
  {
    var d := WideDirectory(raw);
    if d.None? || d.value.count == 0 || d.value.count > maximum { return false; }
    ok := WalkHeaders(Wide, raw, d.value.offset, d.value.end, d.value.count);
  }

  // ---------------------------------------------------------------- printing

  /** One directory entry: the fields the walk does not read, and the name. */
  datatype Entry = Entry(front: Bytes, back: Bytes, name: Bytes)

  predicate EntryFits(e: Entry) { |e.front| == 24 && |e.back| == 12 && 1 <= |e.name| <= 512 }

  predicate EntriesFit(entries: seq<Entry>) { forall i | 0 <= i < |entries| :: EntryFits(entries[i]) }

  function Le16(n: nat): Bytes
    requires n < 0x1_0000
  {
    [n % 0x100, n / 0x100]
  }

  function Le32(n: nat): Bytes
    requires n < 0x1_0000_0000
  {
    Le16(n % 0x1_0000) + Le16(n / 0x1_0000)
  }

  function PrintedHeader(e: Entry): (h: Bytes)
    requires EntryFits(e)
    ensures |h| == 46 + |e.name|
  {
    (ENTRY_SIGNATURE + e.front) + (Le16(|e.name|) + [0, 0, 0, 0]) + (e.back + e.name)
  }

  function Printed(entries: seq<Entry>): Bytes
    requires EntriesFit(entries)
  {
    if entries == [] then [] else PrintedHeader(entries[0]) + Printed(entries[1..])
  }

  function PrintedEnd(count: nat, size: nat, offset: nat): (e: Bytes)
    requires count < 0x1_0000 && size < 0x1_0000_0000 && offset < 0x1_0000_0000
    ensures |e| == 22
  {
    END_SIGNATURE + [0, 0, 0, 0] + (Le16(count) + Le16(count)) + (Le32(size) + Le32(offset)) + [0, 0]
  }

  lemma PrintedHeaderReads(raw: Bytes, from: nat, end: nat, e: Entry, rest: Bytes)
    requires EntryFits(e) && from <= end <= |raw| && raw[from..end] == PrintedHeader(e) + rest
    ensures HeaderLength(Strict, raw, from, end) == Some(46 + |e.name|)
  {
    var h, s := PrintedHeader(e), raw[from..end];
    assert forall i | 0 <= i < |h| :: raw[from + i] == s[i] == h[i];
    assert h[0] == 0x50 && h[1] == 0x4B && h[2] == 0x01 && h[3] == 0x02;
    assert h[28] == |e.name| % 0x100 && h[29] == |e.name| / 0x100;
    assert h[30] == h[31] == h[32] == h[33] == 0;
  }

  lemma {:induction false} PrintedIsTiled(raw: Bytes, from: nat, end: nat, entries: seq<Entry>)
    requires EntriesFit(entries) && from <= end <= |raw| && raw[from..end] == Printed(entries)
    ensures Tiles(Strict, raw, from, end, |entries|)
    ensures 47 * |entries| <= end - from <= 558 * |entries|
    decreases |entries|
  {
    hide PrintedHeader, HeaderLength;
    if entries == [] {
      assert |raw[from..end]| == end - from;
    } else {
      var h := PrintedHeader(entries[0]);
      assert EntryFits(entries[0]);
      PrintedHeaderReads(raw, from, end, entries[0], Printed(entries[1..]));
      assert raw[from..end][|h|..] == raw[from + |h|..end];
      PrintedIsTiled(raw, from + |h|, end, entries[1..]);
    }
  }

  function Archive(body: Bytes, entries: seq<Entry>): Bytes
    requires EntriesFit(entries) && |entries| < 0x1_0000 && |body| < 0x1_0000_0000 && |Printed(entries)| < 0x1_0000_0000
  {
    body + Printed(entries) + PrintedEnd(|entries|, |Printed(entries)|, |body|)
  }

  lemma {:induction false} PrintedSize(entries: seq<Entry>)
    requires EntriesFit(entries)
    ensures 47 * |entries| <= |Printed(entries)| <= 558 * |entries|
  {
    if entries != [] {
      assert EntryFits(entries[0]);
      PrintedSize(entries[1..]);
    }
  }

  lemma PrintedEndReads(raw: Bytes, at: nat, count: nat, size: nat, offset: nat)
    requires count < 0x1_0000 && size < 0x1_0000_0000 && offset < 0x1_0000_0000
    requires at + 22 == |raw| && raw[at..] == PrintedEnd(count, size, offset)
    ensures SignatureAt(raw, at, END_SIGNATURE) && BoundaryAt(raw, at) == Boundary(0, 0, count, count, size, offset, 0)
  {
    var e, s := PrintedEnd(count, size, offset), raw[at..];
    assert forall i | 0 <= i < 22 :: raw[at + i] == s[i] == e[i];
    assert e[0] == 0x50 && e[1] == 0x4B && e[2] == 0x05 && e[3] == 0x06;
    assert e[4] == e[5] == e[6] == e[7] == 0 && e[20] == e[21] == 0;
    assert e[8..10] == e[10..12] == Le16(count);
    assert e[8] == e[10] == count % 0x100 && e[9] == e[11] == count / 0x100;
    assert e[12] == (size % 0x1_0000) % 0x100 && e[13] == (size % 0x1_0000) / 0x100;
    assert e[14] == (size / 0x1_0000) % 0x100 && e[15] == (size / 0x1_0000) / 0x100;
    assert e[16] == (offset % 0x1_0000) % 0x100 && e[17] == (offset % 0x1_0000) / 0x100;
    assert e[18] == (offset / 0x1_0000) % 0x100 && e[19] == (offset / 0x1_0000) / 0x100;
  }

  lemma ArchiveParts(body: Bytes, entries: seq<Entry>)
    requires EntriesFit(entries) && |entries| < 0x1_0000 && |body| < 0x1_0000_0000 && |Printed(entries)| < 0x1_0000_0000
    ensures var raw, end := Archive(body, entries), |body| + |Printed(entries)|;
            |raw| == end + 22 && raw[end..] == PrintedEnd(|entries|, |Printed(entries)|, |body|)
              && raw[|body|..end] == Printed(entries)
  {
    hide Printed, PrintedEnd;
  }

  /** Every directory printed from 1 to `limit` names of 1 to 512 bytes is accepted, with its true count. */
  lemma PrintedArchivesAreAccepted(body: Bytes, entries: seq<Entry>, limit: nat)
    requires EntriesFit(entries) && 1 <= |entries| <= limit <= 1000 && |body| < 0x1_0000_0000
    ensures |Printed(entries)| < 0x1_0000_0000
    ensures StrictAccepts(Archive(body, entries), limit)
    ensures |Archive(body, entries)| >= 22
            && BoundaryAt(Archive(body, entries), |Archive(body, entries)| - 22).count == |entries|
  {
    hide Printed, PrintedEnd, Archive, Tiles, BoundaryAt, SignatureAt;
    PrintedSize(entries);
    var raw, end := Archive(body, entries), |body| + |Printed(entries)|;
    ArchiveParts(body, entries);
    PrintedEndReads(raw, end, |entries|, |Printed(entries)|, |body|);
    PrintedIsTiled(raw, |body|, end, entries);
  }

  lemma Le16Undoes(raw: Bytes, at: nat)
    requires at + 2 <= |raw|
    ensures U16(raw, at) < 0x1_0000 && Le16(U16(raw, at)) == raw[at..at + 2]
  {
  }

  lemma Le32Undoes(raw: Bytes, at: nat)
    requires at + 4 <= |raw|
    ensures U32(raw, at) < 0x1_0000_0000 && Le32(U32(raw, at)) == raw[at..at + 4]
  {
    Le16Undoes(raw, at);
    Le16Undoes(raw, at + 2);
    assert raw[at..at + 4] == raw[at..at + 2] + raw[at + 2..at + 4];
    assert U32(raw, at) % 0x1_0000 == U16(raw, at) && U32(raw, at) / 0x1_0000 == U16(raw, at + 2);
  }

  /** The entry a strict header carries. */
  lemma HeaderIsPrinted(raw: Bytes, from: nat, end: nat) returns (e: Entry)
    requires end <= |raw| && HeaderLength(Strict, raw, from, end).Some?
             && from + HeaderLength(Strict, raw, from, end).value <= end
    ensures EntryFits(e) && raw[from..from + HeaderLength(Strict, raw, from, end).value] == PrintedHeader(e)
  {
    var next := from + HeaderLength(Strict, raw, from, end).value;
    e := Entry(raw[from + 4..from + 28], raw[from + 34..from + 46], raw[from + 46..next]);
    Le16Undoes(raw, from + 28);
    assert raw[from + 28..from + 34] == Le16(|e.name|) + [0, 0, 0, 0];
    assert raw[from..from + 28] == ENTRY_SIGNATURE + e.front;
    assert raw[from + 34..next] == e.back + e.name;
    assert raw[from..next] == raw[from..from + 28] + raw[from + 28..from + 34] + (e.back + e.name);
  }

  lemma {:induction false} TiledIsPrinted(raw: Bytes, from: nat, end: nat, count: nat) returns (entries: seq<Entry>)
    requires end <= |raw| && Tiles(Strict, raw, from, end, count)
    ensures from <= end && |entries| == count && EntriesFit(entries) && raw[from..end] == Printed(entries)
    decreases count
  {
    TilesEndBefore(Strict, raw, from, end, count);
    if count == 0 {
      entries := [];
    } else {
      var next := from + HeaderLength(Strict, raw, from, end).value;
      TilesEndBefore(Strict, raw, next, end, count - 1);
      var first := HeaderIsPrinted(raw, from, end);
      var rest := TiledIsPrinted(raw, next, end, count - 1);
      entries := [first] + rest;
      assert entries[1..] == rest;
      assert raw[from..end] == raw[from..next] + raw[next..end];
    }
  }

  lemma SignatureIsPrinted(raw: Bytes, at: nat)
    requires at + 22 == |raw| && SignatureAt(raw, at, END_SIGNATURE)
    requires BoundaryAt(raw, at).disk == BoundaryAt(raw, at).directoryDisk == BoundaryAt(raw, at).comment == 0
    ensures raw[at..at + 8] == END_SIGNATURE + [0, 0, 0, 0] && raw[at + 20..] == [0, 0]
  {
  }

  lemma BoundaryIsPrinted(raw: Bytes, limit: nat)
    requires StrictBoundary(raw, limit)
    ensures var b := BoundaryAt(raw, |raw| - 22);
            && b.count < 0x1_0000 && b.size < 0x1_0000_0000 && b.offset < 0x1_0000_0000
            && raw[|raw| - 22..] == PrintedEnd(b.count, b.size, b.offset)
  {
    hide Le16, Le32, U16, U32, SignatureAt;
    var at := |raw| - 22;
    SignatureIsPrinted(raw, at);
    Le16Undoes(raw, at + 8);
    Le16Undoes(raw, at + 10);
    Le32Undoes(raw, at + 12);
    Le32Undoes(raw, at + 16);
    assert raw[at + 8..at + 12] == raw[at + 8..at + 10] + raw[at + 10..at + 12];
    assert raw[at + 12..at + 20] == raw[at + 12..at + 16] + raw[at + 16..at + 20];
    assert raw[at..] == raw[at..at + 8] + raw[at + 8..at + 12] + raw[at + 12..at + 20] + raw[at + 20..];
  }

  /**
   Acceptance means the input is a body, the printed directory of `count` entries, and its end record, with
   nothing else.
   */
  lemma AcceptedArchivesArePrinted(raw: Bytes, limit: nat) returns (body: Bytes, entries: seq<Entry>)
    requires StrictAccepts(raw, limit)
    ensures EntriesFit(entries) && 1 <= |entries| <= limit && |entries| < 0x1_0000
    ensures |body| < 0x1_0000_0000 && |Printed(entries)| < 0x1_0000_0000 && raw == Archive(body, entries)
  {
    hide Printed, PrintedEnd, Tiles, BoundaryAt;
    var end := |raw| - 22;
    var b := BoundaryAt(raw, end);
    entries := TiledIsPrinted(raw, b.offset, end, b.count);
    BoundaryIsPrinted(raw, limit);
    body := raw[..b.offset];
    assert |raw[b.offset..end]| == b.size;
    assert raw == raw[..b.offset] + raw[b.offset..end] + raw[end..];
  }

  // ---------------------------------------------------------------- the two walks against each other

  const END_SIGNATURE_NUMBER := 0x0605_4B50

  predicate Zip64Locator(raw: Bytes) { |raw| >= 42 && SignatureAt(raw, |raw| - 42, ZIP64_LOCATOR_SIGNATURE) }

  /** Inside a strict end record the end signature can only recur as the directory offset. */
  lemma SignatureRecursOnlyAsOffset(raw: Bytes, limit: nat, i: nat)
    requires StrictBoundary(raw, limit) && limit <= 1000 && |raw| - 22 < i
    ensures SignatureAt(raw, i, END_SIGNATURE) <==>
              i == |raw| - 22 + 16 && BoundaryAt(raw, |raw| - 22).offset == END_SIGNATURE_NUMBER
  {
    var end := |raw| - 22;
    var b := BoundaryAt(raw, end);
    assert raw[end + 9] <= 3 && raw[end + 11] <= 3 by { assert b.count <= 1000; }
    assert raw[end + 15] == 0 by { assert b.size <= 558000; }
    assert raw[end + 20] == raw[end + 21] == 0;
  }

  /** Some end signature lies behind the start of the last 22 bytes; no end record can start there. */
  ghost predicate LaterSignature(raw: Bytes) { exists i: nat :: |raw| - 22 < i && SignatureAt(raw, i, END_SIGNATURE) }

  /** The backward search finds the strict end record exactly if no signature lies behind its start. */
  lemma LastBoundaryOfStrict(raw: Bytes, limit: nat)
    requires StrictBoundary(raw, limit)
    ensures var start := if |raw| > 65557 then |raw| - 65557 else 0;
            var found := LastBoundary(raw, start, |raw|);
            found.Some? && found.value >= |raw| - 22 && (found.value == |raw| - 22 <==> !LaterSignature(raw))
    ensures limit <= 1000 ==> (LaterSignature(raw) <==> BoundaryAt(raw, |raw| - 22).offset == END_SIGNATURE_NUMBER)
  {
    hide BoundaryAt;
    var start := if |raw| > 65557 then |raw| - 65557 else 0;
    var end := |raw| - 22;
    var found := LastBoundary(raw, start, |raw|);
    assert SignatureAt(raw, end, END_SIGNATURE) && start <= end;
    if found.value != end { assert LaterSignature(raw); }
    if LaterSignature(raw) {
      var i: nat :| end < i && SignatureAt(raw, i, END_SIGNATURE);
      if limit <= 1000 { SignatureRecursOnlyAsOffset(raw, limit, i); }
    }
    if limit <= 1000 { SignatureRecursOnlyAsOffset(raw, limit, end + 16); }
  }

  /** Behind a strict directory a ZIP64 record can only be meant by the placeholder offset. */
  lemma LocatorContradictsStrict(raw: Bytes, limit: nat)
    requires StrictBoundary(raw, limit) && |raw| >= 42 && BoundaryAt(raw, |raw| - 22).offset != 0xFFFF_FFFF
    ensures Zip64Directory(raw, |raw| - 22, BoundaryAt(raw, |raw| - 22)).None?
  {
    Le16Undoes(raw, |raw| - 22 + 10);
    assert BoundaryAt(raw, |raw| - 22).count < 0x1_0000;
  }

  /**
   What the strict walk accepts, the wide walk accepts exactly if no end signature recurs inside the end record and
   the count is in its limit, read from the ZIP64 record if bytes before the end record spell its locator. With an
   offset below the ZIP64 placeholder such a locator leads nowhere, and with the limit of the runtime policy
   the signature can recur only as the directory offset.
   */
  lemma StrictMeetsWide(raw: Bytes, limit: nat, maximum: nat)
    requires StrictAccepts(raw, limit)
    ensures var end, b := |raw| - 22, BoundaryAt(raw, |raw| - 22);
            WideAccepts(raw, maximum) <==>
              && !LaterSignature(raw)
              && if Zip64Locator(raw) then
                   b.offset == 0xFFFF_FFFF && Zip64Directory(raw, end, b).Some?
                   && (var d := Zip64Directory(raw, end, b).value;
                       0 < d.count <= maximum && d.end <= |raw| && Tiles(Wide, raw, d.offset, d.end, d.count))
                 else b.count <= maximum
    ensures limit <= 1000 ==> (LaterSignature(raw) <==> BoundaryAt(raw, |raw| - 22).offset == END_SIGNATURE_NUMBER)
  {
    hide LastBoundary, Zip64Directory, Tiles, LaterSignature;
    var b := BoundaryAt(raw, |raw| - 22);
    LastBoundaryOfStrict(raw, limit);
    if Zip64Locator(raw) && b.offset != 0xFFFF_FFFF { LocatorContradictsStrict(raw, limit); }
    StrictTilesAreWide(raw, b.offset, |raw| - 22, b.count);
  }
}
