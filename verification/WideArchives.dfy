/**
 What the start file's directory walk accepts, as printed archives: any body, a directory of entries with names,
 extra fields and comments, an optional ZIP64 record with its locator, and an end record with a comment.
 */
module WideArchives {
  import opened Prelude
  import opened ByteOrder
  import opened ZipDirectory

  // ---------------------------------------------------------------- little-endian numbers

  function Le64(n: nat): (bytes: Bytes)
    requires n < 0x1_0000_0000_0000_0000
    ensures |bytes| == 8
  {
    Le32(n % 0x1_0000_0000) + Le32(n / 0x1_0000_0000)
  }

  lemma Le16At(raw: Bytes, at: nat, n: nat)
    requires at + 2 <= |raw| && n < 0x1_0000
    ensures raw[at..at + 2] == Le16(n) <==> U16(raw, at) == n
  {
    assert raw[at..at + 2][0] == raw[at] && raw[at..at + 2][1] == raw[at + 1];
    Le16Undoes(raw, at);
  }

  lemma Le32At(raw: Bytes, at: nat, n: nat)
    requires at + 4 <= |raw| && n < 0x1_0000_0000
    ensures raw[at..at + 4] == Le32(n) <==> U32(raw, at) == n
  {
    hide U16, Le16;
    Le32Undoes(raw, at);
    if raw[at..at + 4] == Le32(n) {
      Le32Parts(n);
      assert raw[at..at + 2] == raw[at..at + 4][..2] && raw[at + 2..at + 4] == raw[at..at + 4][2..];
      Le16At(raw, at, n % 0x1_0000);
      Le16At(raw, at + 2, n / 0x1_0000);
    }
  }

  lemma Le32Parts(n: nat)
    requires n < 0x1_0000_0000
    ensures |Le32(n)| == 4 && Le32(n)[..2] == Le16(n % 0x1_0000) && Le32(n)[2..] == Le16(n / 0x1_0000)
  {
  }

  lemma Le64At(raw: Bytes, at: nat, n: nat)
    requires at + 8 <= |raw| && n < 0x1_0000_0000_0000_0000
    ensures raw[at..at + 8] == Le64(n) <==> U64(raw, at) == n
  {
    hide U32, Le32;
    U32IsSmall(raw, at);
    U32IsSmall(raw, at + 4);
    assert raw[at..at + 8] == raw[at..at + 4] + raw[at + 4..at + 8];
    Le32At(raw, at, n % 0x1_0000_0000);
    Le32At(raw, at + 4, n / 0x1_0000_0000);
    Le32Size(n % 0x1_0000_0000);
    if raw[at..at + 8] == Le64(n) {
      assert raw[at..at + 4] == raw[at..at + 8][..4] == Le32(n % 0x1_0000_0000);
      assert raw[at + 4..at + 8] == raw[at..at + 8][4..] == Le32(n / 0x1_0000_0000);
    }
  }

  lemma Le32Size(n: nat)
    requires n < 0x1_0000_0000
    ensures |Le32(n)| == 4
  {
  }

  lemma U32IsSmall(raw: Bytes, at: nat)
    requires at + 4 <= |raw|
    ensures U32(raw, at) < 0x1_0000_0000
  {
  }

  lemma U64IsSmall(raw: Bytes, at: nat)
    requires at + 8 <= |raw|
    ensures U64(raw, at) < 0x1_0000_0000_0000_0000
  {
    hide U32;
    U32IsSmall(raw, at);
    U32IsSmall(raw, at + 4);
  }

  lemma SignatureIs(raw: Bytes, at: nat, signature: Bytes)
    requires |signature| == 4 && at + 4 <= |raw|
    ensures raw[at..at + 4] == signature <==> SignatureAt(raw, at, signature)
  {
    var s := raw[at..at + 4];
    assert s[0] == raw[at] && s[1] == raw[at + 1] && s[2] == raw[at + 2] && s[3] == raw[at + 3];
  }

  /** The text from `at` on is `piece` and then `rest`. */
  lemma Peel(raw: Bytes, at: nat, piece: Bytes, rest: Bytes)
    requires at <= |raw|
    ensures raw[at..] == piece + rest <==>
              at + |piece| <= |raw| && raw[at..at + |piece|] == piece && raw[at + |piece|..] == rest
  {
    if raw[at..] == piece + rest {
      assert |raw[at..]| == |raw| - at;
      assert raw[at..at + |piece|] == raw[at..][..|piece|];
      assert raw[at + |piece|..] == raw[at..][|piece|..];
    } else if at + |piece| <= |raw| {
      assert raw[at..] == raw[at..at + |piece|] + raw[at + |piece|..];
    }
  }

  // ---------------------------------------------------------------- the end record

  /** The fields of an end record; `entries` is stated twice, for this disk and in all. */
  datatype EndFields = EndFields(onDisk: nat, entries: nat, size: nat, offset: nat, comment: Bytes)

  predicate EndFits(e: EndFields) {
    && e.onDisk < 0x1_0000 && e.entries < 0x1_0000 && e.size < 0x1_0000_0000 && e.offset < 0x1_0000_0000
    && |e.comment| < 0x1_0000
  }

  function PrintedEndRecord(e: EndFields): Bytes
    requires EndFits(e)
  {
    [0x50, 0x4B, 0x05, 0x06] + ([0, 0, 0, 0] + (Le16(e.onDisk) + (Le16(e.entries)
    + (Le32(e.size) + (Le32(e.offset) + (Le16(|e.comment|) + e.comment))))))
  }

  lemma ZeroDisks(raw: Bytes, at: nat)
    requires at + 8 <= |raw|
    ensures raw[at + 4..at + 8] == [0, 0, 0, 0] <==> U16(raw, at + 4) == 0 && U16(raw, at + 6) == 0
  {
    var s := raw[at + 4..at + 8];
    assert s[0] == raw[at + 4] && s[1] == raw[at + 5] && s[2] == raw[at + 6] && s[3] == raw[at + 7];
  }

  /** An end record with these fields stands at `at` exactly if reading the fields gives them. */
  lemma EndRecordMeans(raw: Bytes, at: nat, e: EndFields)
    requires at <= |raw| && EndFits(e)
    ensures raw[at..] == PrintedEndRecord(e) <==>
              && at + 22 <= |raw| && SignatureAt(raw, at, END_SIGNATURE)
              && BoundaryAt(raw, at) == Boundary(0, 0, e.onDisk, e.entries, e.size, e.offset, |e.comment|)
              && raw[at + 22..] == e.comment
  {
    hide U16, U32, Le16, Le32, SignatureAt;
    Sizes(e);
    assert |PrintedEndRecord(e)| == 22 + |e.comment| && |raw[at..]| == |raw| - at;
    var tail := Le16(|e.comment|) + e.comment;
    Peel(raw, at, END_SIGNATURE, [0, 0, 0, 0] + (Le16(e.onDisk) + (Le16(e.entries)
      + (Le32(e.size) + (Le32(e.offset) + tail)))));
    if at + 22 <= |raw| {
      SignatureIs(raw, at, END_SIGNATURE);
      ZeroDisks(raw, at);
      Le16At(raw, at + 8, e.onDisk);
      Le16At(raw, at + 10, e.entries);
      Le32At(raw, at + 12, e.size);
      Le32At(raw, at + 16, e.offset);
      Le16At(raw, at + 20, |e.comment|);
      Peel(raw, at + 4, [0, 0, 0, 0], Le16(e.onDisk) + (Le16(e.entries) + (Le32(e.size) + (Le32(e.offset) + tail))));
      Peel(raw, at + 8, Le16(e.onDisk), Le16(e.entries) + (Le32(e.size) + (Le32(e.offset) + tail)));
      Peel(raw, at + 10, Le16(e.entries), Le32(e.size) + (Le32(e.offset) + tail));
      Peel(raw, at + 12, Le32(e.size), Le32(e.offset) + tail);
      Peel(raw, at + 16, Le32(e.offset), tail);
      Peel(raw, at + 20, Le16(|e.comment|), e.comment);
    }
  }

  lemma Sizes(e: EndFields)
    requires EndFits(e)
    ensures |Le16(e.onDisk)| == |Le16(e.entries)| == |Le16(|e.comment|)| == 2
    ensures |Le32(e.size)| == |Le32(e.offset)| == 4
  {
  }

  // ---------------------------------------------------------------- the ZIP64 record and its locator

  /** The fields of a ZIP64 record at offset `record`; `versions` are the four bytes the walk does not read. */
  datatype Zip64Fields = Zip64Fields(versions: Bytes, entries: nat, size: nat, offset: nat, record: nat)

  const HUGE := 0x1_0000_0000_0000_0000

  predicate Zip64Fits(z: Zip64Fields) {
    |z.versions| == 4 && z.entries < HUGE && z.size < HUGE && z.offset < HUGE && z.record < HUGE
  }

  function PrintedLocator(record: nat): Bytes
    requires record < HUGE
  {
    [0x50, 0x4B, 0x06, 0x07] + (Le32(0) + (Le64(record) + Le32(1)))
  }

  function PrintedZip64(z: Zip64Fields): Bytes
    requires Zip64Fits(z)
  {
    [0x50, 0x4B, 0x06, 0x06] + (Le64(44) + (z.versions + (Le32(0) + (Le32(0) + (Le64(z.entries) + (Le64(z.entries)
    + (Le64(z.size) + (Le64(z.offset) + PrintedLocator(z.record)))))))))
  }

  /** What the walk reads of a record and locator that fill the 76 bytes before `position`. */
  predicate Zip64At(raw: Bytes, position: nat, z: Zip64Fields)
    requires Zip64Fits(z)
  {
    && 76 <= position <= |raw| && position - 76 == z.record
    && SignatureAt(raw, position - 76, ZIP64_END_SIGNATURE) && U64(raw, position - 72) == 44
    && raw[position - 64..position - 60] == z.versions
    && U32(raw, position - 60) == 0 && U32(raw, position - 56) == 0
    && U64(raw, position - 52) == z.entries && U64(raw, position - 44) == z.entries
    && U64(raw, position - 36) == z.size && U64(raw, position - 28) == z.offset
    && SignatureAt(raw, position - 20, ZIP64_LOCATOR_SIGNATURE) && U32(raw, position - 16) == 0
    && U64(raw, position - 12) == z.record && U32(raw, position - 4) == 1
  }

  lemma LocatorMeans(raw: Bytes, at: nat, record: nat, rest: Bytes)
    requires at <= |raw| && record < HUGE
    ensures raw[at..] == PrintedLocator(record) + rest <==>
              && at + 20 <= |raw| && SignatureAt(raw, at, ZIP64_LOCATOR_SIGNATURE) && U32(raw, at + 4) == 0
              && U64(raw, at + 8) == record && U32(raw, at + 16) == 1 && raw[at + 20..] == rest
  {
    hide U32, U64, Le32, Le64, SignatureAt;
    Le32Size(0);
    Le32Size(1);
    var parts := Le32(0) + (Le64(record) + (Le32(1) + rest));
    assert |PrintedLocator(record)| == 20 && |raw[at..]| == |raw| - at;
    assert PrintedLocator(record) + rest == ZIP64_LOCATOR_SIGNATURE + parts;
    Peel(raw, at, ZIP64_LOCATOR_SIGNATURE, parts);
    if at + 20 <= |raw| {
      SignatureIs(raw, at, ZIP64_LOCATOR_SIGNATURE);
      Le32At(raw, at + 4, 0);
      Le64At(raw, at + 8, record);
      Le32At(raw, at + 16, 1);
      Peel(raw, at + 4, Le32(0), Le64(record) + (Le32(1) + rest));
      Peel(raw, at + 8, Le64(record), Le32(1) + rest);
      Peel(raw, at + 16, Le32(1), rest);
    }
  }

  lemma Zip64Size(z: Zip64Fields)
    requires Zip64Fits(z)
    ensures |PrintedLocator(z.record)| == 20 && |PrintedZip64(z)| == 76
  {
    hide Le32, Le64;
    Le32Size(0);
    Le32Size(1);
  }

  lemma Regrouped(z: Zip64Fields, rest: Bytes)
    requires Zip64Fits(z)
    ensures PrintedZip64(z) + rest ==
            ZIP64_END_SIGNATURE + (Le64(44) + (z.versions + (Le32(0) + (Le32(0) + (Le64(z.entries)
            + (Le64(z.entries) + (Le64(z.size) + (Le64(z.offset) + (PrintedLocator(z.record) + rest)))))))))
  {
    hide Le32, Le64, PrintedLocator;
  }

  /** A ZIP64 record and its locator stand before `position` exactly if reading their fields gives them. */
  lemma Zip64Means(raw: Bytes, position: nat, z: Zip64Fields)
    requires Zip64Fits(z) && position <= |raw|
    ensures 76 <= position && position - 76 == z.record && raw[position - 76..] == PrintedZip64(z) + raw[position..]
            <==> Zip64At(raw, position, z)
  {
    hide U32, U64, Le32, Le64, SignatureAt, PrintedZip64, PrintedLocator;
    if 76 <= position {
      var at, rest := position - 76, raw[position..];
      Le32Size(0);
      Regrouped(z, rest);
      var locator := PrintedLocator(z.record) + rest;
      var counts := Le64(z.entries) + (Le64(z.entries) + (Le64(z.size) + (Le64(z.offset) + locator)));
      Peel(raw, at, ZIP64_END_SIGNATURE, Le64(44) + (z.versions + (Le32(0) + (Le32(0) + counts))));
      Peel(raw, at + 4, Le64(44), z.versions + (Le32(0) + (Le32(0) + counts)));
      Peel(raw, at + 12, z.versions, Le32(0) + (Le32(0) + counts));
      Peel(raw, at + 16, Le32(0), Le32(0) + counts);
      Peel(raw, at + 20, Le32(0), counts);
      SignatureIs(raw, at, ZIP64_END_SIGNATURE);
      Le64At(raw, at + 4, 44);
      Le32At(raw, at + 16, 0);
      Le32At(raw, at + 20, 0);
      CountsMean(raw, at + 24, z, locator);
      LocatorMeans(raw, at + 56, z.record, rest);
    }
  }

  lemma CountsMean(raw: Bytes, at: nat, z: Zip64Fields, locator: Bytes)
    requires Zip64Fits(z) && at + 32 <= |raw|
    ensures raw[at..] == Le64(z.entries) + (Le64(z.entries) + (Le64(z.size) + (Le64(z.offset) + locator))) <==>
              && U64(raw, at) == z.entries && U64(raw, at + 8) == z.entries
              && U64(raw, at + 16) == z.size && U64(raw, at + 24) == z.offset && raw[at + 32..] == locator
  {
    hide U64, Le64;
    Le64At(raw, at, z.entries);
    Le64At(raw, at + 8, z.entries);
    Le64At(raw, at + 16, z.size);
    Le64At(raw, at + 24, z.offset);
    Peel(raw, at, Le64(z.entries), Le64(z.entries) + (Le64(z.size) + (Le64(z.offset) + locator)));
    Peel(raw, at + 8, Le64(z.entries), Le64(z.size) + (Le64(z.offset) + locator));
    Peel(raw, at + 16, Le64(z.size), Le64(z.offset) + locator);
    Peel(raw, at + 24, Le64(z.offset), locator);
  }

  // ---------------------------------------------------------------- the directory

  /** One directory entry: the fields the walk does not read, the name, the extra field and the comment. */
  datatype WideEntry = WideEntry(front: Bytes, back: Bytes, name: Bytes, extra: Bytes, comment: Bytes)

  predicate WideFits(e: WideEntry) {
    && |e.front| == 24 && |e.back| == 12 && 1 <= |e.name| <= 4096 && |e.extra| < 0x1_0000 && |e.comment| < 0x1_0000
  }

  predicate AllFit(entries: seq<WideEntry>) { forall i | 0 <= i < |entries| :: WideFits(entries[i]) }

  function Lengths(e: WideEntry): Bytes
    requires WideFits(e)
  {
    Le16(|e.name|) + (Le16(|e.extra|) + Le16(|e.comment|))
  }

  function PrintedEntry(e: WideEntry): (h: Bytes)
    requires WideFits(e)
    ensures |h| == 46 + |e.name| + |e.extra| + |e.comment|
  {
    [0x50, 0x4B, 0x01, 0x02] + (e.front + (Lengths(e) + (e.back + (e.name + (e.extra + e.comment)))))
  }

  function PrintedEntries(entries: seq<WideEntry>): Bytes
    requires AllFit(entries)
  {
    if entries == [] then [] else PrintedEntry(entries[0]) + PrintedEntries(entries[1..])
  }

  lemma LengthsMean(raw: Bytes, at: nat, name: nat, extra: nat, comment: nat)
    requires at + 6 <= |raw| && name < 0x1_0000 && extra < 0x1_0000 && comment < 0x1_0000
    ensures raw[at..at + 6] == Le16(name) + (Le16(extra) + Le16(comment)) <==>
              U16(raw, at) == name && U16(raw, at + 2) == extra && U16(raw, at + 4) == comment
  {
    hide U16, Le16;
    Le16Size(name);
    Le16Size(extra);
    Le16Size(comment);
    Le16At(raw, at, name);
    Le16At(raw, at + 2, extra);
    Le16At(raw, at + 4, comment);
    var s := raw[at..at + 6];
    assert s[..2] == raw[at..at + 2] && s[2..4] == raw[at + 2..at + 4] && s[4..] == raw[at + 4..at + 6];
    assert s == s[..2] + (s[2..4] + s[4..]);
    if s == Le16(name) + (Le16(extra) + Le16(comment)) {
      assert s[..2] == Le16(name) && s[2..4] == Le16(extra) && s[4..] == Le16(comment);
    }
  }

  lemma Le16Size(n: nat)
    requires n < 0x1_0000
    ensures |Le16(n)| == 2
  {
  }

  /** A printed entry is read as a header of its own length. */
  lemma PrintedEntryReads(raw: Bytes, from: nat, end: nat, e: WideEntry, rest: Bytes)
    requires WideFits(e) && from <= end <= |raw| && raw[from..end] == PrintedEntry(e) + rest
    ensures from + |PrintedEntry(e)| <= end
    ensures HeaderLength(Wide, raw, from, end) == Some(|PrintedEntry(e)|)
    ensures raw[from + |PrintedEntry(e)|..end] == rest
  {
    hide Le16, U16, SignatureAt, PrintedEntry;
    var s, n := raw[from..end], |PrintedEntry(e)|;
    assert |s| == end - from && s[..n] == PrintedEntry(e) && s[n..] == rest;
    EntryHead(e);
    SliceOfSlice(raw, from, end, n, 0, 4);
    SliceOfSlice(raw, from, end, n, 28, 34);
    SignatureIs(raw, from, ENTRY_SIGNATURE);
    LengthsMean(raw, from + 28, |e.name|, |e.extra|, |e.comment|);
  }

  lemma SliceOfSlice(raw: Bytes, from: nat, end: nat, n: nat, i: nat, j: nat)
    requires from <= end <= |raw| && i <= j <= n <= end - from
    ensures raw[from..end][..n][i..j] == raw[from + i..from + j]
  {
    var s := raw[from..end];
    assert s[..n][i..j] == s[i..j];
    forall k | 0 <= k < j - i ensures s[i..j][k] == raw[from + i..from + j][k] {
      assert s[i..j][k] == s[i + k] == raw[from + (i + k)];
    }
  }

  lemma EntryHead(e: WideEntry)
    requires WideFits(e)
    ensures var h := PrintedEntry(e); |h| >= 46 && h[..4] == ENTRY_SIGNATURE && h[28..34] == Lengths(e)
  {
    hide Le16;
    Le16Size(|e.name|);
    Le16Size(|e.extra|);
    Le16Size(|e.comment|);
  }

  /** A header is the printed form of the entry cut out of it. */
  lemma HeaderIsPrintedEntry(raw: Bytes, from: nat, end: nat) returns (e: WideEntry)
    requires end <= |raw| && HeaderLength(Wide, raw, from, end).Some?
    requires from + HeaderLength(Wide, raw, from, end).value <= end
    ensures WideFits(e) && raw[from..from + HeaderLength(Wide, raw, from, end).value] == PrintedEntry(e)
  {
    hide Le16, SignatureAt;
    var name, extra, comment := U16(raw, from + 28), U16(raw, from + 30), U16(raw, from + 32);
    var a, b, c := from + 46 + name, from + 46 + name + extra, from + 46 + name + extra + comment;
    e := WideEntry(raw[from + 4..from + 28], raw[from + 34..from + 46], raw[from + 46..a], raw[a..b], raw[b..c]);
    SignatureIs(raw, from, ENTRY_SIGNATURE);
    LengthsMean(raw, from + 28, name, extra, comment);
    assert raw[from + 28..from + 34] == Lengths(e);
    JoinSix(raw, from, a, b, c);
  }

  lemma JoinSix(raw: Bytes, from: nat, a: nat, b: nat, c: nat)
    requires from + 46 <= a <= b <= c <= |raw|
    ensures raw[from..c] == raw[from..from + 4] + (raw[from + 4..from + 28] + (raw[from + 28..from + 34]
              + (raw[from + 34..from + 46] + (raw[from + 46..a] + (raw[a..b] + raw[b..c])))))
  {
    Halves(raw, a, b, c);
    Halves(raw, from + 46, a, c);
    Halves(raw, from + 34, from + 46, c);
    Halves(raw, from + 28, from + 34, c);
    Halves(raw, from + 4, from + 28, c);
    Halves(raw, from, from + 4, c);
  }

  lemma Halves(raw: Bytes, i: nat, j: nat, k: nat)
    requires i <= j <= k <= |raw|
    ensures raw[i..k] == raw[i..j] + raw[j..k]
  {
  }

  /** Bytes are tiled by `count` wide headers exactly if they are `count` printed entries. */
  lemma {:induction false} PrintedEntriesTile(raw: Bytes, from: nat, end: nat, entries: seq<WideEntry>)
    requires AllFit(entries) && from <= end <= |raw| && raw[from..end] == PrintedEntries(entries)
    ensures Tiles(Wide, raw, from, end, |entries|)
    decreases |entries|
  {
    hide PrintedEntry, HeaderLength;
    if entries == [] {
      assert |raw[from..end]| == end - from;
    } else {
      assert WideFits(entries[0]);
      PrintedEntryReads(raw, from, end, entries[0], PrintedEntries(entries[1..]));
      PrintedEntriesTile(raw, from + |PrintedEntry(entries[0])|, end, entries[1..]);
    }
  }

  lemma {:induction false} TiledIsEntries(raw: Bytes, from: nat, end: nat, count: nat) returns (entries: seq<WideEntry>)
    requires end <= |raw| && Tiles(Wide, raw, from, end, count)
    ensures from <= end && |entries| == count && AllFit(entries) && raw[from..end] == PrintedEntries(entries)
    decreases count
  {
    hide PrintedEntry, HeaderLength;
    TilesEndBefore(Wide, raw, from, end, count);
    if count == 0 {
      entries := [];
    } else {
      var next := from + HeaderLength(Wide, raw, from, end).value;
      TilesEndBefore(Wide, raw, next, end, count - 1);
      var first := HeaderIsPrintedEntry(raw, from, end);
      var rest := TiledIsEntries(raw, next, end, count - 1);
      entries := [first] + rest;
      assert entries[1..] == rest;
      assert raw[from..end] == raw[from..next] + raw[next..end];
    }
  }

  // ---------------------------------------------------------------- whole archives

  /** What the end record states of an archive with a ZIP64 record: each number, or its placeholder. */
  predicate PlaceholdersOr(e: EndFields, z: Zip64Fields) {
    && (e.onDisk == z.entries || e.onDisk == 0xFFFF) && (e.entries == z.entries || e.entries == 0xFFFF)
    && (e.size == z.size || e.size == 0xFFFF_FFFF) && (e.offset == z.offset || e.offset == 0xFFFF_FFFF)
  }

  /** No end signature lies behind the start of the end record, so it is the one the backward search finds. */
  predicate LastSignature(raw: Bytes, position: nat) {
    forall i: nat | position < i < |raw| :: !SignatureAt(raw, i, END_SIGNATURE)
  }

  /**
   An archive: body, directory, perhaps a ZIP64 record with its locator, and end record, each stating the others' true
   places and sizes. Without a ZIP64 record nothing before the end record looks like a locator.
   */
  predicate IsArchive(
      raw: Bytes, body: Bytes, entries: seq<WideEntry>, zip64: Option<Zip64Fields>, e: EndFields)
  {
    && AllFit(entries) && EndFits(e)
    && var directory := PrintedEntries(entries);
      var position := |body| + |directory| + if zip64.Some? then 76 else 0;
      && (zip64.None? ==>
            && e.onDisk == e.entries == |entries| && e.size == |directory| && e.offset == |body|
            && raw == body + directory + PrintedEndRecord(e)
            && !(position >= 20 && SignatureAt(raw, position - 20, ZIP64_LOCATOR_SIGNATURE)))
      && (zip64.Some? ==>
            && Zip64Fits(zip64.value) && PlaceholdersOr(e, zip64.value)
            && zip64.value.entries == |entries| && zip64.value.size == |directory|
            && zip64.value.offset == |body| && zip64.value.record == |body| + |directory|
            && raw == body + directory + PrintedZip64(zip64.value) + PrintedEndRecord(e))
      && LastSignature(raw, position)
  }

  lemma SearchFinds(raw: Bytes, position: nat)
    requires position + 22 <= |raw| <= position + 65557 && SignatureAt(raw, position, END_SIGNATURE)
    requires LastSignature(raw, position)
    ensures LastBoundary(raw, if |raw| > 65557 then |raw| - 65557 else 0, |raw|) == Some(position)
  {
  }

  lemma TailParts(raw: Bytes, body: Bytes, directory: Bytes, tail: Bytes)
    requires raw == body + directory + tail
    ensures var at := |body| + |directory|;
            at <= |raw| && raw[..|body|] == body && raw[|body|..at] == directory && raw[at..] == tail
  {
  }

  lemma Zip64Tail(raw: Bytes, at: nat, z: Zip64Fields, end: Bytes)
    requires Zip64Fits(z) && at <= |raw| && raw[at..] == PrintedZip64(z) + end && z.record == at
    ensures at + 76 <= |raw| && raw[at + 76..] == end && Zip64At(raw, at + 76, z)
  {
    hide PrintedZip64, PrintedLocator, Zip64At;
    Zip64Size(z);
    Peel(raw, at, PrintedZip64(z), end);
    Zip64Means(raw, at + 76, z);
  }

  /** An archive's end record is found, and with it the directory it states. */
  lemma ArchiveIsLocated(
      raw: Bytes, body: Bytes, entries: seq<WideEntry>, zip64: Option<Zip64Fields>, e: EndFields)
    requires IsArchive(raw, body, entries, zip64, e)
    ensures WideDirectory(raw) == Some(Directory(|entries|, |body|, |body| + |PrintedEntries(entries)|))
  {
    hide PrintedEntries, PrintedEndRecord, PrintedZip64, U16, U32, U64, BoundaryAt, SignatureAt, LastSignature, AllFit;
    var at := |body| + |PrintedEntries(entries)|;
    var position := at + if zip64.Some? then 76 else 0;
    if zip64.None? {
      TailParts(raw, body, PrintedEntries(entries), PrintedEndRecord(e));
      EndRecordMeans(raw, at, e);
      SearchFinds(raw, at);
    } else {
      var z := zip64.value;
      assert raw == body + PrintedEntries(entries) + (PrintedZip64(z) + PrintedEndRecord(e));
      TailParts(raw, body, PrintedEntries(entries), PrintedZip64(z) + PrintedEndRecord(e));
      Zip64Tail(raw, at, z, PrintedEndRecord(e));
      EndRecordMeans(raw, position, e);
      SearchFinds(raw, position);
      Zip64IsRead(raw, position, z, e);
    }
  }

  lemma Zip64IsRead(raw: Bytes, position: nat, z: Zip64Fields, e: EndFields)
    requires Zip64Fits(z) && EndFits(e) && Zip64At(raw, position, z) && PlaceholdersOr(e, z)
    requires z.offset + z.size == z.record
    ensures Zip64Directory(raw, position, Boundary(0, 0, e.onDisk, e.entries, e.size, e.offset, |e.comment|))
              == Some(Directory(z.entries, z.offset, z.record))
    ensures SignatureAt(raw, position - 20, ZIP64_LOCATOR_SIGNATURE)
  {
    hide U32, U64, SignatureAt;
  }

  /** Every such archive with 1 to `maximum` entries is accepted. */
  lemma WideArchivesAreAccepted(
      raw: Bytes, body: Bytes, entries: seq<WideEntry>, zip64: Option<Zip64Fields>, e: EndFields, maximum: nat)
    requires IsArchive(raw, body, entries, zip64, e) && 1 <= |entries| <= maximum
    ensures WideAccepts(raw, maximum)
  {
    hide PrintedEntries, PrintedEndRecord, PrintedZip64, WideDirectory, Tiles, LastSignature;
    ArchiveIsLocated(raw, body, entries, zip64, e);
    var directory := PrintedEntries(entries);
    if zip64.None? {
      TailParts(raw, body, directory, PrintedEndRecord(e));
    } else {
      assert raw == body + directory + (PrintedZip64(zip64.value) + PrintedEndRecord(e));
      TailParts(raw, body, directory, PrintedZip64(zip64.value) + PrintedEndRecord(e));
    }
    PrintedEntriesTile(raw, |body|, |body| + |directory|, entries);
  }

  lemma BoundaryIsSmall(raw: Bytes, at: nat)
    requires at + 22 <= |raw|
    ensures var b := BoundaryAt(raw, at);
            && b.diskCount < 0x1_0000 && b.count < 0x1_0000 && b.size < 0x1_0000_0000 && b.offset < 0x1_0000_0000
            && b.comment < 0x1_0000
  {
  }

  /** The fields of a located end record. */
  lemma LocatedEnd(raw: Bytes, position: nat) returns (e: EndFields)
    requires position + 22 <= |raw| && SignatureAt(raw, position, END_SIGNATURE)
    requires BoundaryAt(raw, position).disk == 0 && BoundaryAt(raw, position).directoryDisk == 0
    requires position + 22 + BoundaryAt(raw, position).comment == |raw|
    ensures EndFits(e) && raw[position..] == PrintedEndRecord(e)
    ensures BoundaryAt(raw, position) == Boundary(0, 0, e.onDisk, e.entries, e.size, e.offset, |e.comment|)
  {
    hide PrintedEndRecord, BoundaryAt, SignatureAt;
    BoundaryIsSmall(raw, position);
    var b := BoundaryAt(raw, position);
    e := EndFields(b.diskCount, b.count, b.size, b.offset, raw[position + 22..]);
    EndRecordMeans(raw, position, e);
  }

  lemma LocatedZip64(raw: Bytes, position: nat, b: Boundary) returns (z: Zip64Fields)
    requires 20 <= position <= |raw| && SignatureAt(raw, position - 20, ZIP64_LOCATOR_SIGNATURE)
    requires Zip64Directory(raw, position, b).Some?
    ensures Zip64Fits(z) && Zip64At(raw, position, z) && z.offset + z.size == z.record
    ensures Zip64Directory(raw, position, b) == Some(Directory(z.entries, z.offset, z.record))
    ensures b.diskCount in {0xFFFF, z.entries} && b.count in {0xFFFF, z.entries}
    ensures b.size in {0xFFFF_FFFF, z.size} && b.offset in {0xFFFF_FFFF, z.offset}
  {
    hide U32, U64, SignatureAt;
    var record := U64(raw, position - 12);
    U64IsSmall(raw, position - 12);
    U64IsSmall(raw, record + 32);
    U64IsSmall(raw, record + 40);
    U64IsSmall(raw, record + 48);
    z := Zip64Fields(raw[record + 12..record + 16], U64(raw, record + 32), U64(raw, record + 40),
                     U64(raw, record + 48), record);
  }

  /** Acceptance means the input is such an archive, entry for entry, with 1 to `maximum` entries. */
  lemma AcceptedIsAnArchive(raw: Bytes, maximum: nat)
    returns (body: Bytes, entries: seq<WideEntry>, zip64: Option<Zip64Fields>, e: EndFields)
    requires WideAccepts(raw, maximum)
    ensures IsArchive(raw, body, entries, zip64, e) && 1 <= |entries| <= maximum
  {
    hide PrintedEntries, PrintedEndRecord, PrintedZip64, Tiles, U16, U32, U64, BoundaryAt, SignatureAt, LastBoundary;
    hide Zip64Directory;
    var start := if |raw| > 65557 then |raw| - 65557 else 0;
    var position := LastBoundary(raw, start, |raw|).value;
    var d := WideDirectory(raw).value;
    e := LocatedEnd(raw, position);
    entries := TiledIsEntries(raw, d.offset, d.end, d.count);
    body := raw[..d.offset];
    assert |raw[d.offset..d.end]| == d.end - d.offset;
    assert LastSignature(raw, position);
    if position >= 20 && SignatureAt(raw, position - 20, ZIP64_LOCATOR_SIGNATURE) {
      var z := LocatedZip64(raw, position, BoundaryAt(raw, position));
      zip64 := Some(z);
      Zip64Means(raw, position, z);
      assert raw == raw[..d.offset] + raw[d.offset..d.end] + raw[d.end..];
      assert raw == (body + PrintedEntries(entries)) + (PrintedZip64(z) + PrintedEndRecord(e));
    } else {
      zip64 := None;
      assert raw == raw[..d.offset] + raw[d.offset..d.end] + raw[d.end..];
    }
  }
}
