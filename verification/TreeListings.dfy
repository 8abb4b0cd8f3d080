/**
 What `ls-tree -r -z` prints, against the two readers of it in `GitObjects`: each accepts exactly the printed listings
 that meet its own rule, and returns what was printed.
 */
module TreeListings {
  import opened Prelude
  import opened ByteOrder
  import opened StagedDiff
  import opened GitObjects

  // ---------------------------------------------------------------- the listing both readers read

  /** One line as Git prints it for a regular file: mode, the word `blob`, object name, a tab, and the path. */
  function PrintedLine(e: FileEntry): Bytes {
    e.mode + [0x20] + ([0x62, 0x6C, 0x6F, 0x62] + [0x20] + e.name) + [0x09] + e.path
  }

  /** Modes 100644 and 100755, and a name of the right length. */
  predicate IsRegularFile(e: FileEntry, hexLength: nat) {
    && e.mode in {[0x31, 0x30, 0x30, 0x36, 0x34, 0x34], [0x31, 0x30, 0x30, 0x37, 0x35, 0x35]}
    && |e.name| == hexLength && forall i | 0 <= i < hexLength :: 0x30 <= e.name[i] <= 0x39 || 0x61 <= e.name[i] <= 0x66
  }

  function Metadata(e: FileEntry): Bytes { e.mode + [SPACE] + (BLOB + [SPACE] + e.name) }

  lemma MetadataBytes(e: FileEntry, hexLength: nat)
    requires IsRegularFile(e, hexLength)
    ensures IsObjectName(e.name, hexLength) && e.mode in {MODE_REGULAR, MODE_EXECUTABLE}
    ensures SPACE !in e.mode && SPACE !in BLOB && TAB !in Metadata(e) && NUL !in Metadata(e)
    ensures PrintedLine(e) == Metadata(e) + [TAB] + e.path
  {
    assert forall i | 0 <= i < |e.name| :: e.name[i] != TAB && e.name[i] != NUL;
    assert TAB !in e.name && NUL !in e.name && TAB !in BLOB + [SPACE] && NUL !in BLOB + [SPACE];
    assert BLOB + [SPACE] + e.name == (BLOB + [SPACE]) + e.name;
    assert TAB !in e.mode && NUL !in e.mode;
  }

  lemma PrintedMetadataIsCut(e: FileEntry, hexLength: nat)
    requires IsRegularFile(e, hexLength)
    ensures CutTwice(Metadata(e)) == Some((e.mode, BLOB, e.name))
  {
    MetadataBytes(e, hexLength);
    var rest := BLOB + [SPACE] + e.name;
    IndexIs(e.mode, SPACE, rest);
    assert Metadata(e)[..|e.mode|] == e.mode && Metadata(e)[|e.mode| + 1..] == rest;
    IndexIs(BLOB, SPACE, e.name);
    assert rest[..|BLOB|] == BLOB && rest[|BLOB| + 1..] == e.name;
  }

  lemma CutMetadataIsPrinted(metadata: Bytes)
    requires CutTwice(metadata).Some?
    ensures var (mode, kind, name) := CutTwice(metadata).value; metadata == mode + [SPACE] + (kind + [SPACE] + name)
  {
    var first := IndexOf(metadata, SPACE);
    var others := metadata[first + 1..];
    var second := IndexOf(others, SPACE);
    assert others == others[..second] + [SPACE] + others[second + 1..];
    assert metadata == metadata[..first] + [SPACE] + others;
  }

  lemma PrintedLineIsRead(hexLength: nat, e: FileEntry)
    requires IsRegularFile(e, hexLength)
    ensures StateLine(PrintedLine(e), hexLength) == Ok(e)
  {
    hide IndexOf, CutTwice, Metadata, PrintedLine, IsRegularFile, IsObjectName;
    var record := PrintedLine(e);
    MetadataBytes(e, hexLength);
    PrintedMetadataIsCut(e, hexLength);
    IndexIs(Metadata(e), TAB, e.path);
    assert record[..|Metadata(e)|] == Metadata(e) && record[|Metadata(e)| + 1..] == e.path;
    assert IndexOf(record, TAB) == |Metadata(e)| < |record|;
  }

  lemma ReadLineIsPrinted(record: Bytes, hexLength: nat, e: FileEntry)
    requires StateLine(record, hexLength) == Ok(e)
    ensures IsRegularFile(e, hexLength) && record == PrintedLine(e)
  {
    hide IndexOf, CutTwice;
    var tab := IndexOf(record, TAB);
    var metadata := record[..tab];
    CutMetadataIsPrinted(metadata);
    assert metadata == e.mode + [SPACE] + (BLOB + [SPACE] + e.name);
    assert record == metadata + [TAB] + e.path;
  }

  /** A line is read as an entry exactly if it is that entry's printed line, whatever bytes the path has. */
  lemma LineIsReadExactlyIfPrinted(record: Bytes, hexLength: nat, e: FileEntry)
    ensures StateLine(record, hexLength) == Ok(e) <==> IsRegularFile(e, hexLength) && record == PrintedLine(e)
  {
    hide StateLine, PrintedLine, IsRegularFile;
    if IsRegularFile(e, hexLength) { PrintedLineIsRead(hexLength, e); }
    if StateLine(record, hexLength) == Ok(e) { ReadLineIsPrinted(record, hexLength, e); }
  }

  /** The records, each followed by NUL. */
  function Terminated(records: seq<Bytes>): Bytes {
    if records == [] then [] else records[0] + [NUL] + Terminated(records[1..])
  }

  predicate Clean(records: seq<Bytes>) { forall i | 0 <= i < |records| :: NUL !in records[i] }

  lemma {:induction false} JoinedIsTerminated(records: seq<Bytes>)
    requires records != []
    ensures Terminated(records) == Joined(records, NUL) + [NUL]
  {
    if |records| > 1 {
      JoinedIsTerminated(records[1..]);
      assert records[0] + [NUL] + (Joined(records[1..], NUL) + [NUL])
        == (records[0] + [NUL] + Joined(records[1..], NUL)) + [NUL];
    } else {
      assert Terminated(records[1..]) == [] && records[0] + [NUL] + [] == records[0] + [NUL];
    }
  }

  lemma {:induction false} SplitUndoesJoin(records: seq<Bytes>)
    requires records != [] && Clean(records)
    ensures Split(Joined(records, NUL), NUL) == records
  {
    if |records| > 1 {
      assert Clean(records[1..]);
      SplitUndoesJoin(records[1..]);
      SplitFirst(records[0], NUL, Joined(records[1..], NUL));
    } else {
      SplitFirst(records[0], NUL, []);
    }
  }

  /** A listing is cut into records exactly if it is those records, each ended by NUL and without NUL inside. */
  lemma RecordsAreTerminated(raw: Bytes, records: seq<Bytes>)
    ensures NulRecords(raw) == Ok(records) <==> raw == Terminated(records) && Clean(records)
  {
    if records != [] { JoinedIsTerminated(records); }
    if NulRecords(raw) == Ok(records) && raw != [] {
      SplitJoins(raw[..|raw| - 1], NUL);
      assert raw == raw[..|raw| - 1] + [NUL];
    }
    if raw == Terminated(records) && Clean(records) && records != [] {
      SplitUndoesJoin(records);
      assert raw[..|raw| - 1] == Joined(records, NUL);
    }
  }

  function PrintedLines(entries: seq<FileEntry>): (lines: seq<Bytes>)
    ensures |lines| == |entries| && forall i | 0 <= i < |entries| :: lines[i] == PrintedLine(entries[i])
  {
    seq(|entries|, i requires 0 <= i < |entries| => PrintedLine(entries[i]))
  }

  /** What `ls-tree -r -z` prints for these files. */
  function PrintedListing(entries: seq<FileEntry>): Bytes { Terminated(PrintedLines(entries)) }

  predicate AreRegularFiles(entries: seq<FileEntry>, hexLength: nat) {
    forall i | 0 <= i < |entries| :: IsRegularFile(entries[i], hexLength) && NUL !in entries[i].path
  }

  lemma PrintedLinesAreClean(entries: seq<FileEntry>, hexLength: nat)
    requires forall i | 0 <= i < |entries| :: IsRegularFile(entries[i], hexLength)
    ensures Clean(PrintedLines(entries)) <==> forall i | 0 <= i < |entries| :: NUL !in entries[i].path
  {
    forall i | 0 <= i < |entries| ensures NUL in PrintedLine(entries[i]) <==> NUL in entries[i].path {
      MetadataBytes(entries[i], hexLength);
      assert NUL !in Metadata(entries[i]) + [TAB];
      assert PrintedLine(entries[i]) == (Metadata(entries[i]) + [TAB]) + entries[i].path;
    }
  }

  predicate EachPrinted(records: seq<Bytes>, entries: seq<FileEntry>, hexLength: nat) {
    && |records| == |entries|
    && forall i | 0 <= i < |entries| :: IsRegularFile(entries[i], hexLength) && records[i] == PrintedLine(entries[i])
  }

  predicate NamedPaths(entries: seq<FileEntry>) { forall i | 0 <= i < |entries| :: entries[i].path != [] }

  lemma EachPrintedUnfolds(records: seq<Bytes>, entries: seq<FileEntry>, hexLength: nat)
    requires records != [] && entries != []
    ensures EachPrinted(records, entries, hexLength) <==>
              && IsRegularFile(entries[0], hexLength) && records[0] == PrintedLine(entries[0])
              && EachPrinted(records[1..], entries[1..], hexLength)
  {
    hide IsRegularFile, PrintedLine;
    if EachPrinted(records[1..], entries[1..], hexLength) && IsRegularFile(entries[0], hexLength)
       && records[0] == PrintedLine(entries[0])
    {
      forall i | 0 <= i < |entries|
        ensures IsRegularFile(entries[i], hexLength) && records[i] == PrintedLine(entries[i])
      {
        if i > 0 { assert records[1..][i - 1] == records[i] && entries[1..][i - 1] == entries[i]; }
      }
    }
  }

  lemma IncreasingUnfolds(entries: seq<FileEntry>)
    requires entries != []
    ensures Increasing(entries) <==> Increasing(entries[1..]) && AllAfter(entries[1..], entries[0].path)
    ensures NamedPaths(entries) <==> entries[0].path != [] && NamedPaths(entries[1..])
  {
    assert forall i | 0 < i < |entries| :: entries[i] == entries[1..][i - 1];
    if Increasing(entries[1..]) && AllAfter(entries[1..], entries[0].path) {
      forall i, j | 0 <= i < j < |entries| ensures Less(entries[i].path, entries[j].path) {
        if i > 0 { assert Less(entries[1..][i - 1].path, entries[1..][j - 1].path); }
      }
    }
  }

  lemma {:induction false} StateEntriesArePrinted(
      records: seq<Bytes>, hexLength: nat, previous: Option<Bytes>, entries: seq<FileEntry>)
    ensures StateEntries(records, hexLength, previous) == Ok(entries) <==>
              && EachPrinted(records, entries, hexLength) && NamedPaths(entries) && Increasing(entries)
              && (previous.Some? ==> AllAfter(entries, previous.value))
    decreases |records|
  {
    hide StateLine, PrintedLine, IsRegularFile;
    if records != [] && entries != [] {
      LineIsReadExactlyIfPrinted(records[0], hexLength, entries[0]);
      StateEntriesArePrinted(records[1..], hexLength, Some(entries[0].path), entries[1..]);
      EachPrintedUnfolds(records, entries, hexLength);
      IncreasingUnfolds(entries);
      if previous.Some? && Less(previous.value, entries[0].path) { AfterFirst(entries, previous.value); }
      assert entries == [entries[0]] + entries[1..];
    }
  }

  lemma AfterFirst(entries: seq<FileEntry>, path: Bytes)
    requires entries != [] && Less(path, entries[0].path)
    ensures AllAfter(entries[1..], entries[0].path) ==> AllAfter(entries, path)
  {
    if AllAfter(entries[1..], entries[0].path) {
      forall i | 0 <= i < |entries| ensures Less(path, entries[i].path) {
        if i > 0 {
          assert entries[1..][i - 1] == entries[i];
          LessIsTransitive(path, entries[0].path, entries[i].path);
        }
      }
    }
  }

  /**
   The state reader accepts a listing with these entries exactly if it is what Git prints for them and their paths
   are nonempty and strictly increasing.
   */
  lemma StateListingIsPrinted(raw: Bytes, hexLength: nat, entries: seq<FileEntry>)
    ensures StateTree(raw, hexLength) == Ok(entries) <==>
              && raw == PrintedListing(entries) && AreRegularFiles(entries, hexLength)
              && NamedPaths(entries) && Increasing(entries)
  {
    hide StateEntries, Terminated, PrintedLine, IsRegularFile, Clean;
    if NulRecords(raw).Ok? {
      var records := NulRecords(raw).value;
      RecordsAreTerminated(raw, records);
      StateEntriesArePrinted(records, hexLength, None, entries);
      if EachPrinted(records, entries, hexLength) {
        assert records == PrintedLines(entries);
        PrintedLinesAreClean(entries, hexLength);
      }
    }
    if raw == PrintedListing(entries) && AreRegularFiles(entries, hexLength) {
      PrintedLinesAreClean(entries, hexLength);
      RecordsAreTerminated(raw, PrintedLines(entries));
    }
  }

  predicate Unrepeated(entries: seq<FileEntry>, seen: set<Bytes>) {
    && (forall i | 0 <= i < |entries| :: entries[i].path !in seen)
    && forall i, j | 0 <= i < j < |entries| :: entries[i].path != entries[j].path
  }

  lemma UnrepeatedUnfolds(entries: seq<FileEntry>, seen: set<Bytes>)
    requires entries != []
    ensures Unrepeated(entries, seen) <==>
              entries[0].path !in seen && Unrepeated(entries[1..], seen + {entries[0].path})
  {
    assert forall i | 0 < i < |entries| :: entries[i] == entries[1..][i - 1];
    if entries[0].path !in seen && Unrepeated(entries[1..], seen + {entries[0].path}) {
      forall i, j | 0 <= i < j < |entries| ensures entries[i].path != entries[j].path {
        assert entries[1..][j - 1].path !in seen + {entries[0].path};
        if i > 0 { assert entries[1..][i - 1].path != entries[1..][j - 1].path; }
      }
    }
  }

  lemma {:induction false} BundleEntriesArePrinted(
      records: seq<Bytes>, hexLength: nat, seen: set<Bytes>, entries: seq<FileEntry>)
    ensures BundleEntries(records, hexLength, seen) == Ok(entries) <==>
              EachPrinted(records, entries, hexLength) && Unrepeated(entries, seen)
    decreases |records|
  {
    hide BundleLine, StateLine, PrintedLine, IsRegularFile;
    if records != [] && entries != [] {
      LinesAgree(records[0], hexLength, entries[0]);
      LineIsReadExactlyIfPrinted(records[0], hexLength, entries[0]);
      BundleEntriesArePrinted(records[1..], hexLength, seen + {entries[0].path}, entries[1..]);
      EachPrintedUnfolds(records, entries, hexLength);
      UnrepeatedUnfolds(entries, seen);
      assert entries == [entries[0]] + entries[1..];
    }
  }

  lemma {:induction false} InsertedIsOrdered(e: FileEntry, entries: seq<FileEntry>)
    requires Increasing(entries) && forall i | 0 <= i < |entries| :: entries[i].path != e.path
    ensures Increasing(Inserted(e, entries)) && multiset(Inserted(e, entries)) == multiset{e} + multiset(entries)
  {
    if entries == [] {
    } else if Less(e.path, entries[0].path) {
      forall i | 0 < i < |entries| ensures Less(e.path, entries[i].path) {
        LessIsTransitive(e.path, entries[0].path, entries[i].path);
      }
    } else {
      LessIsTotal(e.path, entries[0].path);
      IncreasingUnfolds(entries);
      InsertedIsOrdered(e, entries[1..]);
      var rest := Inserted(e, entries[1..]);
      assert entries == [entries[0]] + entries[1..];
      forall i | 0 <= i < |rest| ensures Less(entries[0].path, rest[i].path) {
        assert rest[i] in multiset(rest);
        assert rest[i] == e || rest[i] in entries[1..];
      }
      IncreasingUnfolds([entries[0]] + rest);
      assert ([entries[0]] + rest)[1..] == rest;
    }
  }

  /** Sorting entries with different paths gives the same entries in increasing order. */
  lemma {:induction false} SortedIsOrdered(entries: seq<FileEntry>)
    requires Unrepeated(entries, {})
    ensures Increasing(SortedByPath(entries)) && multiset(SortedByPath(entries)) == multiset(entries)
  {
    if entries != [] {
      UnrepeatedUnfolds(entries, {});
      var rest := SortedByPath(entries[1..]);
      SortedIsOrdered(entries[1..]);
      forall i | 0 <= i < |rest| ensures rest[i].path != entries[0].path {
        assert rest[i] in multiset(rest);
        assert rest[i] in entries[1..];
      }
      InsertedIsOrdered(entries[0], rest);
      assert entries == [entries[0]] + entries[1..];
    }
  }

  lemma PrintedLineIsLong(e: FileEntry)
    ensures PrintedLine(e) != []
  {
  }

  /**
   The bundle reader accepts a listing exactly if it is what Git prints for files with different paths that the
   repository's rule accepts, in any order; it returns those files in increasing order.
   */
  lemma BundleListingIsPrinted(raw: Bytes, hexLength: nat, acceptable: set<Bytes> -> bool)
    ensures forall entries | BundleListed(raw, hexLength, acceptable, entries) ::
              && BundleTree(raw, hexLength, acceptable) == Ok(SortedByPath(entries))
              && Increasing(SortedByPath(entries)) && multiset(SortedByPath(entries)) == multiset(entries)
    ensures BundleTree(raw, hexLength, acceptable).Ok? ==>
              exists entries :: BundleListed(raw, hexLength, acceptable, entries)
  {
    hide BundleEntries, Terminated, PrintedLine, IsRegularFile, Clean, SortedByPath;
    forall entries | BundleListed(raw, hexLength, acceptable, entries)
      ensures BundleTree(raw, hexLength, acceptable) == Ok(SortedByPath(entries))
      ensures Increasing(SortedByPath(entries)) && multiset(SortedByPath(entries)) == multiset(entries)
    {
      var records := PrintedLines(entries);
      PrintedLinesAreClean(entries, hexLength);
      RecordsAreTerminated(raw, records);
      BundleEntriesArePrinted(records, hexLength, {}, entries);
      forall i | 0 <= i < |records| ensures records[i] != [] { PrintedLineIsLong(entries[i]); }
      SortedIsOrdered(entries);
    }
    if BundleTree(raw, hexLength, acceptable).Ok? {
      var records := NulRecords(raw).value;
      var entries := BundleEntries(records, hexLength, {}).value;
      RecordsAreTerminated(raw, records);
      BundleEntriesArePrinted(records, hexLength, {}, entries);
      assert records == PrintedLines(entries);
      PrintedLinesAreClean(entries, hexLength);
      assert BundleListed(raw, hexLength, acceptable, entries);
    }
  }

  predicate BundleListed(raw: Bytes, hexLength: nat, acceptable: set<Bytes> -> bool, entries: seq<FileEntry>) {
    raw == PrintedListing(entries) && AreRegularFiles(entries, hexLength) && Unrepeated(entries, {})
      && acceptable(Paths(entries))
  }
}
