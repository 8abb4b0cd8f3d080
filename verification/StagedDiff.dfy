/** The merge walk over the sorted base tree and the sorted index that finds every staged change. */
module StagedDiff {
  import opened Prelude
  import opened ByteOrder

  /** One regular file as the base tree or the index lists it. */
  datatype FileEntry = FileEntry(path: Bytes, mode: Bytes, name: Bytes)

  /** Absent sides are empty. */
  datatype StagedRecord = StagedRecord(
    path: Bytes, headMode: Bytes, headName: Bytes, indexMode: Bytes, indexName: Bytes)

  predicate Increasing(entries: seq<FileEntry>) {
    forall i, j | 0 <= i < j < |entries| :: Less(entries[i].path, entries[j].path)
  }

  predicate RealModes(entries: seq<FileEntry>) { forall i | 0 <= i < |entries| :: entries[i].mode != [] }

  function EntryAt(entries: seq<FileEntry>, path: Bytes): Option<FileEntry> {
    if entries == [] then None else if entries[0].path == path then Some(entries[0]) else EntryAt(entries[1..], path)
  }

  function RecordAt(records: seq<StagedRecord>, path: Bytes): Option<StagedRecord> {
    if records == [] then None else if records[0].path == path then Some(records[0]) else RecordAt(records[1..], path)
  }

  function RecordOf(path: Bytes, head: Option<FileEntry>, index: Option<FileEntry>): StagedRecord {
    StagedRecord(path,
                 if head.Some? then head.value.mode else [], if head.Some? then head.value.name else [],
                 if index.Some? then index.value.mode else [], if index.Some? then index.value.name else [])
  }

  /** The walk, one comparison at a time. */
  function Walk(base: seq<FileEntry>, index: seq<FileEntry>): seq<StagedRecord>
    decreases |base| + |index|
  {
    if base == [] && index == [] then []
    else if index == [] || (base != [] && Less(base[0].path, index[0].path)) then
      [RecordOf(base[0].path, Some(base[0]), None)] + Walk(base[1..], index)
    else if base == [] || Less(index[0].path, base[0].path) then
      [RecordOf(index[0].path, None, Some(index[0]))] + Walk(base, index[1..])
    else
      (if (base[0].mode, base[0].name) != (index[0].mode, index[0].name)
       then [RecordOf(base[0].path, Some(base[0]), Some(index[0]))] else []) + Walk(base[1..], index[1..])
  }

  /** Which side the walk advances: the smaller path, or both. */
  datatype Move = Head | Index | Both

  function MoveAt(base: seq<FileEntry>, h: nat, index: seq<FileEntry>, i: nat): Move
    requires h <= |base| && i <= |index| && (h < |base| || i < |index|)
  {
    if i == |index| || (h < |base| && Less(base[h].path, index[i].path)) then Head
    else if h == |base| || Less(index[i].path, base[h].path) then Index
    else Both
  }

  lemma WalkUnfolds(base: seq<FileEntry>, h: nat, index: seq<FileEntry>, i: nat, move: Move)
    requires h <= |base| && i <= |index| && (h < |base| || i < |index|) && move == MoveAt(base, h, index, i)
    ensures Walk(base[h..], index[i..]) ==
            match move
            case Head => [RecordOf(base[h].path, Some(base[h]), None)] + Walk(base[h + 1..], index[i..])
            case Index => [RecordOf(index[i].path, None, Some(index[i]))] + Walk(base[h..], index[i + 1..])
            case Both =>
              (if (base[h].mode, base[h].name) != (index[i].mode, index[i].name)
               then [RecordOf(base[h].path, Some(base[h]), Some(index[i]))] else [])
                 + Walk(base[h + 1..], index[i + 1..])
  {
    assert h < |base| ==> base[h..][0] == base[h] && base[h..][1..] == base[h + 1..];
    assert i < |index| ==> index[i..][0] == index[i] && index[i..][1..] == index[i + 1..];
  }

  lemma Regrouped(records: seq<StagedRecord>, more: seq<StagedRecord>, rest: seq<StagedRecord>)
    ensures records + (more + rest) == (records + more) + rest
  {
  }

  method CompareStagedEntries(base: seq<FileEntry>, index: seq<FileEntry>) returns (records: seq<StagedRecord>)
    ensures records == Walk(base, index)
  {
    records := [];
    var h, i := 0, 0;
    while h < |base| || i < |index|
      invariant 0 <= h <= |base| && 0 <= i <= |index|
      invariant records + Walk(base[h..], index[i..]) == Walk(base, index)
      decreases |base| - h + |index| - i
    {
      WalkUnfolds(base, h, index, i, MoveAt(base, h, index, i));
      var found: seq<StagedRecord>;
      if i == |index| || (h < |base| && Less(base[h].path, index[i].path)) {
        found := [RecordOf(base[h].path, Some(base[h]), None)];
        h := h + 1;
      } else if h == |base| || Less(index[i].path, base[h].path) {
        found := [RecordOf(index[i].path, None, Some(index[i]))];
        i := i + 1;
      } else {
        found := if (base[h].mode, base[h].name) != (index[i].mode, index[i].name)
                 then [RecordOf(base[h].path, Some(base[h]), Some(index[i]))] else [];
        h, i := h + 1, i + 1;
      }
      Regrouped(records, found, Walk(base[h..], index[i..]));
      records := records + found;
    }
  }

  // ---------------------------------------------------------------- what the walk finds

  predicate AllAfter(entries: seq<FileEntry>, path: Bytes) {
    forall i | 0 <= i < |entries| :: Less(path, entries[i].path)
  }

  lemma {:induction false} NothingBefore(entries: seq<FileEntry>, path: Bytes)
    requires AllAfter(entries, path)
    ensures EntryAt(entries, path).None?
  {
    if entries != [] {
      LessIsIrreflexive(path);
      NothingBefore(entries[1..], path);
    }
  }

  lemma TailIsAfter(entries: seq<FileEntry>, path: Bytes)
    requires Increasing(entries) && entries != [] && (path == entries[0].path || Less(path, entries[0].path))
    ensures AllAfter(entries[1..], path) && Increasing(entries[1..])
            && (path != entries[0].path ==> AllAfter(entries, path))
  {
    forall i | 0 < i < |entries| ensures Less(path, entries[i].path) {
      if path != entries[0].path { LessIsTransitive(path, entries[0].path, entries[i].path); }
    }
  }

  /** What is staged at one path: nothing, or both sides as they are. */
  function Difference(base: seq<FileEntry>, index: seq<FileEntry>, path: Bytes): Option<StagedRecord> {
    if EntryAt(base, path) == EntryAt(index, path) then None
    else Some(RecordOf(path, EntryAt(base, path), EntryAt(index, path)))
  }

  lemma SharedPathIsExact(base: seq<FileEntry>, index: seq<FileEntry>, path: Bytes)
    requires base != [] && index != [] && base[0].path == index[0].path && !Less(base[0].path, index[0].path)
    requires path == base[0].path ==> RecordAt(Walk(base[1..], index[1..]), path).None?
    requires path != base[0].path ==> RecordAt(Walk(base[1..], index[1..]), path) == Difference(base, index, path)
    ensures RecordAt(Walk(base, index), path) == Difference(base, index, path)
  {
    var rest := Walk(base[1..], index[1..]);
    if (base[0].mode, base[0].name) != (index[0].mode, index[0].name) {
      var r := RecordOf(base[0].path, Some(base[0]), Some(index[0]));
      assert Walk(base, index) == [r] + rest && ([r] + rest)[1..] == rest;
    } else {
      assert Walk(base, index) == rest && base[0] == index[0];
    }
  }

  lemma {:induction false} WalkIsDifference(base: seq<FileEntry>, index: seq<FileEntry>, path: Bytes)
    requires Increasing(base) && Increasing(index)
    ensures RecordAt(Walk(base, index), path) == Difference(base, index, path)
    decreases |base| + |index|
  {
    if base == [] && index == [] {
    } else if index == [] || (base != [] && Less(base[0].path, index[0].path)) {
      if index != [] { TailIsAfter(index, base[0].path); LessIsIrreflexive(base[0].path); }
      NothingBefore(index, base[0].path);
      WalkIsDifference(base[1..], index, path);
    } else if base == [] || Less(index[0].path, base[0].path) {
      if base != [] { TailIsAfter(base, index[0].path); LessIsIrreflexive(index[0].path); }
      NothingBefore(base, index[0].path);
      WalkIsDifference(base, index[1..], path);
    } else {
      LessIsTotal(base[0].path, index[0].path);
      TailIsAfter(base, base[0].path);
      TailIsAfter(index, index[0].path);
      NothingBefore(base[1..], base[0].path);
      NothingBefore(index[1..], index[0].path);
      WalkIsDifference(base[1..], index[1..], path);
      SharedPathIsExact(base, index, path);
    }
  }

  /** The side of a record says what the list says of the path: its entry's mode and name, or nothing. */
  predicate SideOf(entries: seq<FileEntry>, path: Bytes, mode: Bytes, name: Bytes) {
    if exists e :: e in entries && e.path == path
    then FileEntry(path, mode, name) in entries
    else mode == [] && name == []
  }

  /**
   For every path: a record if and only if some entry of one side is not in the other, and it shows both sides as they
   are, the base on the head side and the index on the index side.
   */
  lemma WalkIsExact(base: seq<FileEntry>, index: seq<FileEntry>, path: Bytes)
    requires Increasing(base) && Increasing(index)
    ensures (exists r :: r in Walk(base, index) && r.path == path) <==>
              exists e: FileEntry :: e.path == path && ((e in base) != (e in index))
    ensures forall r | r in Walk(base, index) && r.path == path ::
              SideOf(base, path, r.headMode, r.headName) && SideOf(index, path, r.indexMode, r.indexName)
  {
    WalkIsDifference(base, index, path);
    WalkIsIncreasing(base, index);
    OneRecordPerPath(Walk(base, index), path);
    OneEntryPerPath(base, path);
    OneEntryPerPath(index, path);
  }

  lemma {:induction false} OneRecordPerPath(records: seq<StagedRecord>, path: Bytes)
    requires RecordsIncreasing(records)
    ensures forall r :: r in records && r.path == path <==> RecordAt(records, path) == Some(r)
  {
    if records != [] {
      OneRecordPerPath(records[1..], path);
      assert records == [records[0]] + records[1..];
      if records[0].path == path {
        NoLaterRecord(records[1..], path);
      }
    }
  }

  lemma {:induction false} OneEntryPerPath(entries: seq<FileEntry>, path: Bytes)
    requires Increasing(entries)
    ensures forall e :: e in entries && e.path == path <==> EntryAt(entries, path) == Some(e)
  {
    if entries != [] {
      OneEntryPerPath(entries[1..], path);
      assert entries == [entries[0]] + entries[1..];
      if entries[0].path == path {
        TailIsAfter(entries, path);
        NothingBefore(entries[1..], path);
      }
    }
  }

  predicate RecordsAfter(records: seq<StagedRecord>, path: Bytes) {
    forall i | 0 <= i < |records| :: Less(path, records[i].path)
  }

  predicate RecordsIncreasing(records: seq<StagedRecord>) {
    forall i, j | 0 <= i < j < |records| :: Less(records[i].path, records[j].path)
  }

  lemma {:induction false} WalkStaysAfter(base: seq<FileEntry>, index: seq<FileEntry>, path: Bytes)
    requires AllAfter(base, path) && AllAfter(index, path)
    ensures RecordsAfter(Walk(base, index), path)
    decreases |base| + |index|
  {
    if base == [] && index == [] {
    } else if index == [] || (base != [] && Less(base[0].path, index[0].path)) {
      WalkStaysAfter(base[1..], index, path);
    } else if base == [] || Less(index[0].path, base[0].path) {
      WalkStaysAfter(base, index[1..], path);
    } else {
      WalkStaysAfter(base[1..], index[1..], path);
    }
  }

  lemma {:induction false} WalkIsIncreasing(base: seq<FileEntry>, index: seq<FileEntry>)
    requires Increasing(base) && Increasing(index)
    ensures RecordsIncreasing(Walk(base, index))
    decreases |base| + |index|
  {
    if base == [] && index == [] {
    } else if index == [] || (base != [] && Less(base[0].path, index[0].path)) {
      if index != [] { TailIsAfter(index, base[0].path); LessIsIrreflexive(base[0].path); }
      TailIsAfter(base, base[0].path);
      WalkStaysAfter(base[1..], index, base[0].path);
      WalkIsIncreasing(base[1..], index);
    } else if base == [] || Less(index[0].path, base[0].path) {
      if base != [] { TailIsAfter(base, index[0].path); LessIsIrreflexive(index[0].path); }
      TailIsAfter(index, index[0].path);
      WalkStaysAfter(base, index[1..], index[0].path);
      WalkIsIncreasing(base, index[1..]);
    } else {
      LessIsTotal(base[0].path, index[0].path);
      TailIsAfter(base, base[0].path);
      TailIsAfter(index, index[0].path);
      WalkStaysAfter(base[1..], index[1..], base[0].path);
      WalkIsIncreasing(base[1..], index[1..]);
    }
  }

  // ---------------------------------------------------------------- applying the records

  datatype Stored = Stored(mode: Bytes, name: Bytes)

  type Tree = map<Bytes, Stored>

  function TreeOf(entries: seq<FileEntry>): Tree {
    if entries == [] then map[] else TreeOf(entries[1..])[entries[0].path := Stored(entries[0].mode, entries[0].name)]
  }

  /** A record without an index side deletes the path; any other sets it. */
  function Patched(tree: Tree, r: StagedRecord): Tree {
    if r.indexMode == [] then tree - {r.path} else tree[r.path := Stored(r.indexMode, r.indexName)]
  }

  function PatchedAll(tree: Tree, records: seq<StagedRecord>): Tree
    decreases |records|
  {
    if records == [] then tree else PatchedAll(Patched(tree, records[0]), records[1..])
  }

  lemma {:induction false} TreeAt(entries: seq<FileEntry>, path: Bytes)
    ensures path in TreeOf(entries) <==> EntryAt(entries, path).Some?
    ensures path in TreeOf(entries) ==>
              TreeOf(entries)[path] == Stored(EntryAt(entries, path).value.mode, EntryAt(entries, path).value.name)
              && EntryAt(entries, path).value.path == path && EntryAt(entries, path).value in entries
  {
    if entries != [] { TreeAt(entries[1..], path); }
  }

  lemma {:induction false} PatchedAt(tree: Tree, records: seq<StagedRecord>, path: Bytes)
    requires RecordsIncreasing(records)
    ensures var r, after := RecordAt(records, path), PatchedAll(tree, records);
            && (r.None? ==> (path in after <==> path in tree) && (path in after ==> after[path] == tree[path]))
            && (r.Some? ==> (path in after <==> r.value.indexMode != [])
                            && (path in after ==> after[path] == Stored(r.value.indexMode, r.value.indexName)))
    decreases |records|
  {
    if records != [] {
      PatchedAt(Patched(tree, records[0]), records[1..], path);
      if records[0].path == path { NoLaterRecord(records[1..], path); }
    }
  }

  lemma {:induction false} NoLaterRecord(records: seq<StagedRecord>, path: Bytes)
    requires RecordsAfter(records, path)
    ensures RecordAt(records, path).None?
  {
    if records != [] {
      LessIsIrreflexive(path);
      NoLaterRecord(records[1..], path);
    }
  }

  /** Applying the staged records to the base gives the index. */
  lemma RecordsTurnBaseIntoIndex(base: seq<FileEntry>, index: seq<FileEntry>)
    requires Increasing(base) && Increasing(index) && RealModes(base) && RealModes(index)
    ensures PatchedAll(TreeOf(base), Walk(base, index)) == TreeOf(index)
  {
    var after := PatchedAll(TreeOf(base), Walk(base, index));
    forall path ensures path in after <==> path in TreeOf(index)
                ensures path in after && path in TreeOf(index) ==> after[path] == TreeOf(index)[path] {
      WalkIsDifference(base, index, path);
      WalkIsIncreasing(base, index);
      PatchedAt(TreeOf(base), Walk(base, index), path);
      TreeAt(base, path);
      TreeAt(index, path);
    }
  }

  /** Nothing is staged exactly when base and index are the same list. */
  lemma {:induction false} NothingStagedIffEqual(base: seq<FileEntry>, index: seq<FileEntry>)
    ensures Walk(base, index) == [] && Increasing(base) && Increasing(index) ==> base == index
    ensures base == index ==> Walk(base, index) == []
    decreases |base| + |index|
  {
    if base != [] && index != [] {
      LessIsTotal(base[0].path, index[0].path);
      LessIsIrreflexive(base[0].path);
      NothingStagedIffEqual(base[1..], index[1..]);
      assert base == [base[0]] + base[1..] && index == [index[0]] + index[1..];
    }
  }
}
