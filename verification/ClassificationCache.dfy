/**
 Scanning the Exchange directory with the ledger as a classification cache. `classify` is what direct
 classification finds in the bytes behind a digest; one resource policy is in force throughout.
 */
module ClassificationCache {
  import opened Prelude
  import opened Bindings
  import opened ExchangeLedger
  import opened LedgerStore

  datatype Classification = Classification(kind: Kind, selection: Option<Selection>)

  type Classifier = string -> Classification

  datatype FileSnapshot = FileSnapshot(identity: Identity, mtime: int)

  datatype Artifact = Artifact(
    identity: Identity, mtime: int, kind: Kind, selection: Option<Selection>, status: Option<Status>)

  /** Only packages carry a manifest binding. */
  ghost predicate Lawful(classify: Classifier) {
    forall sha :: classify(sha).selection.Some? <==> classify(sha).kind == PatchPackage
  }

  function DirectRecord(classify: Classifier, id: Identity): Record {
    Record(id, classify(id.sha256).kind, classify(id.sha256).selection, None, None, None, None)
  }

  /** Every cached classification is the direct one. */
  predicate CacheSound(classify: Classifier, rs: seq<Record>) {
    forall i | 0 <= i < |rs| :: SameClassification(rs[i], DirectRecord(classify, rs[i].identity))
  }

  function ArtifactOf(r: Record, mtime: int): Artifact { Artifact(r.identity, mtime, r.kind, r.manifest, r.status) }

  function StatusIn(rs: seq<Record>, id: Identity): Option<Status> {
    if RecordFor(rs, id).Some? then RecordFor(rs, id).value.status else None
  }

  /** Direct classification of the current bytes, joined with the apply status the ledger has now. */
  function Expected(classify: Classifier, rs: seq<Record>, f: FileSnapshot): Artifact {
    var c := classify(f.identity.sha256);
    Artifact(f.identity, f.mtime, c.kind, c.selection, StatusIn(rs, f.identity))
  }

  /** The artifact shows the file as it is, its direct classification, and the status of its record. */
  predicate Shows(classify: Classifier, rs: seq<Record>, f: FileSnapshot, x: Artifact) {
    && x.identity == f.identity && x.mtime == f.mtime
    && x.kind == classify(f.identity.sha256).kind && x.selection == classify(f.identity.sha256).selection
    && exists r :: r in rs && r.identity == f.identity && x.status == r.status
  }

  lemma ExpectedShows(classify: Classifier, rs: seq<Record>, f: FileSnapshot)
    requires RecordFor(rs, f.identity).Some?
    ensures Shows(classify, rs, f, Expected(classify, rs, f))
  {
    RecordForFinds(rs, f.identity);
  }

  // ---------------------------------------------------------------- soundness over runs

  predicate FromScans(classify: Classifier, op: Op) {
    op.Merge? ==>
      CacheSound(classify, op.candidates) && forall i | 0 <= i < |op.candidates| :: RecordValid(op.candidates[i])
  }

  lemma {:induction false} MergedCacheIsSound(classify: Classifier, rs: seq<Record>, candidates: seq<Record>)
    requires CacheSound(classify, rs) && CacheSound(classify, candidates)
    ensures MergeCandidates(rs, candidates).Ok? && CacheSound(classify, MergeCandidates(rs, candidates).value)
    decreases |candidates|
  {
    if candidates != [] {
      var c := candidates[0];
      RecordForFinds(rs, c.identity);
      assert CacheSound(classify, candidates[1..]);
      MergedCacheIsSound(classify, if RecordFor(rs, c.identity).None? then rs + [c] else rs, candidates[1..]);
    }
  }

  /** Scans, attempts, outcomes, pins and recoveries all keep the cache sound; a scan's merge is never refused. */
  lemma OperationsKeepTheCacheSound(classify: Classifier, rs: seq<Record>, op: Op)
    requires LedgerValid(rs) && CacheSound(classify, rs) && FromScans(classify, op)
    ensures CacheSound(classify, After(rs, op)) && LedgerValid(After(rs, op))
    ensures op.Merge? ==> Apply(rs, op).Ok?
  {
    EveryOperationKeepsTheLedger(rs, op);
    if op.Merge? {
      MergedCacheIsSound(classify, rs, op.candidates);
    } else {
      forall i | 0 <= i < |rs| ensures SameClassification(After(rs, op)[i], DirectRecord(classify, rs[i].identity)) {
        assert LifecycleStep(rs[i], After(rs, op)[i], op);
      }
    }
  }

  lemma {:induction false} RunsKeepTheCacheSound(classify: Classifier, rs: seq<Record>, ops: seq<Op>)
    requires LedgerValid(rs) && CacheSound(classify, rs) && forall i | 0 <= i < |ops| :: FromScans(classify, ops[i])
    ensures CacheSound(classify, Run(rs, ops)) && LedgerValid(Run(rs, ops))
    decreases |ops|
  {
    if ops != [] {
      OperationsKeepTheCacheSound(classify, rs, ops[0]);
      RunsKeepTheCacheSound(classify, After(rs, ops[0]), ops[1..]);
    }
  }

  /** What was cached when a scan began is still known when it merges, with whatever happened in between. */
  lemma CachedIdentitiesStayKnown(rs: seq<Record>, ops: seq<Op>, id: Identity)
    requires LedgerValid(rs) && (forall i | 0 <= i < |ops| :: OpArgumentsValid(ops[i])) && RecordFor(rs, id).Some?
    ensures RecordFor(Run(rs, ops), id).Some?
  {
    RecordForFinds(rs, id);
    var i :| 0 <= i < |rs| && rs[i].identity == id;
    EveryRunKeepsTheLedger(rs, ops);
    RecordForFinds(Run(rs, ops), id);
    assert Run(rs, ops)[i].identity == id;
  }

  lemma {:induction false} UnfoldedMerge(classify: Classifier, rs: seq<Record>, candidates: seq<Record>, c: Record)
    requires CacheSound(classify, rs) && CacheSound(classify, candidates) && c in candidates
    ensures RecordFor(candidates, c.identity).Some? && MergeCandidates(rs, candidates).Ok?
    ensures RecordFor(MergeCandidates(rs, candidates).value, c.identity).Some?
  {
    MergedCacheIsSound(classify, rs, candidates);
    MergeKeepsKnownAndAddsFirst(rs, candidates);
    RecordForFinds(candidates, c.identity);
  }

  // ---------------------------------------------------------------- the scan

  predicate Listed(files: seq<FileSnapshot>, id: Identity) { exists k :: 0 <= k < |files| && files[k].identity == id }

  /** New classifications are direct ones, of scanned files. */
  predicate OfFiles(classify: Classifier, uncached: seq<Record>, files: seq<FileSnapshot>) {
    forall k | 0 <= k < |uncached| ::
      Listed(files, uncached[k].identity) && uncached[k] == DirectRecord(classify, uncached[k].identity)
  }

  /** Look every file up in the ledger as it was at the start; classify the others directly. */
  method CollectArtifacts(classify: Classifier, initial: seq<Record>, files: seq<FileSnapshot>)
    returns (artifacts: seq<Artifact>, uncached: seq<Record>)
    requires Lawful(classify) && LedgerValid(initial) && CacheSound(classify, initial)
    ensures |artifacts| == |files| && forall k | 0 <= k < |files| :: Classified(classify, artifacts[k], files[k])
    ensures CacheSound(classify, uncached)
            && forall k | 0 <= k < |uncached| :: uncached[k].status.None? && RecordValid(uncached[k])
    ensures forall k | 0 <= k < |files| :: Accounted(classify, initial, uncached, files[k].identity)
    ensures OfFiles(classify, uncached, files)
  {
    artifacts, uncached := [], [];
    for i := 0 to |files|
      invariant |artifacts| == i && forall k | 0 <= k < i :: Classified(classify, artifacts[k], files[k])
      invariant CacheSound(classify, uncached)
                && forall k | 0 <= k < |uncached| :: uncached[k].status.None? && RecordValid(uncached[k])
      invariant forall k | 0 <= k < i :: Accounted(classify, initial, uncached, files[k].identity)
      invariant OfFiles(classify, uncached, files)
    {
      var cached := RecordFor(initial, files[i].identity);
      RecordForFinds(initial, files[i].identity);
      if cached.Some? {
        artifacts := artifacts + [ArtifactOf(cached.value, files[i].mtime)];
      } else {
        var record := DirectRecord(classify, files[i].identity);
        uncached := uncached + [record];
        artifacts := artifacts + [ArtifactOf(record, files[i].mtime)];
      }
    }
  }

  /** Join the artifacts with the records the ledger has now. */
  method JoinCurrent(
      classify: Classifier, current: seq<Record>, artifacts: seq<Artifact>, ghost files: seq<FileSnapshot>)
    returns (joined: seq<Artifact>)
    requires CacheSound(classify, current) && |artifacts| == |files|
    requires forall k | 0 <= k < |files| ::
               Classified(classify, artifacts[k], files[k]) && RecordFor(current, files[k].identity).Some?
    ensures |joined| == |files| && forall k | 0 <= k < |files| :: joined[k] == Expected(classify, current, files[k])
  {
    joined := [];
    for i := 0 to |artifacts|
      invariant |joined| == i && forall k | 0 <= k < i :: joined[k] == Expected(classify, current, files[k])
    {
      RecordForFinds(current, artifacts[i].identity);
      var r := RecordFor(current, artifacts[i].identity);
      joined := joined + [ArtifactOf(r.GetOr(RecordFromArtifact(artifacts[i])), artifacts[i].mtime)];
    }
  }

  /**
   One scan: classify with the cache, merge the new classifications into the ledger as it is by then,
   and report from the merged ledger. `between` is everything other processes did to the ledger since
   the scan began.
   */
  method ScanDirectory(
      classify: Classifier, initial: seq<Record>, ghost between: seq<Op>, files: seq<FileSnapshot>, ledger: LedgerFile,
      io: Io)
    returns (reply: Result<seq<Artifact>, Failure>)
    requires Lawful(classify) && LedgerValid(initial) && CacheSound(classify, initial)
    requires forall i | 0 <= i < |between| :: FromScans(classify, between[i])
    requires ledger.Valid() && ledger.records == Run(initial, between)
    modifies ledger
    ensures ledger.Valid() && CacheSound(classify, ledger.records)
    ensures reply.Ok? ==> |reply.value| == |files|
                          && forall i | 0 <= i < |files| ::
                               reply.value[i] == Expected(classify, ledger.records, files[i])
    ensures reply.Ok? ==> forall i | 0 <= i < |files| :: Shows(classify, ledger.records, files[i], reply.value[i])
    ensures reply.Ok? ==> forall id ::
              RecordFor(ledger.records, id) ==
              if RecordFor(old(ledger.records), id).Some? then RecordFor(old(ledger.records), id)
              else if Listed(files, id) then Some(DirectRecord(classify, id))
              else None
    ensures reply.Ok? ==> forall i | 0 <= i < |files| ::
              RecordFor(ledger.records, files[i].identity).Some?
              && StatusIn(ledger.records, files[i].identity) == StatusIn(old(ledger.records), files[i].identity)
    ensures io.lockFree && io.writable ==> reply.Ok?
    ensures reply.Err? ==> reply.error in {Busy, NotWritten} && ledger.records == old(ledger.records)
  {
    RunsKeepTheCacheSound(classify, initial, between);
    var artifacts, uncached := CollectArtifacts(classify, initial, files);
    OperationsKeepTheCacheSound(classify, ledger.records, Merge(uncached));
    var merged := ledger.MergeClassifications(uncached, io);
    if merged.Err? { return Err(merged.error); }
    forall k | 0 <= k < |files|
      ensures RecordFor(merged.value, files[k].identity).Some?
              && StatusIn(merged.value, files[k].identity) == StatusIn(old(ledger.records), files[k].identity)
    {
      MergedStatus(classify, initial, between, uncached, files[k].identity);
    }
    forall k | 0 <= k < |files|
      ensures Shows(classify, merged.value, files[k], Expected(classify, merged.value, files[k]))
    {
      ExpectedShows(classify, merged.value, files[k]);
    }
    MergedLedger(classify, initial, between, uncached, files);
    var joined := JoinCurrent(classify, merged.value, artifacts, files);
    return Ok(joined);
  }

  /** Known at the start, or about to be merged. */
  predicate Accounted(classify: Classifier, initial: seq<Record>, uncached: seq<Record>, id: Identity) {
    RecordFor(initial, id).Some? || DirectRecord(classify, id) in uncached
  }

  function RecordFromArtifact(a: Artifact): Record {
    Record(a.identity, a.kind, a.selection, a.status, None, None, None)
  }

  predicate Classified(classify: Classifier, a: Artifact, f: FileSnapshot) {
    a.identity == f.identity && a.mtime == f.mtime
    && a.kind == classify(f.identity.sha256).kind && a.selection == classify(f.identity.sha256).selection
  }

  /** The merge adds exactly the direct classifications of scanned files that were not known by then. */
  lemma MergedLedger(
      classify: Classifier, initial: seq<Record>, between: seq<Op>, uncached: seq<Record>, files: seq<FileSnapshot>)
    requires LedgerValid(initial) && CacheSound(classify, initial)
    requires forall i | 0 <= i < |between| :: FromScans(classify, between[i])
    requires CacheSound(classify, uncached) && OfFiles(classify, uncached, files)
    requires forall k | 0 <= k < |files| :: Accounted(classify, initial, uncached, files[k].identity)
    ensures var before := Run(initial, between);
            MergeCandidates(before, uncached).Ok?
            && forall id ::
                 RecordFor(MergeCandidates(before, uncached).value, id) ==
                 if RecordFor(before, id).Some? then RecordFor(before, id)
                 else if Listed(files, id) then Some(DirectRecord(classify, id)) else None
  {
    var before := Run(initial, between);
    RunsKeepTheCacheSound(classify, initial, between);
    MergedCacheIsSound(classify, before, uncached);
    MergeKeepsKnownAndAddsFirst(before, uncached);
    forall id | RecordFor(before, id).None?
      ensures RecordFor(uncached, id) == if Listed(files, id) then Some(DirectRecord(classify, id)) else None
    {
      RecordForFinds(uncached, id);
      if RecordFor(initial, id).Some? { CachedIdentitiesStayKnown(initial, between, id); }
      if Listed(files, id) {
        var k :| 0 <= k < |files| && files[k].identity == id;
        assert Accounted(classify, initial, uncached, files[k].identity);
      }
    }
  }

  /** After the merge every scanned identity is known, with the status it had just before. */
  lemma MergedStatus(classify: Classifier, initial: seq<Record>, between: seq<Op>, uncached: seq<Record>, id: Identity)
    requires LedgerValid(initial) && CacheSound(classify, initial)
    requires forall i | 0 <= i < |between| :: FromScans(classify, between[i])
    requires CacheSound(classify, uncached) && forall k | 0 <= k < |uncached| :: uncached[k].status.None?
    requires Accounted(classify, initial, uncached, id)
    ensures var before := Run(initial, between);
            MergeCandidates(before, uncached).Ok?
            && RecordFor(MergeCandidates(before, uncached).value, id).Some?
            && StatusIn(MergeCandidates(before, uncached).value, id) == StatusIn(before, id)
  {
    var before := Run(initial, between);
    RunsKeepTheCacheSound(classify, initial, between);
    MergedCacheIsSound(classify, before, uncached);
    MergeKeepsKnownAndAddsFirst(before, uncached);
    RecordForFinds(uncached, id);
    if RecordFor(initial, id).Some? {
      CachedIdentitiesStayKnown(initial, between, id);
    } else {
      UnfoldedMerge(classify, before, uncached, DirectRecord(classify, id));
    }
  }
}
