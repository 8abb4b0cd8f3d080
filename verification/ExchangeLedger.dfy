/**
 The persistent Exchange ledger: one record per (path, SHA-256) identity, and the five
 operations that rewrite it. `Apply` is the value-level meaning of an operation;
 the class `LedgerFile` performs each operation on the stored document.
 */
module ExchangeLedger {
  import opened Prelude
  import opened Bindings

  datatype Identity = Identity(path: string, sha256: string)

  datatype Status = Attempted | Failed | Succeeded

  datatype Record = Record(
    identity: Identity, kind: Kind, manifest: Option<Selection>,
    status: Option<Status>, completedCommit: Option<CommitId>,
    runId: Option<string>, resultSha: Option<string>)

  /** The constructor checks of one record. */
  predicate RecordValid(r: Record) {
    && (r.manifest.Some? <==> r.kind == PatchPackage)
    && (r.status.Some? ==> r.kind == PatchPackage)
    && (r.runId.Some? ==> r.status.Some? && IsCanonicalUuid4(r.runId.value))
    && (r.resultSha.Some? ==>
          IsSha256(r.resultSha.value) && r.runId.Some? && r.status in {Some(Attempted), Some(Succeeded)})
    && (r.completedCommit.Some? ==>
          && r.status == Some(Succeeded) && r.manifest.Some?
          && r.completedCommit.value.format == r.manifest.value.baseCommit.format
          && r.completedCommit.value != r.manifest.value.baseCommit)
  }

  predicate SameClassification(a: Record, b: Record) {
    a.identity == b.identity && a.kind == b.kind && a.manifest == b.manifest
  }

  predicate UniqueIdentities(rs: seq<Record>) {
    forall i, j | 0 <= i < j < |rs| :: rs[i].identity != rs[j].identity
  }

  predicate LedgerValid(rs: seq<Record>) {
    UniqueIdentities(rs) && forall i | 0 <= i < |rs| :: RecordValid(rs[i])
  }

  function RecordFor(rs: seq<Record>, id: Identity): Option<Record> {
    if rs == [] then None
    else if rs[0].identity == id then Some(rs[0])
    else RecordFor(rs[1..], id)
  }

  /** Every record with the given identity is exchanged for `r`. */
  function Replaced(rs: seq<Record>, id: Identity, r: Record): (out: seq<Record>)
    ensures |out| == |rs|
    ensures forall i | 0 <= i < |rs| :: out[i] == if rs[i].identity == id then r else rs[i]
  {
    seq(|rs|, i requires 0 <= i < |rs| => if rs[i].identity == id then r else rs[i])
  }

  datatype Op =
    | Merge(candidates: seq<Record>)
    | Start(identity: Identity, selection: Selection, retryFailed: bool, explicit: bool, runId: Option<string>)
    | Finish(identity: Identity, selection: Selection, outcome: Status, commit: Option<CommitId>, runId: Option<string>)
    | Pin(identity: Identity, selection: Selection, pinRun: string, sha256: string)
    | Recover(expected: Record, completed: CommitId)

  datatype Refusal =
    | ClassificationConflict | NoMatchingState | AlreadyAttempted | NoActiveAttempt
    | ForeignResult | AttemptChanged | InvalidArgument

  type Answer = Result<seq<Record>, Refusal>

  function MergeCandidates(rs: seq<Record>, candidates: seq<Record>): Answer
    decreases |candidates|
  {
    if candidates == [] then Ok(rs)
    else
      match RecordFor(rs, candidates[0].identity)
      case None => MergeCandidates(rs + [candidates[0]], candidates[1..])
      case Some(existing) =>
        if SameClassification(existing, candidates[0]) then MergeCandidates(rs, candidates[1..])
        else Err(ClassificationConflict)
  }

  predicate HasPatchState(rs: seq<Record>, id: Identity, selection: Selection) {
    var r := RecordFor(rs, id);
    r.Some? && r.value.kind == PatchPackage && r.value.manifest == Some(selection)
  }

  /** Publishing a record that fails its constructor checks raises before anything is written. */
  function Publish(rs: seq<Record>, r: Record): Answer {
    if RecordValid(r) then Ok(Replaced(rs, r.identity, r)) else Err(InvalidArgument)
  }

  /** What an accepted lifecycle operation makes of the record it names. */
  function Updated(r: Record, op: Op): Record {
    match op
    case Merge(_) => r
    case Start(_, _, _, _, runId) =>
      r.(status := Some(Attempted), completedCommit := None, runId := runId, resultSha := None)
    case Finish(_, _, outcome, commit, _) =>
      r.(status := Some(outcome), completedCommit := commit,
          resultSha := if outcome == Succeeded then r.resultSha else None)
    case Pin(_, _, _, sha) => r.(resultSha := Some(sha))
    case Recover(_, completed) => r.(status := Some(Succeeded), completedCommit := Some(completed))
  }

  function Apply(rs: seq<Record>, op: Op): Answer {
    match op
    case Merge(candidates) => MergeCandidates(rs, candidates)
    case Start(id, selection, retryFailed, explicit, _) =>
      if !HasPatchState(rs, id, selection) then Err(NoMatchingState)
      else
        var r := RecordFor(rs, id).value;
        if r.status.Some? && !(retryFailed && r.status == Some(Failed)) && !explicit then Err(AlreadyAttempted)
        else Publish(rs, Updated(r, op))
    case Finish(id, selection, outcome, _, runId) =>
      if outcome == Attempted then Err(InvalidArgument)
      else if !HasPatchState(rs, id, selection) then Err(NoMatchingState)
      else
        var r := RecordFor(rs, id).value;
        if r.status != Some(Attempted) || r.runId != runId then Err(NoActiveAttempt)
        else Publish(rs, Updated(r, op))
    case Pin(id, selection, pinRun, sha) =>
      if !IsSha256(sha) || !IsCanonicalUuid4(pinRun) then Err(InvalidArgument)
      else if RecordFor(rs, id).None? then Err(ForeignResult)
      else
        var r := RecordFor(rs, id).value;
        if r.manifest != Some(selection) || r.status != Some(Attempted)
           || r.runId != Some(pinRun) || r.resultSha !in {None, Some(sha)} then Err(ForeignResult)
        else Publish(rs, Updated(r, op))
    case Recover(expected, completed) =>
      if expected.status != Some(Attempted) || expected.runId.None? || expected.resultSha.None? then Err(AttemptChanged)
      else if RecordFor(rs, expected.identity) != Some(expected) then Err(AttemptChanged)
      else Publish(rs, Updated(expected, op))
  }

  /** The stored document after an operation: unchanged when the operation was refused. */
  function After(rs: seq<Record>, op: Op): seq<Record> {
    match Apply(rs, op)
    case Ok(next) => next
    case Err(_) => rs
  }

  // ---------------------------------------------------------------- lookups

  lemma {:induction false} RecordForFinds(rs: seq<Record>, id: Identity)
    ensures RecordFor(rs, id).Some? <==> exists i :: 0 <= i < |rs| && rs[i].identity == id
    ensures RecordFor(rs, id).Some? ==> RecordFor(rs, id).value in rs && RecordFor(rs, id).value.identity == id
    ensures UniqueIdentities(rs) ==>
              forall i | 0 <= i < |rs| && rs[i].identity == id :: RecordFor(rs, id) == Some(rs[i])
  {
    if rs != [] {
      RecordForFinds(rs[1..], id);
      assert rs == [rs[0]] + rs[1..];
      if exists i :: 0 <= i < |rs| && rs[i].identity == id {
        var i :| 0 <= i < |rs| && rs[i].identity == id;
        assert i > 0 ==> rs[1..][i - 1].identity == id;
      }
      forall i | UniqueIdentities(rs) && 0 <= i < |rs| && rs[i].identity == id
        ensures RecordFor(rs, id) == Some(rs[i])
      {
        if i > 0 { assert rs[1..][i - 1] == rs[i]; }
      }
    }
  }

  lemma {:induction false} ReplacedLookup(rs: seq<Record>, r: Record, id: Identity)
    ensures RecordFor(Replaced(rs, r.identity, r), id) ==
            if id == r.identity && RecordFor(rs, id).Some? then Some(r) else RecordFor(rs, id)
  {
    if rs != [] {
      assert Replaced(rs, r.identity, r)[1..] == Replaced(rs[1..], r.identity, r);
      ReplacedLookup(rs[1..], r, id);
    }
  }

  lemma {:induction false} AppendLookup(rs: seq<Record>, r: Record, id: Identity)
    ensures RecordFor(rs + [r], id) ==
            if RecordFor(rs, id).Some? then RecordFor(rs, id) else if id == r.identity then Some(r) else None
  {
    if rs == [] {
      assert rs + [r] == [r];
    } else {
      assert (rs + [r])[1..] == rs[1..] + [r];
      AppendLookup(rs[1..], r, id);
    }
  }

  // ---------------------------------------------------------------- merge

  /** A merge only appends: known identities keep their record, a new one gets its first candidate. */
  lemma {:induction false} MergeKeepsKnownAndAddsFirst(rs: seq<Record>, candidates: seq<Record>)
    requires MergeCandidates(rs, candidates).Ok?
    ensures var next := MergeCandidates(rs, candidates).value;
            && |rs| <= |next| && next[..|rs|] == rs
            && forall id :: RecordFor(next, id) ==
                 if RecordFor(rs, id).Some? then RecordFor(rs, id) else RecordFor(candidates, id)
    decreases |candidates|
  {
    if candidates != [] {
      var c := candidates[0];
      var mid := if RecordFor(rs, c.identity).None? then rs + [c] else rs;
      MergeKeepsKnownAndAddsFirst(mid, candidates[1..]);
      forall id ensures RecordFor(mid, id) == if RecordFor(rs, id).Some? then RecordFor(rs, id)
                                              else if id == c.identity then Some(c) else None {
        AppendLookup(rs, c, id);
      }
      var next := MergeCandidates(rs, candidates).value;
      assert next[..|rs|] == next[..|mid|][..|rs|];
    }
  }

  predicate Claims(rs: seq<Record>, candidates: seq<Record>, r: Record) { r in rs || r in candidates }

  /** Some candidate is claimed twice with different classifications. */
  ghost predicate Conflicts(rs: seq<Record>, candidates: seq<Record>) {
    exists c, r :: c in candidates && Claims(rs, candidates, r) && c.identity == r.identity && !SameClassification(c, r)
  }

  /** A known identity agrees with its candidate: the candidate can be dropped. */
  lemma AgreeingCandidateIsRedundant(rs: seq<Record>, c: Record, rest: seq<Record>, e: Record)
    requires UniqueIdentities(rs) && e in rs && SameClassification(e, c)
    ensures Conflicts(rs, [c] + rest) <==> Conflicts(rs, rest)
  {
    if Conflicts(rs, [c] + rest) {
      var d, r :| d in [c] + rest && Claims(rs, [c] + rest, r) && d.identity == r.identity && !SameClassification(d, r);
      if d in rest {
        assert Claims(rs, rest, if r == c then e else r);
      } else if r in rest {
        assert Claims(rs, rest, e) && !SameClassification(r, e);
      }
    }
    if Conflicts(rs, rest) {
      var d, r :| d in rest && Claims(rs, rest, r) && d.identity == r.identity && !SameClassification(d, r);
      assert d in [c] + rest && Claims(rs, [c] + rest, r);
    }
  }

  /** An unknown identity: the candidate becomes a record. */
  lemma NewCandidateBecomesKnown(rs: seq<Record>, c: Record, rest: seq<Record>)
    requires forall r | r in rs :: r.identity != c.identity
    ensures Conflicts(rs, [c] + rest) <==> Conflicts(rs + [c], rest)
  {
    if Conflicts(rs, [c] + rest) {
      var d, r :| d in [c] + rest && Claims(rs, [c] + rest, r) && d.identity == r.identity && !SameClassification(d, r);
      if d in rest {
        assert Claims(rs + [c], rest, r);
      } else {
        assert Claims(rs + [c], rest, c) && !SameClassification(r, c);
      }
    }
    if Conflicts(rs + [c], rest) {
      var d, r :| d in rest && Claims(rs + [c], rest, r) && d.identity == r.identity && !SameClassification(d, r);
      assert d in [c] + rest && Claims(rs, [c] + rest, r);
    }
  }

  /** A merge is refused exactly when one identity is claimed with two classifications. */
  lemma {:induction false} MergeRefusedIffConflict(rs: seq<Record>, candidates: seq<Record>)
    requires UniqueIdentities(rs)
    ensures MergeCandidates(rs, candidates).Err? <==> Conflicts(rs, candidates)
    decreases |candidates|
  {
    if candidates != [] {
      var c, rest := candidates[0], candidates[1..];
      RecordForFinds(rs, c.identity);
      assert candidates == [c] + rest;
      match RecordFor(rs, c.identity)
      case None =>
        NewCandidateBecomesKnown(rs, c, rest);
        MergeRefusedIffConflict(rs + [c], rest);
      case Some(e) =>
        if SameClassification(e, c) {
          AgreeingCandidateIsRedundant(rs, c, rest, e);
          MergeRefusedIffConflict(rs, rest);
        } else {
          assert Claims(rs, candidates, e);
        }
    }
  }

  lemma {:induction false} MergeKeepsValidity(rs: seq<Record>, candidates: seq<Record>)
    requires LedgerValid(rs)
    requires forall i | 0 <= i < |candidates| :: RecordValid(candidates[i])
    requires MergeCandidates(rs, candidates).Ok?
    ensures LedgerValid(MergeCandidates(rs, candidates).value)
    decreases |candidates|
  {
    if candidates != [] {
      RecordForFinds(rs, candidates[0].identity);
      MergeKeepsValidity(if RecordFor(rs, candidates[0].identity).None? then rs + [candidates[0]] else rs,
          candidates[1..]);
    }
  }

  // ---------------------------------------------------------------- one operation

  predicate OpArgumentsValid(op: Op) {
    op.Merge? ==> forall i | 0 <= i < |op.candidates| :: RecordValid(op.candidates[i])
  }

  /** The one identity a lifecycle operation may touch. */
  function Target(op: Op): Option<Identity> {
    match op
    case Merge(_) => None
    case Start(id, _, _, _, _) => Some(id)
    case Finish(id, _, _, _, _) => Some(id)
    case Pin(id, _, _, _) => Some(id)
    case Recover(expected, _) => Some(expected.identity)
  }

  /** What one step may do to the record of one identity. */
  predicate LifecycleStep(before: Record, after: Record, op: Op) {
    && SameClassification(before, after)
    && (before != after ==> Target(op) == Some(before.identity))
    && (before.status == after.status || (
          match (before.status, after.status)
          case (None, Some(Attempted)) => op.Start?
          case (Some(Attempted), Some(Failed)) => op.Finish? && op.runId == before.runId
          case (Some(Attempted), Some(Succeeded)) => (op.Finish? && op.runId == before.runId)
            || (op.Recover? && op.expected == before)
          case (Some(Failed), Some(Attempted)) => op.Start? && (op.retryFailed || op.explicit)
          case (Some(Succeeded), Some(Attempted)) => op.Start? && op.explicit
          case _ => false))
    && (before.runId != after.runId ==> op.Start? && after.runId == op.runId && after.resultSha.None?)
    && (after.resultSha.Some? && after.resultSha != before.resultSha ==>
          op.Pin? && before.status == Some(Attempted) && before.runId == Some(op.pinRun)
          && before.resultSha.None? && after.resultSha == Some(op.sha256))
  }

  /** How the ledger reads after an accepted lifecycle operation. */
  lemma LifecycleEffect(rs: seq<Record>, op: Op)
    requires LedgerValid(rs) && !op.Merge? && Apply(rs, op).Ok?
    ensures var t, next := Target(op).value, Apply(rs, op).value;
            && RecordFor(rs, t).Some? && RecordFor(rs, t).value.identity == t
            && RecordFor(next, t) == Some(Updated(RecordFor(rs, t).value, op))
            && RecordValid(Updated(RecordFor(rs, t).value, op))
            && LifecycleStep(RecordFor(rs, t).value, Updated(RecordFor(rs, t).value, op), op)
            && next == Replaced(rs, t, Updated(RecordFor(rs, t).value, op))
            && forall id :: id != t ==> RecordFor(next, id) == RecordFor(rs, id)
  {
    var t := Target(op).value;
    RecordForFinds(rs, t);
    var after := Updated(RecordFor(rs, t).value, op);
    assert Apply(rs, op) == Publish(rs, after) && RecordValid(after);
    forall id ensures RecordFor(Apply(rs, op).value, id) == if id == t then Some(after) else RecordFor(rs, id) {
      ReplacedLookup(rs, after, id);
    }
  }

  /**
   Every operation, accepted or refused: the document stays valid, no identity is dropped, recorded
   classifications stay, and at most one record changes, along the lifecycle only.
   */
  lemma EveryOperationKeepsTheLedger(rs: seq<Record>, op: Op)
    requires LedgerValid(rs) && OpArgumentsValid(op)
    ensures LedgerValid(After(rs, op))
    ensures |rs| <= |After(rs, op)|
    ensures forall i | 0 <= i < |rs| :: LifecycleStep(rs[i], After(rs, op)[i], op)
    ensures forall i, j | 0 <= i < |rs| && 0 <= j < |rs| && rs[i] != After(rs, op)[i] && rs[j] != After(rs, op)[j] ::
              i == j
    ensures Target(op).Some? ==> |After(rs, op)| == |rs|
  {
    if Apply(rs, op).Ok? {
      if op.Merge? {
        MergeKeepsValidity(rs, op.candidates);
        MergeKeepsKnownAndAddsFirst(rs, op.candidates);
        var next := After(rs, op);
        assert forall i | 0 <= i < |rs| :: next[i] == next[..|rs|][i];
      } else {
        LifecycleEffect(rs, op);
        forall i | 0 <= i < |rs| ensures LifecycleStep(rs[i], After(rs, op)[i], op) {
          RecordForFinds(rs, rs[i].identity);
        }
      }
    }
  }

  /**
   Exactly which attempts the ledger lets start: fresh ones, failed ones on request, and any on an explicit
   request.
   */
  lemma AttemptStartsExactlyWhen(
      rs: seq<Record>, id: Identity, selection: Selection, retryFailed: bool, explicit: bool, runId: Option<string>)
    requires LedgerValid(rs)
    ensures Apply(rs, Start(id, selection, retryFailed, explicit, runId)).Ok? <==>
              && (runId.Some? ==> IsCanonicalUuid4(runId.value))
              && exists i ::
                   0 <= i < |rs| && rs[i].identity == id && rs[i].kind == PatchPackage
                   && rs[i].manifest == Some(selection)
                             && (rs[i].status.None? || (rs[i].status == Some(Failed) && retryFailed) || explicit)
    ensures var answer := Apply(rs, Start(id, selection, retryFailed, explicit, runId));
            answer.Ok? ==> |answer.value| == |rs| && forall i | 0 <= i < |rs| ::
              answer.value[i] ==
              if rs[i].identity != id then rs[i]
              else rs[i].(status := Some(Attempted), completedCommit := None, runId := runId, resultSha := None)
  {
    RecordForFinds(rs, id);
  }

  /** One record of the document, by the fields an operation compares. */
  predicate Holds(r: Record, id: Identity, manifest: Option<Selection>, status: Option<Status>, runId: Option<string>) {
    r.identity == id && r.manifest == manifest && r.status == status && r.runId == runId
  }

  /** A completion commit is recorded only with a success, in the format of the base, and differs from it. */
  predicate FitsBase(commit: Option<CommitId>, outcome: Status, base: CommitId) {
    commit.Some? ==> outcome == Succeeded && commit.value.format == base.format && commit.value != base
  }

  /** Exactly which outcomes the ledger takes: those of the current run of that package and binding. */
  lemma OutcomeIsTakenExactlyWhen(
      rs: seq<Record>, id: Identity, selection: Selection, outcome: Status, commit: Option<CommitId>,
      runId: Option<string>)
    requires LedgerValid(rs)
    ensures var answer := Apply(rs, Finish(id, selection, outcome, commit, runId));
            && (answer.Ok? <==> outcome != Attempted && FitsBase(commit, outcome, selection.baseCommit)
                                && exists i ::
                                  0 <= i < |rs| && Holds(rs[i], id, Some(selection), Some(Attempted), runId))
            && (answer.Ok? ==> |answer.value| == |rs| && forall i | 0 <= i < |rs| ::
                  answer.value[i] ==
                  if rs[i].identity != id then rs[i]
                  else rs[i].(status := Some(outcome), completedCommit := commit,
                              resultSha := if outcome == Succeeded then rs[i].resultSha else None))
  {
    RecordForFinds(rs, id);
  }

  /** Exactly which digests the ledger pins: well-formed ones, for the current run, and never a second one. */
  lemma DigestIsPinnedExactlyWhen(rs: seq<Record>, id: Identity, selection: Selection, runId: string, sha: string)
    requires LedgerValid(rs)
    ensures var answer := Apply(rs, Pin(id, selection, runId, sha));
            && (answer.Ok? <==> IsSha256(sha) && exists i ::
                  && 0 <= i < |rs| && Holds(rs[i], id, Some(selection), Some(Attempted), Some(runId))
                  && (rs[i].resultSha.None? || rs[i].resultSha == Some(sha)))
            && (answer.Ok? ==> |answer.value| == |rs| && forall i | 0 <= i < |rs| ::
                  answer.value[i] == if rs[i].identity != id then rs[i] else rs[i].(resultSha := Some(sha)))
  {
    RecordForFinds(rs, id);
  }

  /** Exactly which attempts are swapped: those stored as expected, down to every field, with a pinned digest. */
  lemma AttemptIsSwappedExactlyWhen(rs: seq<Record>, expected: Record, completed: CommitId)
    requires LedgerValid(rs)
    ensures var answer := Apply(rs, Recover(expected, completed));
            && (answer.Ok? <==>
                  && expected in rs && expected.status == Some(Attempted) && expected.runId.Some?
                  && expected.resultSha.Some? && expected.manifest.Some?
                  && FitsBase(Some(completed), Succeeded, expected.manifest.value.baseCommit))
            && (answer.Ok? ==> |answer.value| == |rs| && forall i | 0 <= i < |rs| ::
                  answer.value[i] ==
                  if rs[i] != expected then rs[i]
                  else rs[i].(status := Some(Succeeded), completedCommit := Some(completed)))
  {
    RecordForFinds(rs, expected.identity);
  }

  // ---------------------------------------------------------------- whole runs

  function Run(rs: seq<Record>, ops: seq<Op>): seq<Record>
    decreases |ops|
  {
    if ops == [] then rs else Run(After(rs, ops[0]), ops[1..])
  }

  /**
   Over any sequence of operations: validity is kept, every identity keeps its position and its
   classification, and an identity that was ever attempted never reads as fresh again.
   */
  lemma {:induction false} EveryRunKeepsTheLedger(rs: seq<Record>, ops: seq<Op>)
    requires LedgerValid(rs) && forall i | 0 <= i < |ops| :: OpArgumentsValid(ops[i])
    ensures LedgerValid(Run(rs, ops)) && |rs| <= |Run(rs, ops)|
    ensures forall i | 0 <= i < |rs| ::
              && SameClassification(rs[i], Run(rs, ops)[i])
              && (rs[i].status.Some? ==> Run(rs, ops)[i].status.Some?)
    decreases |ops|
  {
    if ops != [] {
      EveryOperationKeepsTheLedger(rs, ops[0]);
      EveryRunKeepsTheLedger(After(rs, ops[0]), ops[1..]);
      var mid := After(rs, ops[0]);
      forall i | 0 <= i < |rs|
        ensures SameClassification(rs[i], Run(rs, ops)[i]) && (rs[i].status.Some? ==> Run(rs, ops)[i].status.Some?)
      {
        assert LifecycleStep(rs[i], mid[i], ops[0]);
      }
    }
  }

  /** Success is final unless a later operation selects the package explicitly. */
  lemma {:induction false} SuccessIsLeftOnlyByExplicitSelection(rs: seq<Record>, ops: seq<Op>, i: nat)
    requires LedgerValid(rs) && forall k | 0 <= k < |ops| :: OpArgumentsValid(ops[k])
    requires i < |rs| && rs[i].status == Some(Succeeded)
    requires forall k | 0 <= k < |ops| :: ops[k].Start? && ops[k].identity == rs[i].identity ==> !ops[k].explicit
    ensures |rs| <= |Run(rs, ops)| && Run(rs, ops)[i] == rs[i]
    decreases |ops|
  {
    if ops != [] {
      var mid := After(rs, ops[0]);
      EveryOperationKeepsTheLedger(rs, ops[0]);
      assert LifecycleStep(rs[i], mid[i], ops[0]);
      RecordForFinds(rs, rs[i].identity);
      assert mid[i] == rs[i];
      SuccessIsLeftOnlyByExplicitSelection(mid, ops[1..], i);
    }
  }
}
