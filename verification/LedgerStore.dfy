/**
 The stored ledger document. Each method is one locked read-check-write cycle; `Io` says which of
 its outside conditions hold. A call succeeds exactly if the lock is free, its verification succeeds, the ledger takes
 the operation and the document can be written; any other call leaves the document as it was.
 */
module LedgerStore {
  import opened Prelude
  import opened Bindings
  import opened ExchangeLedger

  datatype Failure = Busy | NotVerified | NotWritten | Refused(why: Refusal)

  /** Lock free, caller's verification succeeds, atomic replacement succeeds. */
  datatype Io = Io(lockFree: bool, verified: bool, writable: bool)

  /** The reply an operation must give, from the document alone and the outside conditions. */
  function Reply(rs: seq<Record>, op: Op, io: Io): Result<seq<Record>, Failure> {
    if op.Recover? && (op.expected.status != Some(Attempted) || op.expected.runId.None? || op.expected.resultSha.None?)
    then Err(Refused(AttemptChanged))
    else if op.Finish? && op.outcome == Attempted then Err(Refused(InvalidArgument))
    else if op.Pin? && !(IsSha256(op.sha256) && IsCanonicalUuid4(op.pinRun)) then Err(Refused(InvalidArgument))
    else if !io.lockFree then Err(Busy)
    else if op.Start? && !io.verified then Err(NotVerified)
    else if op.Recover? && RecordFor(rs, op.expected.identity) != Some(op.expected) then Err(Refused(AttemptChanged))
    else if op.Recover? && !io.verified then Err(NotVerified)
    else if Apply(rs, op).Err? then Err(Refused(Apply(rs, op).error))
    else if (op.Merge? ==> Apply(rs, op).value != rs) && !io.writable then Err(NotWritten)
    else Ok(Apply(rs, op).value)
  }

  class LedgerFile {
    var records: seq<Record>

    ghost predicate Valid()
      reads this
    {
      LedgerValid(records)
    }

    constructor ()
      ensures Valid() && records == []
    {
      records := [];
    }

    method MergeClassifications(pending: seq<Record>, io: Io) returns (reply: Result<seq<Record>, Failure>)
      requires Valid() && forall i | 0 <= i < |pending| :: RecordValid(pending[i])
      modifies this
      ensures Valid()
      ensures reply == Reply(old(records), Merge(pending), io)
      ensures reply.Ok? <==>
                && io.lockFree && Apply(old(records), Merge(pending)).Ok?
                && (Apply(old(records), Merge(pending)).value != old(records) ==> io.writable)
      ensures reply.Ok? ==> records == reply.value == Apply(old(records), Merge(pending)).value
      ensures reply.Err? ==> records == old(records)
    {
      if !io.lockFree { return Err(Busy); }
      var known := records;
      var changed := false;
      for i := 0 to |pending|
        invariant records == old(records)
        invariant MergeCandidates(records, pending) == MergeCandidates(known, pending[i..])
        invariant |records| <= |known| && known[..|records|] == records && (changed <==> known != records)
      {
        assert pending[i..][1..] == pending[i + 1..];
        var existing := RecordFor(known, pending[i].identity);
        if existing.None? {
          known := known + [pending[i]];
          changed := true;
        } else if !SameClassification(existing.value, pending[i]) {
          return Err(Refused(ClassificationConflict));
        }
      }
      EveryOperationKeepsTheLedger(records, Merge(pending));
      if changed {
        if !io.writable { return Err(NotWritten); }
        records := known;
      }
      return Ok(known);
    }

    method ApplyStarted(
        id: Identity, selection: Selection, retryFailed: bool, explicit: bool, runId: Option<string>, io: Io)
      returns (reply: Result<seq<Record>, Failure>)
      requires Valid()
      modifies this
      ensures Valid()
      ensures reply == Reply(old(records), Start(id, selection, retryFailed, explicit, runId), io)
      ensures reply.Ok? <==>
                && io.lockFree && io.verified && io.writable
                && Apply(old(records), Start(id, selection, retryFailed, explicit, runId)).Ok?
      ensures reply.Ok? ==>
                records == reply.value
                == Apply(old(records), Start(id, selection, retryFailed, explicit, runId)).value
      ensures reply.Err? ==> records == old(records)
    {
      if !io.lockFree { return Err(Busy); }
      if !io.verified { return Err(NotVerified); }
      var record := RecordFor(records, id);
      if record.None? || record.value.kind != PatchPackage || record.value.manifest != Some(selection) {
        return Err(Refused(NoMatchingState));
      }
      var retrying := retryFailed && record.value.status == Some(Failed);
      if record.value.status.Some? && !retrying && !explicit { return Err(Refused(AlreadyAttempted)); }
      reply := Write(record.value.(status := Some(Attempted), completedCommit := None, runId := runId,
            resultSha := None), io);
    }

    method ApplyFinished(
        id: Identity, selection: Selection, outcome: Status, commit: Option<CommitId>, runId: Option<string>, io: Io)
      returns (reply: Result<seq<Record>, Failure>)
      requires Valid()
      modifies this
      ensures Valid()
      ensures reply == Reply(old(records), Finish(id, selection, outcome, commit, runId), io)
      ensures reply.Ok? <==>
                io.lockFree && io.writable && Apply(old(records), Finish(id, selection, outcome, commit, runId)).Ok?
      ensures reply.Ok? ==>
                records == reply.value == Apply(old(records), Finish(id, selection, outcome, commit, runId)).value
      ensures reply.Err? ==> records == old(records)
    {
      if outcome == Attempted { return Err(Refused(InvalidArgument)); }
      if !io.lockFree { return Err(Busy); }
      var record := RecordFor(records, id);
      if record.None? || record.value.kind != PatchPackage || record.value.manifest != Some(selection) {
        return Err(Refused(NoMatchingState));
      }
      if record.value.status != Some(Attempted) || record.value.runId != runId { return Err(Refused(NoActiveAttempt)); }
      var pinned := if outcome == Succeeded then record.value.resultSha else None;
      reply := Write(record.value.(status := Some(outcome), completedCommit := commit, resultSha := pinned), io);
    }

    method ResultDigestRecorded(id: Identity, selection: Selection, runId: string, sha: string, io: Io)
      returns (reply: Result<seq<Record>, Failure>)
      requires Valid()
      modifies this
      ensures Valid()
      ensures reply == Reply(old(records), Pin(id, selection, runId, sha), io)
      ensures reply.Ok? <==>
                io.lockFree && io.writable && Apply(old(records), Pin(id, selection, runId, sha)).Ok?
      ensures reply.Ok? ==> records == reply.value == Apply(old(records), Pin(id, selection, runId, sha)).value
      ensures reply.Err? ==> records == old(records)
    {
      if !(IsSha256(sha) && IsCanonicalUuid4(runId)) { return Err(Refused(InvalidArgument)); }
      if !io.lockFree { return Err(Busy); }
      var record := RecordFor(records, id);
      if record.None? || record.value.manifest != Some(selection) || record.value.status != Some(Attempted)
         || record.value.runId != Some(runId) || record.value.resultSha !in {None, Some(sha)} {
        return Err(Refused(ForeignResult));
      }
      reply := Write(record.value.(resultSha := Some(sha)), io);
    }

    /** Compare-and-swap of one proven orphan. */
    method RecoveredFinished(expected: Record, completed: CommitId, io: Io)
      returns (reply: Result<seq<Record>, Failure>)
      requires Valid()
      modifies this
      ensures Valid()
      ensures reply == Reply(old(records), Recover(expected, completed), io)
      ensures reply.Ok? <==>
                io.lockFree && io.verified && io.writable && Apply(old(records), Recover(expected, completed)).Ok?
      ensures reply.Ok? ==> records == reply.value == Apply(old(records), Recover(expected, completed)).value
      ensures reply.Err? ==> records == old(records)
    {
      if expected.status != Some(Attempted) || expected.runId.None? || expected.resultSha.None? {
        return Err(Refused(AttemptChanged));
      }
      if !io.lockFree { return Err(Busy); }
      if RecordFor(records, expected.identity) != Some(expected) { return Err(Refused(AttemptChanged)); }
      if !io.verified { return Err(NotVerified); }
      reply := Write(expected.(status := Some(Succeeded), completedCommit := Some(completed)), io);
    }

    /** Exchange the record of one known identity and store the whole document. */
    method Write(r: Record, io: Io) returns (reply: Result<seq<Record>, Failure>)
      requires Valid()
      modifies this
      ensures Valid()
      ensures reply == match Publish(old(records), r)
                       case Err(why) => Err(Refused(why))
                       case Ok(next) => if io.writable then Ok(next) else Err(NotWritten)
      ensures records == if reply.Ok? then reply.value else old(records)
    {
      if !RecordValid(r) { return Err(Refused(InvalidArgument)); }
      var next := Replaced(records, r.identity, r);
      if !io.writable { return Err(NotWritten); }
      records := next;
      return Ok(next);
    }
  }
}
