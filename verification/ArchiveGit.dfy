/** Read-only history proofs for completion receipts, archival and recovery. */
module ArchiveGit {
  import opened Prelude
  import opened Bindings
  import opened CommitGraph
  import opened ExchangeLedger

  /**
   One repository as Git shows it: its commits, its other objects, and whether its history is original, that is
   neither shallow nor replaced nor grafted.
   */
  datatype Git = Git(history: History, others: set<CommitId>, original: bool)

  predicate Known(git: Git, c: CommitId) { c in git.history || c in git.others }

  ghost predicate ValidGit(git: Git) { ValidHistory(git.history) }

  ghost function Lines(h: History, a: CommitId, d: CommitId): (lines: seq<CommitId>)
    requires ValidHistory(h)
    ensures MergeBaseLines(h, a, d, lines)
  {
    Enumerated(MergeBases(h, a, d))
  }

  ghost function Enumerated(s: set<CommitId>): (lines: seq<CommitId>)
    ensures forall i, j | 0 <= i < j < |lines| :: lines[i] != lines[j]
    ensures forall c :: c in lines <==> c in s
  {
    if s == {} then [] else var c :| c in s; [c] + Enumerated(s - {c})
  }

  ghost function Ancestor(git: Git, a: CommitId, d: CommitId): Result<bool, GitError>
    requires ValidGit(git)
  {
    IsAncestor(git.history, git.others, a, d, Lines(git.history, a, d))
  }

  ghost function CompletedCommit(git: Git, before: Context, after: Context): Result<Option<CommitId>, GitError>
    requires ValidGit(git)
  {
    if before.repoId != after.repoId || before.repositoryPath != after.repositoryPath
       || before.baseCommit == after.baseCommit || after.dirty then Ok(None)
    else if !git.original then Err(RewrittenHistory)
    else match Ancestor(git, before.baseCommit, after.baseCommit)
         case Err(e) => Err(e)
         case Ok(proven) => Ok(if proven then Some(after.baseCommit) else None)
  }

  /** Both ancestry facts of a succeeded package; the second query runs only if the first holds. */
  ghost function BothAncestors(git: Git, a: CommitId, m: CommitId, d: CommitId): Result<bool, GitError>
    requires ValidGit(git)
  {
    match Ancestor(git, a, m)
    case Err(e) => Err(e)
    case Ok(first) => if first then Ancestor(git, m, d) else Ok(false)
  }

  ghost function ProvenObsolete(
      git: Git, evidence: Evidence, context: Context, record: Option<Record>): Result<bool, GitError>
    requires ValidGit(git)
  {
    var selection := evidence.selection;
    if context.dirty || selection.repoId != context.repoId then Ok(false)
    else if evidence.kind == PatchPackage then
      if record.None? || record.value.kind != PatchPackage || record.value.manifest != Some(selection)
         || record.value.status != Some(Succeeded) || record.value.completedCommit.None?
         || selection.baseCommit == record.value.completedCommit.value then Ok(false)
      else if !git.original then Err(RewrittenHistory)
      else BothAncestors(git, selection.baseCommit, record.value.completedCommit.value, context.baseCommit)
    else if evidence.kind != ResultBundle || selection.baseCommit == context.baseCommit then Ok(false)
    else ProvenResultState(git, evidence, context)
  }

  ghost function ProvenResultState(git: Git, evidence: Evidence, context: Context): Result<bool, GitError>
    requires ValidGit(git)
  {
    var selection := evidence.selection;
    if evidence.kind != ResultBundle || context.dirty || selection.repoId != context.repoId then Ok(false)
    else if !git.original then Err(RewrittenHistory)
    else match Ancestor(git, selection.baseCommit, context.baseCommit)
         case Err(e) => Err(e)
         case Ok(proven) => Ok(proven && git.history[selection.baseCommit].tree == evidence.baseEntries)
  }

  // ---------------------------------------------------------------- meaning

  /** Git cannot answer whether `a` is an ancestor of `d`: it does not know the one it looks at first. */
  predicate Unanswerable(git: Git, a: CommitId, d: CommitId) {
    a.format == d.format && (!Known(git, a) || (a in git.history && !Known(git, d)))
  }

  /**
   The answer is yes exactly for ancestors-or-self. It is an error exactly if the ancestor is unknown, or it is a
   commit and the descendant is unknown; a known object that is no commit is a plain no.
   */
  lemma AncestorMeans(git: Git, a: CommitId, d: CommitId)
    requires ValidGit(git)
    ensures Ancestor(git, a, d) == Ok(true) <==> a in git.history && d in git.history && Reaches(git.history, d, a)
    ensures Ancestor(git, a, d).Err? <==> Unanswerable(git, a, d)
    ensures Ancestor(git, a, d).Err? ==> Ancestor(git, a, d).error == UnknownObject
  {
    var h := git.history;
    if a in h && d in h {
      AncestorTestDecidesReachability(h, git.others, a, d, Lines(h, a, d));
    }
    if Reaches(h, d, a) { ReachedIsKnownAndNotHigher(h, d, a); }
  }

  /** A completion commit exists exactly for a clean move of the same repository to a strict descendant. */
  lemma CompletionIsACleanStrictDescendant(git: Git, before: Context, after: Context, c: CommitId)
    requires ValidGit(git)
    ensures CompletedCommit(git, before, after) == Ok(Some(c)) <==>
              && c == after.baseCommit && !after.dirty && git.original
              && before.repoId == after.repoId && before.repositoryPath == after.repositoryPath
              && c != before.baseCommit && Reaches(git.history, c, before.baseCommit)
    ensures CompletedCommit(git, before, after).Err? <==>
              && !after.dirty && before.repoId == after.repoId && before.repositoryPath == after.repositoryPath
              && before.baseCommit != after.baseCommit
              && (!git.original || Unanswerable(git, before.baseCommit, after.baseCommit))
    ensures CompletedCommit(git, before, after) == Ok(Some(c)) ==>
              before.baseCommit in git.history && git.history[before.baseCommit].height < git.history[c].height
  {
    AncestorMeans(git, before.baseCommit, after.baseCommit);
    if Reaches(git.history, after.baseCommit, before.baseCommit) {
      ReachedIsKnownAndNotHigher(git.history, after.baseCommit, before.baseCommit);
    }
  }

  /** A package is obsolete iff its recorded completion lies strictly after its base and on the way to HEAD. */
  lemma PatchObsoleteMeans(git: Git, evidence: Evidence, context: Context, record: Option<Record>)
    requires ValidGit(git) && evidence.kind == PatchPackage
    ensures ProvenObsolete(git, evidence, context, record) == Ok(true) <==>
              && !context.dirty && evidence.selection.repoId == context.repoId && git.original
              && record.Some? && record.value.kind == PatchPackage && record.value.manifest == Some(evidence.selection)
              && record.value.status == Some(Succeeded) && record.value.completedCommit.Some?
              && (var done := record.value.completedCommit.value;
                  && done != evidence.selection.baseCommit
                  && Reaches(git.history, done, evidence.selection.baseCommit)
                  && Reaches(git.history, context.baseCommit, done))
    ensures ProvenObsolete(git, evidence, context, record).Err? <==>
              && !context.dirty && evidence.selection.repoId == context.repoId
              && record.Some? && record.value.kind == PatchPackage && record.value.manifest == Some(evidence.selection)
              && record.value.status == Some(Succeeded) && record.value.completedCommit.Some?
              && (var base, done := evidence.selection.baseCommit, record.value.completedCommit.value;
                  && done != base
                  && (!git.original || Unanswerable(git, base, done)
                      || (Reaches(git.history, done, base) && Unanswerable(git, done, context.baseCommit))))
  {
    if record.Some? && record.value.completedCommit.Some? {
      var done := record.value.completedCommit.value;
      AncestorMeans(git, evidence.selection.baseCommit, done);
      AncestorMeans(git, done, context.baseCommit);
      if Reaches(git.history, context.baseCommit, done) {
        ReachedIsKnownAndNotHigher(git.history, context.baseCommit, done);
      }
      if Reaches(git.history, done, evidence.selection.baseCommit) {
        ReachedIsKnownAndNotHigher(git.history, done, evidence.selection.baseCommit);
      }
    }
  }

  /** A Result proves a state iff that commit is an ancestor-or-self of clean HEAD and the inventory is its tree. */
  lemma ResultStateMeans(git: Git, evidence: Evidence, context: Context)
    requires ValidGit(git)
    ensures ProvenResultState(git, evidence, context) == Ok(true) <==>
              && evidence.kind == ResultBundle && !context.dirty && evidence.selection.repoId == context.repoId
              && git.original && Reaches(git.history, context.baseCommit, evidence.selection.baseCommit)
              && evidence.selection.baseCommit in git.history
              && git.history[evidence.selection.baseCommit].tree == evidence.baseEntries
    ensures ProvenResultState(git, evidence, context).Err? <==>
              && evidence.kind == ResultBundle && !context.dirty && evidence.selection.repoId == context.repoId
              && (!git.original || Unanswerable(git, evidence.selection.baseCommit, context.baseCommit))
  {
    AncestorMeans(git, evidence.selection.baseCommit, context.baseCommit);
  }

  /**
   A Result is obsolete iff its commit lies strictly before clean HEAD on the way to it, in original history, and the
   inventory is that commit's tree: the Result of HEAD itself is not.
   */
  lemma ResultObsoleteMeans(git: Git, evidence: Evidence, context: Context, record: Option<Record>)
    requires ValidGit(git) && evidence.kind != PatchPackage
    ensures ProvenObsolete(git, evidence, context, record) == Ok(true) <==>
              && evidence.kind == ResultBundle && !context.dirty && evidence.selection.repoId == context.repoId
              && git.original && evidence.selection.baseCommit != context.baseCommit
              && Reaches(git.history, context.baseCommit, evidence.selection.baseCommit)
              && evidence.selection.baseCommit in git.history
              && git.history[evidence.selection.baseCommit].tree == evidence.baseEntries
    ensures ProvenObsolete(git, evidence, context, record).Err? <==>
              && evidence.kind == ResultBundle && !context.dirty && evidence.selection.repoId == context.repoId
              && evidence.selection.baseCommit != context.baseCommit
              && (!git.original || Unanswerable(git, evidence.selection.baseCommit, context.baseCommit))
  {
    ResultStateMeans(git, evidence, context);
  }

  // ---------------------------------------------------------------- stability

  /** A clean forward move of one repository, possibly with new commits. */
  ghost predicate CleanForwardMove(git: Git, context: Context, git': Git, context': Context)
    requires ValidGit(git) && ValidGit(git')
  {
    && Extends(git.history, git'.history) && git'.original
    && context'.repoId == context.repoId && !context'.dirty
    && Reaches(git'.history, context'.baseCommit, context.baseCommit)
  }

  /** What is proven obsolete stays proven obsolete after every clean forward move of HEAD. */
  lemma ObsoleteStaysObsolete(
      git: Git, git': Git, evidence: Evidence, context: Context, context': Context, record: Option<Record>)
    requires ValidGit(git) && ValidGit(git')
    requires ProvenObsolete(git, evidence, context, record) == Ok(true)
    requires CleanForwardMove(git, context, git', context')
    ensures ProvenObsolete(git', evidence, context', record) == Ok(true)
  {
    var h, h', base := git.history, git'.history, evidence.selection.baseCommit;
    if evidence.kind == PatchPackage {
      PatchObsoleteMeans(git, evidence, context, record);
      var done := record.value.completedCommit.value;
      GrowthKeepsReachability(h, h', context.baseCommit, done);
      ReachedIsKnownAndNotHigher(h, context.baseCommit, done);
      GrowthKeepsReachability(h, h', done, base);
      ReachesIsTransitive(h', context'.baseCommit, context.baseCommit, done);
      PatchObsoleteMeans(git', evidence, context', record);
    } else {
      ResultStateMeans(git, evidence, context);
      GrowthKeepsReachability(h, h', context.baseCommit, base);
      ReachesIsTransitive(h', context'.baseCommit, context.baseCommit, base);
      ReachedIsKnownAndNotHigher(h', context'.baseCommit, context.baseCommit);
      ReachedIsKnownAndNotHigher(h', context.baseCommit, base);
      ResultStateMeans(git', evidence, context');
    }
  }
}
