/** The commit graph and Git's merge bases: the ground truth behind every ancestry proof. */
module CommitGraph {
  import opened Prelude
  import opened Bindings

  /** `height` exceeds that of every parent: object names are hashes over parents, so no cycle exists. */
  datatype Commit = Commit(parents: set<CommitId>, height: nat, tree: seq<TreeEntry>)

  type History = map<CommitId, Commit>

  ghost predicate ValidHistory(h: History) {
    forall c, p | c in h && p in h[c].parents :: p in h && h[p].height < h[c].height && p.format == c.format
  }

  /** `a` is `d` or one of its ancestors. */
  ghost predicate Reaches(h: History, d: CommitId, a: CommitId)
    requires ValidHistory(h)
    decreases if d in h then h[d].height else 0
  {
    d in h && (d == a || exists p | p in h[d].parents :: Reaches(h, p, a))
  }

  ghost function CommonAncestors(h: History, a: CommitId, d: CommitId): set<CommitId>
    requires ValidHistory(h)
  {
    set c | c in h && Reaches(h, a, c) && Reaches(h, d, c)
  }

  /** The maximal common ancestors. */
  ghost function MergeBases(h: History, a: CommitId, d: CommitId): set<CommitId>
    requires ValidHistory(h)
  {
    set c | c in CommonAncestors(h, a, d) && forall o | o in CommonAncestors(h, a, d) && o != c :: !Reaches(h, o, c)
  }

  /** Output lines of `git merge-base --all`: every merge base once, in any order. */
  ghost predicate MergeBaseLines(h: History, a: CommitId, d: CommitId, lines: seq<CommitId>)
    requires ValidHistory(h)
  {
    && (forall i, j | 0 <= i < j < |lines| :: lines[i] != lines[j])
    && (forall c :: c in lines <==> c in MergeBases(h, a, d))
  }

  datatype GitError = UnknownObject | RewrittenHistory

  /**
   The ancestry test, given the lines Git printed. `others` are the known objects that are no commits: the first
   such name decides, an unknown one is an error.
   */
  function IsAncestor(
      h: History, others: set<CommitId>, ancestor: CommitId, descendant: CommitId, lines: seq<CommitId>)
    : Result<bool, GitError>
  {
    if ancestor.format != descendant.format then Ok(false)
    else if ancestor !in h then (if ancestor in others then Ok(false) else Err(UnknownObject))
    else if descendant !in h then (if descendant in others then Ok(false) else Err(UnknownObject))
    else Ok(lines == [ancestor])
  }

  lemma {:induction false} ReachedIsKnownAndNotHigher(h: History, d: CommitId, a: CommitId)
    requires ValidHistory(h) && Reaches(h, d, a)
    ensures a in h && a.format == d.format && (d != a ==> h[a].height < h[d].height)
    decreases h[d].height
  {
    if d != a {
      var p :| p in h[d].parents && Reaches(h, p, a);
      ReachedIsKnownAndNotHigher(h, p, a);
    }
  }

  lemma {:induction false} ReachesIsTransitive(h: History, d: CommitId, m: CommitId, a: CommitId)
    requires ValidHistory(h) && Reaches(h, d, m) && Reaches(h, m, a)
    ensures Reaches(h, d, a)
    decreases h[d].height
  {
    if d != m {
      var p :| p in h[d].parents && Reaches(h, p, m);
      ReachesIsTransitive(h, p, m, a);
    }
  }

  /** An ancestor is its descendant's only merge base with itself, and nothing else is. */
  lemma SoleMergeBaseIffReached(h: History, a: CommitId, d: CommitId)
    requires ValidHistory(h) && a in h && d in h
    ensures MergeBases(h, a, d) == {a} <==> Reaches(h, d, a)
  {
    if Reaches(h, d, a) {
      assert a in CommonAncestors(h, a, d);
      forall o | o in CommonAncestors(h, a, d) && o != a ensures !Reaches(h, o, a) {
        ReachedIsKnownAndNotHigher(h, a, o);
        if Reaches(h, o, a) { ReachedIsKnownAndNotHigher(h, o, a); }
      }
    } else {
      assert a !in MergeBases(h, a, d);
    }
  }

  lemma OneLineForOneBase(bases: set<CommitId>, a: CommitId, lines: seq<CommitId>)
    requires forall i, j | 0 <= i < j < |lines| :: lines[i] != lines[j]
    requires forall c :: c in lines <==> c in bases
    ensures lines == [a] <==> bases == {a}
  {
    if lines == [a] {
      assert forall c :: c in bases <==> c == a;
    }
    if bases == {a} {
      forall i | 0 <= i < |lines| ensures lines[i] == a {
        var c := lines[i];
        assert c in lines;
        assert c in bases;
      }
      assert a in bases;
      assert a in lines;
      assert lines[0] == lines[|lines| - 1];
      assert lines == [lines[0]];
    }
  }

  /** The test "all merge bases are exactly [A]" decides ancestry, whatever the graph looks like. */
  lemma AncestorTestDecidesReachability(
      h: History, others: set<CommitId>, a: CommitId, d: CommitId, lines: seq<CommitId>)
    requires ValidHistory(h) && a in h && d in h && MergeBaseLines(h, a, d, lines)
    ensures IsAncestor(h, others, a, d, lines) == Ok(Reaches(h, d, a))
  {
    SoleMergeBaseIffReached(h, a, d);
    OneLineForOneBase(MergeBases(h, a, d), a, lines);
    if Reaches(h, d, a) { ReachedIsKnownAndNotHigher(h, d, a); }
  }

  // ---------------------------------------------------------------- growth

  /** New commits may appear; known ones never change. */
  ghost predicate Extends(h: History, later: History) {
    forall c | c in h :: c in later && later[c] == h[c]
  }

  lemma {:induction false} GrowthKeepsReachability(h: History, later: History, d: CommitId, a: CommitId)
    requires ValidHistory(h) && ValidHistory(later) && Extends(h, later) && d in h
    ensures Reaches(later, d, a) <==> Reaches(h, d, a)
    decreases h[d].height
  {
    forall p | p in h[d].parents ensures Reaches(later, p, a) <==> Reaches(h, p, a) {
      GrowthKeepsReachability(h, later, p, a);
    }
  }
}
