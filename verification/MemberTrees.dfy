/** Acceptable member lists put together: under a common directory, and side by side. */
module MemberTrees {
  import opened BundlePaths

  function File(path: Path): Member { Member(path, false) }

  /** The same members below one more directory. */
  function Under(root: string, members: seq<Member>): (below: seq<Member>)
    ensures |below| == |members|
    ensures forall i | 0 <= i < |members| :: below[i] == Member([root] + members[i].path, members[i].isDirectory)
  {
    seq(|members|, i requires 0 <= i < |members| => Member([root] + members[i].path, members[i].isDirectory))
  }

  /** Files of one segment each. */
  function Flat(names: seq<string>): (members: seq<Member>)
    ensures |members| == |names| && forall i | 0 <= i < |names| :: members[i] == File([names[i]])
  {
    seq(|names|, i requires 0 <= i < |names| => File([names[i]]))
  }

  /** Every member starts with one of these segments. */
  predicate RootedIn(members: seq<Member>, roots: set<string>) {
    forall i | 0 <= i < |members| :: members[i].path != [] && members[i].path[0] in roots
  }

  /** No segment of one set folds like a segment of the other. */
  predicate FoldApart(fold: Fold, some: set<string>, others: set<string>) {
    forall x, y | x in some && y in others :: fold(x) != fold(y)
  }

  lemma InTreeOfSum(a: seq<Member>, b: seq<Member>, p: Path)
    ensures InTree(a + b, p) <==> InTree(a, p) || InTree(b, p)
  {
    if InTree(a + b, p) {
      var i :| 0 <= i < |a + b| && p != [] && p <= (a + b)[i].path;
      if i < |a| { assert p <= a[i].path; } else { assert p <= b[i - |a|].path; }
    }
    if InTree(a, p) {
      var i :| 0 <= i < |a| && p != [] && p <= a[i].path;
      assert (a + b)[i] == a[i];
    }
    if InTree(b, p) {
      var i :| 0 <= i < |b| && p != [] && p <= b[i].path;
      assert (a + b)[|a| + i] == b[i];
    }
  }

  lemma RootOfTree(members: seq<Member>, roots: set<string>, p: Path)
    requires RootedIn(members, roots) && InTree(members, p)
    ensures p != [] && p[0] in roots
  {
    var i :| 0 <= i < |members| && p != [] && p <= members[i].path;
    assert p[0] == members[i].path[0];
  }

  lemma PartsAreAcceptable(fold: Fold, a: seq<Member>, b: seq<Member>)
    requires Acceptable(fold, a + b)
    ensures Acceptable(fold, a) && Acceptable(fold, b)
  {
    assert forall i | 0 <= i < |a| :: (a + b)[i] == a[i];
    assert forall i | 0 <= i < |b| :: (a + b)[|a| + i] == b[i];
    forall p
      ensures (InTree(a, p) ==> InTree(a + b, p)) && (InTree(b, p) ==> InTree(a + b, p))
    {
      InTreeOfSum(a, b, p);
    }
    forall i, j | 0 <= i < |b| && 0 <= j < |b| && !b[i].isDirectory ensures !(b[i].path < b[j].path) {
      assert !((a + b)[|a| + i].path < (a + b)[|a| + j].path);
    }
    forall i, j | 0 <= i < j < |b| ensures b[i].path != b[j].path {
      assert (a + b)[|a| + i].path != (a + b)[|a| + j].path;
    }
  }

  lemma SideBySide(fold: Fold, a: seq<Member>, b: seq<Member>, some: set<string>, others: set<string>)
    requires RootedIn(a, some) && RootedIn(b, others) && FoldApart(fold, some, others)
    requires Acceptable(fold, a) && Acceptable(fold, b)
    ensures NoneDifferOnlyByCase(fold, a + b)
  {
    forall p, q | InTree(a + b, p) && InTree(a + b, q) && Folded(fold, p) == Folded(fold, q) ensures p == q {
      InTreeOfSum(a, b, p);
      InTreeOfSum(a, b, q);
      if InTree(a, p) { RootOfTree(a, some, p); } else { RootOfTree(b, others, p); }
      if InTree(a, q) { RootOfTree(a, some, q); } else { RootOfTree(b, others, q); }
      assert Folded(fold, p)[0] == fold(p[0]) && Folded(fold, q)[0] == fold(q[0]);
    }
  }

  /** Two lists whose first segments never fold alike are one tree exactly if each of them is. */
  lemma ApartListsJoin(fold: Fold, a: seq<Member>, b: seq<Member>, some: set<string>, others: set<string>)
    requires RootedIn(a, some) && RootedIn(b, others) && FoldApart(fold, some, others)
    ensures Acceptable(fold, a + b) <==> Acceptable(fold, a) && Acceptable(fold, b)
    ensures RootedIn(a + b, some + others)
  {
    if Acceptable(fold, a + b) { PartsAreAcceptable(fold, a, b); }
    if Acceptable(fold, a) && Acceptable(fold, b) {
      SideBySide(fold, a, b, some, others);
      var s := a + b;
      forall i, j | 0 <= i < |s| && 0 <= j < |s| && i != j ensures s[i].path != s[j].path {
        if i < |a| && j >= |a| { assert fold(s[i].path[0]) != fold(s[j].path[0]); }
        if j < |a| && i >= |a| { assert fold(s[j].path[0]) != fold(s[i].path[0]); }
      }
      forall i, j | 0 <= i < |s| && 0 <= j < |s| && !s[i].isDirectory ensures !(s[i].path < s[j].path) {
        assert s[i].path[0] != s[j].path[0] ==> !(s[i].path < s[j].path);
      }
    }
  }

  lemma InTreeBelow(root: string, members: seq<Member>, p: Path)
    requires NonEmptyPaths(members)
    ensures InTree(Under(root, members), p) ==> p != [] && p[0] == root && (|p| == 1 || InTree(members, p[1..]))
    ensures InTree(members, p) ==> InTree(Under(root, members), [root] + p)
  {
    var below := Under(root, members);
    if InTree(below, p) {
      var i :| 0 <= i < |below| && p != [] && p <= below[i].path;
      assert below[i].path[1..] == members[i].path;
      if |p| > 1 { assert p[1..] <= members[i].path; }
    }
    if InTree(members, p) {
      var i :| 0 <= i < |members| && p != [] && p <= members[i].path;
      assert [root] + p <= below[i].path;
    }
  }

  lemma FoldedBelow(fold: Fold, root: string, p: Path)
    ensures Folded(fold, [root] + p) == [fold(root)] + Folded(fold, p)
  {
  }

  lemma PathsBelow(root: string, members: seq<Member>)
    ensures NoPathRepeats(Under(root, members)) <==> NoPathRepeats(members)
    ensures NoFileIsAnAncestor(Under(root, members)) <==> NoFileIsAnAncestor(members)
  {
    var below := Under(root, members);
    forall i, j | 0 <= i < |members| && 0 <= j < |members|
      ensures below[i].path == below[j].path <==> members[i].path == members[j].path
      ensures below[i].path < below[j].path <==> members[i].path < members[j].path
    {
      assert below[i].path[1..] == members[i].path && below[j].path[1..] == members[j].path;
    }
    if NoPathRepeats(below) {
      forall i, j | 0 <= i < j < |members| ensures members[i].path != members[j].path {
        assert below[i].path != below[j].path;
      }
    }
    if NoFileIsAnAncestor(below) {
      forall i, j | 0 <= i < |members| && 0 <= j < |members| && !members[i].isDirectory
        ensures !(members[i].path < members[j].path)
      {
        assert !(below[i].path < below[j].path);
      }
    }
  }

  lemma CaseBelow(fold: Fold, root: string, members: seq<Member>)
    requires NonEmptyPaths(members) && NoneDifferOnlyByCase(fold, Under(root, members))
    ensures NoneDifferOnlyByCase(fold, members)
  {
    hide Under, InTree, Folded;
    forall p, q | InTree(members, p) && InTree(members, q) && Folded(fold, p) == Folded(fold, q) ensures p == q {
      InTreeBelow(root, members, p);
      InTreeBelow(root, members, q);
      FoldedBelow(fold, root, p);
      FoldedBelow(fold, root, q);
      assert ([root] + p)[1..] == p && ([root] + q)[1..] == q;
    }
  }

  lemma CaseAbove(fold: Fold, root: string, members: seq<Member>)
    requires NonEmptyPaths(members) && NoneDifferOnlyByCase(fold, members)
    ensures NoneDifferOnlyByCase(fold, Under(root, members))
  {
    hide Under, InTree, Folded;
    var below := Under(root, members);
    forall p, q | InTree(below, p) && InTree(below, q) && Folded(fold, p) == Folded(fold, q) ensures p == q {
      InTreeBelow(root, members, p);
      InTreeBelow(root, members, q);
      assert p == [root] + p[1..] && q == [root] + q[1..];
      FoldedBelow(fold, root, p[1..]);
      FoldedBelow(fold, root, q[1..]);
      assert |p| == |Folded(fold, p)| == |Folded(fold, q)| == |q|;
      assert Folded(fold, p)[1..] == Folded(fold, p[1..]) && Folded(fold, q)[1..] == Folded(fold, q[1..]);
    }
  }

  /** A common directory in front changes nothing. */
  lemma CommonRootIsNeutral(fold: Fold, root: string, members: seq<Member>)
    requires NonEmptyPaths(members)
    ensures Acceptable(fold, Under(root, members)) <==> Acceptable(fold, members)
    ensures RootedIn(Under(root, members), {root})
  {
    hide NoneDifferOnlyByCase, NoPathRepeats, NoFileIsAnAncestor;
    PathsBelow(root, members);
    if NoneDifferOnlyByCase(fold, Under(root, members)) { CaseBelow(fold, root, members); }
    if NoneDifferOnlyByCase(fold, members) { CaseAbove(fold, root, members); }
  }

  lemma OneFileIsAcceptable(fold: Fold, path: Path)
    requires path != []
    ensures Acceptable(fold, [File(path)])
  {
    forall p, q | InTree([File(path)], p) && InTree([File(path)], q) && Folded(fold, p) == Folded(fold, q)
      ensures p == q
    {
      assert |p| == |Folded(fold, p)| == |q| && p == path[..|p|];
    }
  }

  function SetOf(names: seq<string>): set<string> { set name | name in names }

  predicate FoldDistinct(fold: Fold, names: seq<string>) {
    forall i, j | 0 <= i < j < |names| :: fold(names[i]) != fold(names[j])
  }

  lemma FirstIsApart(fold: Fold, names: seq<string>)
    requires names != [] && FoldDistinct(fold, names)
    ensures FoldDistinct(fold, names[1..]) && FoldApart(fold, {names[0]}, SetOf(names[1..]))
    ensures SetOf(names) == {names[0]} + SetOf(names[1..])
  {
    assert names == [names[0]] + names[1..];
  }

  /** Files side by side in one directory are one tree if no two names fold alike. */
  lemma {:induction false} FlatIsAcceptable(fold: Fold, names: seq<string>)
    requires FoldDistinct(fold, names)
    ensures Acceptable(fold, Flat(names)) && RootedIn(Flat(names), SetOf(names))
  {
    if names != [] {
      hide Acceptable, SetOf, FoldApart, FoldDistinct;
      var first, rest := names[0], names[1..];
      FirstIsApart(fold, names);
      FlatIsAcceptable(fold, rest);
      OneFileIsAcceptable(fold, [first]);
      ApartListsJoin(fold, [File([first])], Flat(rest), {first}, SetOf(rest));
      assert Flat(names) == [File([first])] + Flat(rest);
    }
  }

  /** The order of a list does not matter in either direction. */
  lemma ReorderedIsAlike(fold: Fold, a: seq<Member>, b: seq<Member>)
    requires multiset(a) == multiset(b)
    ensures Acceptable(fold, a) <==> Acceptable(fold, b)
  {
    if Acceptable(fold, a) { AcceptanceIgnoresOrder(fold, a, b); }
    if Acceptable(fold, b) { AcceptanceIgnoresOrder(fold, b, a); }
  }
}
