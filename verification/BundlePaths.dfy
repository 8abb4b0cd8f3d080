/**
 Portable member paths: which lists of archive members describe one tree on every file system.
 A path is its list of segments; `fold` is the caseless form of one segment (folding never makes or
 removes a separator, so a path folds segment by segment).
 */
module BundlePaths {
  import opened Prelude

  type Path = seq<string>

  type Fold = string -> string

  datatype Member = Member(path: Path, isDirectory: bool)

  datatype Node = Node(path: Path, isDirectory: bool, explicit: bool)

  datatype PathError = CaseCollision | KindCollision | DuplicateMember

  function Folded(fold: Fold, p: Path): (key: Path)
    ensures |key| == |p|
  {
    seq(|p|, i requires 0 <= i < |p| => fold(p[i]))
  }

  predicate NonEmptyPaths(members: seq<Member>) {
    forall i | 0 <= i < |members| :: members[i].path != []
  }

  // ---------------------------------------------------------------- what a good list is

  /** `p` is a member's path or one of its ancestors. */
  predicate InTree(members: seq<Member>, p: Path) {
    exists i :: 0 <= i < |members| && p != [] && p <= members[i].path
  }

  predicate NoPathRepeats(members: seq<Member>) {
    forall i, j | 0 <= i < j < |members| :: members[i].path != members[j].path
  }

  ghost predicate NoneDifferOnlyByCase(fold: Fold, members: seq<Member>) {
    forall p, q | InTree(members, p) && InTree(members, q) && Folded(fold, p) == Folded(fold, q) :: p == q
  }

  predicate NoFileIsAnAncestor(members: seq<Member>) {
    forall i, j | 0 <= i < |members| && 0 <= j < |members| && !members[i].isDirectory ::
      !(members[i].path < members[j].path)
  }

  ghost predicate Acceptable(fold: Fold, members: seq<Member>) {
    NoPathRepeats(members) && NoneDifferOnlyByCase(fold, members) && NoFileIsAnAncestor(members)
  }

  // ---------------------------------------------------------------- the registration order

  /** What member `m` registers at depth `n`: an implied directory, and last the member itself. */
  function Registered(m: Member, n: nat): Node
    requires 1 <= n <= |m.path|
  {
    Node(m.path[..n], n < |m.path| || m.isDirectory, n == |m.path|)
  }

  predicate Agree(fold: Fold, a: Node, b: Node) {
    Folded(fold, a.path) == Folded(fold, b.path) ==>
      a.path == b.path && a.isDirectory == b.isDirectory && !(a.explicit && b.explicit)
  }

  /** Position (j, l) comes before position (i, n). */
  predicate Before(members: seq<Member>, j: nat, l: nat, i: nat, n: nat) {
    j < |members| && 1 <= l <= |members[j].path| && (j < i || (j == i && l < n))
  }

  ghost predicate Holds(fold: Fold, nodes: map<Path, Node>, r: Node) {
    && Folded(fold, r.path) in nodes
    && nodes[Folded(fold, r.path)].path == r.path && nodes[Folded(fold, r.path)].isDirectory == r.isDirectory
    && (r.explicit ==> nodes[Folded(fold, r.path)].explicit)
  }

  /** `nodes` is exactly what the positions before (i, n) registered. */
  ghost predicate Tracks(fold: Fold, members: seq<Member>, i: nat, n: nat, nodes: map<Path, Node>) {
    && (forall j: nat, l: nat | Before(members, j, l, i, n) :: Holds(fold, nodes, Registered(members[j], l)))
    && (forall k | k in nodes :: exists j: nat, l: nat ::
          Before(members, j, l, i, n) && Folded(fold, Registered(members[j], l).path) == k
          && (nodes[k].explicit ==> l == |members[j].path|))
  }

  /** All positions before (i, n) agree with each other. */
  ghost predicate AllAgree(fold: Fold, members: seq<Member>, i: nat, n: nat) {
    forall j: nat, l: nat, j': nat, l': nat |
      Before(members, j, l, i, n) && Before(members, j', l', i, n) && (j, l) != (j', l') ::
      Agree(fold, Registered(members[j], l), Registered(members[j'], l'))
  }

  predicate Fits(fold: Fold, nodes: map<Path, Node>, r: Node) {
    var key := Folded(fold, r.path);
    key in nodes ==>
      nodes[key].path == r.path && nodes[key].isDirectory == r.isDirectory && !(nodes[key].explicit && r.explicit)
  }

  function Entered(fold: Fold, nodes: map<Path, Node>, r: Node): map<Path, Node> {
    var key := Folded(fold, r.path);
    nodes[key := Node(r.path, r.isDirectory, r.explicit || (key in nodes && nodes[key].explicit))]
  }

  /** The nodes of one validation, one per folded path. */
  class NodeMap {
    var nodes: map<Path, Node>

    constructor ()
      ensures nodes == map[]
    {
      nodes := map[];
    }

    /** Add a path, or check it against the node its folded form already has. */
    method Register(fold: Fold, path: Path, isDirectory: bool, explicit: bool) returns (error: Option<PathError>)
      modifies this
      ensures error.None? <==> Fits(fold, old(nodes), Node(path, isDirectory, explicit))
      ensures nodes == if error.None? then Entered(fold, old(nodes), Node(path, isDirectory, explicit)) else old(nodes)
      ensures error.Some? ==>
                var existing := old(nodes)[Folded(fold, path)];
                && (error.value.CaseCollision? <==> existing.path != path)
                && (error.value.DuplicateMember? <==> existing.path == path && existing.isDirectory == isDirectory)
    {
      var key := Folded(fold, path);
      if key !in nodes {
        nodes := nodes[key := Node(path, isDirectory, explicit)];
        return None;
      }
      var existing := nodes[key];
      if existing.path != path { return Some(CaseCollision); }
      if existing.isDirectory != isDirectory { return Some(KindCollision); }
      if explicit && existing.explicit { return Some(DuplicateMember); }
      if explicit { nodes := nodes[key := existing.(explicit := true)]; }
      assert nodes == Entered(fold, old(nodes), Node(path, isDirectory, explicit));
      return None;
    }
  }

  /** A node that fits the map agrees with everything registered, and entering it tracks one more position. */
  lemma NextPosition(fold: Fold, members: seq<Member>, i: nat, n: nat, nodes: map<Path, Node>)
    requires i < |members| && 1 <= n <= |members[i].path|
    requires Tracks(fold, members, i, n, nodes) && AllAgree(fold, members, i, n)
    ensures Fits(fold, nodes, Registered(members[i], n)) <==> AllAgree(fold, members, i, n + 1)
    ensures Fits(fold, nodes, Registered(members[i], n)) ==>
              Tracks(fold, members, i, n + 1, Entered(fold, nodes, Registered(members[i], n)))
  {
    var r := Registered(members[i], n);
    assert forall j: nat, l: nat ::
      Before(members, j, l, i, n + 1) <==> Before(members, j, l, i, n) || (j == i && l == n);
    if Fits(fold, nodes, r) {
      FittingNodeAgrees(fold, members, i, n, nodes);
      EnteredIsTracked(fold, members, i, n, nodes);
    } else {
      var k := Folded(fold, r.path);
      var j: nat, l: nat :| Before(members, j, l, i, n) && Folded(fold, Registered(members[j], l).path) == k
                            && (nodes[k].explicit ==> l == |members[j].path|);
      assert Holds(fold, nodes, Registered(members[j], l));
      assert Before(members, i, n, i, n + 1) && Before(members, j, l, i, n + 1) && (j, l) != (i, n);
      assert !Agree(fold, Registered(members[j], l), r);
    }
  }

  lemma FittingNodeAgrees(fold: Fold, members: seq<Member>, i: nat, n: nat, nodes: map<Path, Node>)
    requires i < |members| && 1 <= n <= |members[i].path|
    requires Tracks(fold, members, i, n, nodes) && AllAgree(fold, members, i, n)
    requires Fits(fold, nodes, Registered(members[i], n))
    ensures AllAgree(fold, members, i, n + 1)
  {
    var r := Registered(members[i], n);
    forall j: nat, l: nat | Before(members, j, l, i, n)
      ensures Agree(fold, Registered(members[j], l), r) && Agree(fold, r, Registered(members[j], l))
    {
      assert Holds(fold, nodes, Registered(members[j], l));
    }
  }

  /** Entering a fitting node loses none of those already there. */
  lemma EnteringKeepsNodes(fold: Fold, members: seq<Member>, i: nat, n: nat, nodes: map<Path, Node>)
    requires i < |members| && 1 <= n <= |members[i].path|
    requires Tracks(fold, members, i, n, nodes) && Fits(fold, nodes, Registered(members[i], n))
    ensures forall j: nat, l: nat | Before(members, j, l, i, n + 1) ::
              Holds(fold, Entered(fold, nodes, Registered(members[i], n)), Registered(members[j], l))
  {
    forall j: nat, l: nat | Before(members, j, l, i, n + 1)
      ensures Holds(fold, Entered(fold, nodes, Registered(members[i], n)), Registered(members[j], l))
    {
      if Before(members, j, l, i, n) { assert Holds(fold, nodes, Registered(members[j], l)); }
    }
  }

  lemma EnteredIsTracked(fold: Fold, members: seq<Member>, i: nat, n: nat, nodes: map<Path, Node>)
    requires i < |members| && 1 <= n <= |members[i].path|
    requires Tracks(fold, members, i, n, nodes) && Fits(fold, nodes, Registered(members[i], n))
    ensures Tracks(fold, members, i, n + 1, Entered(fold, nodes, Registered(members[i], n)))
  {
    hide Folded, Holds, Fits;
    var r := Registered(members[i], n);
    var after := Entered(fold, nodes, r);
    EnteringKeepsNodes(fold, members, i, n, nodes);
    assert Before(members, i, n, i, n + 1);
    forall k | k in after ensures exists j: nat, l: nat ::
        Before(members, j, l, i, n + 1) && Folded(fold, Registered(members[j], l).path) == k
        && (after[k].explicit ==> l == |members[j].path|)
    {
      if k in nodes && (k != Folded(fold, r.path) || !r.explicit) {
        var j: nat, l: nat :| Before(members, j, l, i, n) && Folded(fold, Registered(members[j], l).path) == k
                              && (nodes[k].explicit ==> l == |members[j].path|);
        assert Before(members, j, l, i, n + 1);
      }
    }
  }

  lemma NextMember(fold: Fold, members: seq<Member>, i: nat, nodes: map<Path, Node>)
    requires i < |members|
    ensures AllAgree(fold, members, i, |members[i].path| + 1) ==> AllAgree(fold, members, i + 1, 1)
    ensures Tracks(fold, members, i, |members[i].path| + 1, nodes) ==> Tracks(fold, members, i + 1, 1, nodes)
  {
    var end, next := |members[i].path| + 1, i + 1;
    assert forall j: nat, l: nat :: Before(members, j, l, i, end) <==> Before(members, j, l, next, 1);
  }

  lemma DisagreementStays(fold: Fold, members: seq<Member>, i: nat, n: nat)
    requires i < |members| && 1 <= n <= |members[i].path| + 1
    requires AllAgree(fold, members, |members|, 1)
    ensures AllAgree(fold, members, i, n)
  {
    assert forall j: nat, l: nat :: Before(members, j, l, i, n) ==> Before(members, j, l, |members|, 1);
  }

  // ---------------------------------------------------------------- agreement is acceptability

  lemma AgreementIsAcceptability(fold: Fold, members: seq<Member>)
    requires NonEmptyPaths(members)
    ensures AllAgree(fold, members, |members|, 1) <==> Acceptable(fold, members)
  {
    if AllAgree(fold, members, |members|, 1) { AgreementImpliesAcceptable(fold, members); }
    if Acceptable(fold, members) {
      forall j: nat, l: nat, j': nat, l': nat |
        Before(members, j, l, |members|, 1) && Before(members, j', l', |members|, 1) && (j, l) != (j', l')
        ensures Agree(fold, Registered(members[j], l), Registered(members[j'], l'))
      {
        AcceptablePairAgrees(fold, members, j, l, j', l');
      }
    }
  }

  lemma AcceptablePairAgrees(fold: Fold, members: seq<Member>, j: nat, l: nat, j': nat, l': nat)
    requires Acceptable(fold, members)
    requires Before(members, j, l, |members|, 1) && Before(members, j', l', |members|, 1) && (j, l) != (j', l')
    ensures Agree(fold, Registered(members[j], l), Registered(members[j'], l'))
  {
    var a, b := Registered(members[j], l), Registered(members[j'], l');
    if Folded(fold, a.path) == Folded(fold, b.path) {
      assert a.path <= members[j].path && b.path <= members[j'].path;
      assert InTree(members, a.path) && InTree(members, b.path);
      assert a.path == b.path && l == l' && j != j';
      if a.explicit {
        assert members[j].path == members[j'].path || members[j].path < members[j'].path;
      } else if b.explicit {
        assert members[j'].path < members[j].path;
      }
    }
  }

  lemma AgreementImpliesAcceptable(fold: Fold, members: seq<Member>)
    requires NonEmptyPaths(members) && AllAgree(fold, members, |members|, 1)
    ensures Acceptable(fold, members)
  {
    var end := |members|;
    forall i, j | 0 <= i < j < end ensures members[i].path != members[j].path {
      assert Before(members, i, |members[i].path|, end, 1) && Before(members, j, |members[j].path|, end, 1);
      assert Agree(fold, Registered(members[i], |members[i].path|), Registered(members[j], |members[j].path|));
    }
    forall p, q | InTree(members, p) && InTree(members, q) && Folded(fold, p) == Folded(fold, q) ensures p == q {
      var i :| 0 <= i < end && p != [] && p <= members[i].path;
      var j :| 0 <= j < end && q != [] && q <= members[j].path;
      assert Before(members, i, |p|, end, 1) && Before(members, j, |q|, end, 1) && |p| == |q|;
      assert members[i].path[..|p|] == p && members[j].path[..|q|] == q;
      if i != j { assert Agree(fold, Registered(members[i], |p|), Registered(members[j], |q|)); }
    }
    forall i, j | 0 <= i < end && 0 <= j < end && !members[i].isDirectory ensures !(members[i].path < members[j].path) {
      var l := |members[i].path|;
      if l < |members[j].path| {
        assert Before(members, i, l, end, 1) && Before(members, j, l, end, 1);
        assert Agree(fold, Registered(members[i], l), Registered(members[j], l));
        assert members[i].path[..l] == members[i].path;
      }
    }
  }

  // ---------------------------------------------------------------- the validator

  ghost predicate Consistent(fold: Fold, members: seq<Member>, i: nat, n: nat, nodes: map<Path, Node>) {
    Tracks(fold, members, i, n, nodes) && AllAgree(fold, members, i, n)
  }

  lemma Registering(fold: Fold, members: seq<Member>, i: nat, n: nat, nodes: map<Path, Node>)
    requires NonEmptyPaths(members) && i < |members| && 1 <= n <= |members[i].path|
             && Consistent(fold, members, i, n, nodes)
    ensures Fits(fold, nodes, Registered(members[i], n)) ==>
              Consistent(fold, members, i, n + 1, Entered(fold, nodes, Registered(members[i], n)))
    ensures !Fits(fold, nodes, Registered(members[i], n)) ==> !Acceptable(fold, members)
  {
    NextPosition(fold, members, i, n, nodes);
    if Acceptable(fold, members) {
      AgreementIsAcceptability(fold, members);
      DisagreementStays(fold, members, i, n + 1);
    }
  }

  lemma MemberDone(fold: Fold, members: seq<Member>, i: nat, nodes: map<Path, Node>)
    requires i < |members| && Consistent(fold, members, i, |members[i].path| + 1, nodes)
    ensures Consistent(fold, members, i + 1, 1, nodes)
  {
    NextMember(fold, members, i, nodes);
  }

  /** Register the proper ancestors of one member as implied directories. */
  method RegisterAncestors(nodes: NodeMap, fold: Fold, members: seq<Member>, i: nat) returns (error: Option<PathError>)
    requires NonEmptyPaths(members) && i < |members| && Consistent(fold, members, i, 1, nodes.nodes)
    modifies nodes
    ensures error.None? ==> Consistent(fold, members, i, |members[i].path|, nodes.nodes)
    ensures error.Some? ==> !Acceptable(fold, members)
  {
    var segments := members[i].path;
    for n := 1 to |segments|
      invariant Consistent(fold, members, i, n, nodes.nodes)
    {
      Registering(fold, members, i, n, nodes.nodes);
      error := nodes.Register(fold, segments[..n], true, false);
      if error.Some? { return; }
    }
    return None;
  }

  method RegisterMember(nodes: NodeMap, fold: Fold, members: seq<Member>, i: nat) returns (error: Option<PathError>)
    requires NonEmptyPaths(members) && i < |members| && Consistent(fold, members, i, 1, nodes.nodes)
    modifies nodes
    ensures error.None? ==> Consistent(fold, members, i + 1, 1, nodes.nodes)
    ensures error.Some? ==> !Acceptable(fold, members)
  {
    error := RegisterAncestors(nodes, fold, members, i);
    if error.Some? { return; }
    Registering(fold, members, i, |members[i].path|, nodes.nodes);
    assert members[i].path[..|members[i].path|] == members[i].path;
    error := nodes.Register(fold, members[i].path, members[i].isDirectory, true);
    if error.None? { MemberDone(fold, members, i, nodes.nodes); }
  }

  /** Accept exactly the lists that describe one portable tree, in whatever order they come. */
  method ValidateMemberPaths(members: seq<Member>, fold: Fold) returns (r: Result<seq<Path>, PathError>)
    requires NonEmptyPaths(members)
    ensures r.Ok? <==> Acceptable(fold, members)
    ensures r.Ok? ==> r.value == seq(|members|, i requires 0 <= i < |members| => members[i].path)
  {
    var nodes := new NodeMap();
    var paths: seq<Path> := [];
    for i := 0 to |members|
      invariant fresh(nodes) && Consistent(fold, members, i, 1, nodes.nodes)
      invariant paths == seq(i, k requires 0 <= k < i => members[k].path)
    {
      var error := RegisterMember(nodes, fold, members, i);
      if error.Some? { return Err(error.value); }
      paths := paths + [members[i].path];
    }
    AgreementIsAcceptability(fold, members);
    return Ok(paths);
  }

  // ---------------------------------------------------------------- order does not matter

  /** Acceptance reads the members as a bag. */
  lemma AcceptanceIgnoresOrder(fold: Fold, members: seq<Member>, shuffled: seq<Member>)
    requires multiset(members) == multiset(shuffled) && Acceptable(fold, members)
    ensures Acceptable(fold, shuffled)
  {
    SameMembers(members, shuffled);
    forall i, j | 0 <= i < j < |shuffled| ensures shuffled[i].path != shuffled[j].path {
      if shuffled[i].path == shuffled[j].path {
        var k :| 0 <= k < |members| && members[k] == shuffled[i];
        var l :| 0 <= l < |members| && members[l] == shuffled[j];
        assert k == l;
        CountsTwice(shuffled, i, j);
        CountsOnce(members, k);
      }
    }
    forall p | InTree(shuffled, p) ensures InTree(members, p) {
      var i :| 0 <= i < |shuffled| && p != [] && p <= shuffled[i].path;
      var k :| 0 <= k < |members| && members[k] == shuffled[i];
    }
    forall i, j | 0 <= i < |shuffled| && 0 <= j < |shuffled| && !shuffled[i].isDirectory
      ensures !(shuffled[i].path < shuffled[j].path)
    {
      var k :| 0 <= k < |members| && members[k] == shuffled[i];
      var l :| 0 <= l < |members| && members[l] == shuffled[j];
    }
  }

  lemma SameMembers(members: seq<Member>, shuffled: seq<Member>)
    requires multiset(members) == multiset(shuffled)
    ensures forall i | 0 <= i < |shuffled| :: exists k :: 0 <= k < |members| && members[k] == shuffled[i]
  {
    forall i | 0 <= i < |shuffled| ensures exists k :: 0 <= k < |members| && members[k] == shuffled[i] {
      assert shuffled[i] in multiset(shuffled);
      assert shuffled[i] in multiset(members);
      assert shuffled[i] in members;
    }
  }

  lemma CountsTwice(s: seq<Member>, i: nat, j: nat)
    requires i < j < |s| && s[i] == s[j]
    ensures multiset(s)[s[i]] >= 2
  {
    assert s == s[..j] + [s[j]] + s[j + 1..];
    assert s[..j][i] == s[j];
    assert s[j] in multiset(s[..j]);
  }

  lemma CountsOnce(s: seq<Member>, k: nat)
    requires k < |s| && NoPathRepeats(s)
    ensures multiset(s)[s[k]] == 1
  {
    assert s == s[..k] + [s[k]] + s[k + 1..];
    assert s[k] !in s[..k] && s[k] !in s[k + 1..];
  }

  // ---------------------------------------------------------------- the PYZ inventory check

  function FileMembers(names: seq<Path>): (members: seq<Member>)
    ensures |members| == |names| && forall i | 0 <= i < |names| :: members[i] == Member(names[i], false)
  {
    seq(|names|, i requires 0 <= i < |names| => Member(names[i], false))
  }

  /** Position (j, l) is a proper ancestor met before position (i, n). */
  predicate AncestorBefore(names: seq<Path>, j: nat, l: nat, i: nat, n: nat) {
    j < |names| && 1 <= l < |names[j]| && (j < i || (j == i && l < n))
  }

  ghost predicate FoldedNames(fold: Fold, names: seq<Path>, i: nat, folded: set<Path>)
    requires i <= |names|
  {
    && (forall j: nat | j < i :: Folded(fold, names[j]) in folded)
    && (forall k | k in folded :: exists j: nat :: j < i && Folded(fold, names[j]) == k)
    && (forall j: nat, l: nat | j < l < i :: Folded(fold, names[j]) != Folded(fold, names[l]))
  }

  /** Every folded ancestor met so far has one spelling, and `directories` holds it. */
  ghost predicate Directories(fold: Fold, names: seq<Path>, i: nat, n: nat, directories: map<Path, Path>) {
    && (forall j: nat, l: nat | AncestorBefore(names, j, l, i, n) ::
          Folded(fold, names[j][..l]) in directories && directories[Folded(fold, names[j][..l])] == names[j][..l])
    && (forall k | k in directories ::
          exists j: nat, l: nat :: AncestorBefore(names, j, l, i, n) && Folded(fold, names[j][..l]) == k)
  }

  /** A second spelling of one folded ancestor shows that two ancestors differ only by case. */
  lemma SecondSpelling(fold: Fold, names: seq<Path>, i: nat, n: nat, directories: map<Path, Path>)
    requires i < |names| && 1 <= n < |names[i]| && Directories(fold, names, i, n, directories)
    requires Folded(fold, names[i][..n]) in directories && directories[Folded(fold, names[i][..n])] != names[i][..n]
    ensures !NoneDifferOnlyByCase(fold, FileMembers(names))
  {
    var k := Folded(fold, names[i][..n]);
    var j: nat, l: nat :| AncestorBefore(names, j, l, i, n) && Folded(fold, names[j][..l]) == k;
    CaseClash(fold, names, i, n, j, l);
  }

  /** Note every ancestor of one name under its folded form. */
  method NoteAncestors(fold: Fold, names: seq<Path>, i: nat, directories: map<Path, Path>)
    returns (ok: bool, after: map<Path, Path>)
    requires i < |names| && Directories(fold, names, i, 1, directories)
    ensures ok ==> Directories(fold, names, i + 1, 1, after)
    ensures !ok ==> !NoneDifferOnlyByCase(fold, FileMembers(names))
  {
    after := directories;
    var n := 1;
    while n < |names[i]|
      invariant 1 <= n && (n <= |names[i]| || |names[i]| == 0)
      invariant Directories(fold, names, i, n, after)
    {
      var parent := names[i][..n];
      var key := Folded(fold, parent);
      if key in after && after[key] != parent {
        SecondSpelling(fold, names, i, n, after);
        return false, after;
      }
      AncestorNoted(fold, names, i, n, after);
      after := after[key := parent];
      n := n + 1;
    }
    AncestorsDone(fold, names, i, n, after);
    return true, after;
  }

  lemma AncestorNoted(fold: Fold, names: seq<Path>, i: nat, n: nat, directories: map<Path, Path>)
    requires i < |names| && 1 <= n < |names[i]| && Directories(fold, names, i, n, directories)
    requires Folded(fold, names[i][..n]) in directories ==> directories[Folded(fold, names[i][..n])] == names[i][..n]
    ensures Directories(fold, names, i, n + 1, directories[Folded(fold, names[i][..n]) := names[i][..n]])
  {
    var key, next := Folded(fold, names[i][..n]), n + 1;
    var after := directories[key := names[i][..n]];
    assert forall j: nat, l: nat ::
      AncestorBefore(names, j, l, i, next) <==> AncestorBefore(names, j, l, i, n) || (j == i && l == n);
    forall k | k in after
      ensures exists j: nat, l: nat :: AncestorBefore(names, j, l, i, next) && Folded(fold, names[j][..l]) == k
    {
      if k == key {
        assert AncestorBefore(names, i, n, i, next);
      } else {
        var j: nat, l: nat :| AncestorBefore(names, j, l, i, n) && Folded(fold, names[j][..l]) == k;
        assert AncestorBefore(names, j, l, i, next);
      }
    }
  }

  lemma AncestorsDone(fold: Fold, names: seq<Path>, i: nat, n: nat, directories: map<Path, Path>)
    requires i < |names| && n >= |names[i]| && Directories(fold, names, i, n, directories)
    ensures Directories(fold, names, i + 1, 1, directories)
  {
    var next := i + 1;
    assert forall j: nat, l: nat :: AncestorBefore(names, j, l, i, n) <==> AncestorBefore(names, j, l, next, 1);
  }

  /** The folded-set and directory-map form of the check, as the Result loader performs it on file names. */
  method InventoryPathsAgree(names: seq<Path>, fold: Fold) returns (ok: bool)
    requires forall i | 0 <= i < |names| :: names[i] != []
    ensures ok <==> Acceptable(fold, FileMembers(names))
  {
    var folded: set<Path>, directories: map<Path, Path> := {}, map[];
    for i := 0 to |names|
      invariant FoldedNames(fold, names, i, folded) && Directories(fold, names, i, 1, directories)
    {
      var key := Folded(fold, names[i]);
      if key in folded {
        RepeatedFoldedName(fold, names, i, folded);
        return false;
      }
      folded := folded + {key};
      var spelled, after := NoteAncestors(fold, names, i, directories);
      if !spelled { return false; }
      directories := after;
    }
    InventoryDecides(fold, names, folded, directories);
    return folded !! directories.Keys;
  }

  lemma RepeatedFoldedName(fold: Fold, names: seq<Path>, i: nat, folded: set<Path>)
    requires i < |names| && names[i] != [] && FoldedNames(fold, names, i, folded) && Folded(fold, names[i]) in folded
    ensures !Acceptable(fold, FileMembers(names))
  {
    var j: nat :| j < i && Folded(fold, names[j]) == Folded(fold, names[i]);
    assert names[i][..|names[i]|] == names[i] && names[j][..|names[j]|] == names[j];
    if names[i] == names[j] {
      var members := FileMembers(names);
      assert members[j].path == members[i].path;
    } else {
      CaseClash(fold, names, i, |names[i]|, j, |names[j]|);
    }
  }

  lemma InventoryDecides(fold: Fold, names: seq<Path>, folded: set<Path>, directories: map<Path, Path>)
    requires forall i | 0 <= i < |names| :: names[i] != []
    requires FoldedNames(fold, names, |names|, folded) && Directories(fold, names, |names|, 1, directories)
    ensures folded !! directories.Keys <==> Acceptable(fold, FileMembers(names))
  {
    if folded !! directories.Keys {
      DisjointIsAcceptable(fold, names, folded, directories);
    } else {
      var k :| k in folded && k in directories;
      var i: nat :| i < |names| && Folded(fold, names[i]) == k;
      var j: nat, l: nat :| AncestorBefore(names, j, l, |names|, 1) && Folded(fold, names[j][..l]) == k;
      FileUnderFile(fold, names, i, j, l);
    }
  }

  lemma CaseClash(fold: Fold, names: seq<Path>, i: nat, n: nat, j: nat, l: nat)
    requires i < |names| && 1 <= n <= |names[i]| && j < |names| && 1 <= l <= |names[j]|
    requires Folded(fold, names[i][..n]) == Folded(fold, names[j][..l]) && names[i][..n] != names[j][..l]
    ensures !NoneDifferOnlyByCase(fold, FileMembers(names))
  {
    var members := FileMembers(names);
    assert names[i][..n] <= members[i].path && names[j][..l] <= members[j].path;
    assert InTree(members, names[i][..n]) && InTree(members, names[j][..l]);
  }

  lemma NameIsAncestor(names: seq<Path>, i: nat, j: nat, l: nat)
    requires i < |names| && j < |names| && l < |names[j]| && names[i] == names[j][..l]
    ensures !NoFileIsAnAncestor(FileMembers(names))
  {
    var members := FileMembers(names);
    assert members[i].path < members[j].path;
  }

  lemma FileUnderFile(fold: Fold, names: seq<Path>, i: nat, j: nat, l: nat)
    requires i < |names| && names[i] != [] && j < |names| && 1 <= l < |names[j]|
    requires Folded(fold, names[i]) == Folded(fold, names[j][..l])
    ensures !Acceptable(fold, FileMembers(names))
  {
    assert names[i][..|names[i]|] == names[i];
    if names[i] == names[j][..l] {
      NameIsAncestor(names, i, j, l);
    } else {
      CaseClash(fold, names, i, |names[i]|, j, l);
    }
  }

  lemma DisjointIsAcceptable(fold: Fold, names: seq<Path>, folded: set<Path>, directories: map<Path, Path>)
    requires forall i | 0 <= i < |names| :: names[i] != []
    requires FoldedNames(fold, names, |names|, folded) && Directories(fold, names, |names|, 1, directories)
    requires folded !! directories.Keys
    ensures Acceptable(fold, FileMembers(names))
  {
    assert NoPathRepeats(FileMembers(names));
    OneSpellingEach(fold, names, folded, directories);
    forall i, j | 0 <= i < |names| && 0 <= j < |names| ensures !(names[i] < names[j]) {
      NoNameIsAnAncestor(fold, names, folded, directories, i, j);
    }
  }

  lemma OneSpellingEach(fold: Fold, names: seq<Path>, folded: set<Path>, directories: map<Path, Path>)
    requires FoldedNames(fold, names, |names|, folded) && Directories(fold, names, |names|, 1, directories)
    requires folded !! directories.Keys
    ensures NoneDifferOnlyByCase(fold, FileMembers(names))
  {
    forall p, q | InTree(FileMembers(names), p) && InTree(FileMembers(names), q) && Folded(fold, p) == Folded(fold, q)
      ensures p == q
    {
      var i, n := Position(names, p);
      var j, l := Position(names, q);
      SameFormSamePath(fold, names, folded, directories, i, n, j, l);
    }
  }

  lemma Position(names: seq<Path>, p: Path) returns (i: nat, n: nat)
    requires InTree(FileMembers(names), p)
    ensures i < |names| && 1 <= n <= |names[i]| && names[i][..n] == p
  {
    i :| 0 <= i < |names| && p != [] && p <= FileMembers(names)[i].path;
    n := |p|;
  }

  lemma SameFormSamePath(
      fold: Fold, names: seq<Path>, folded: set<Path>, directories: map<Path, Path>, i: nat, n: nat, j: nat, l: nat)
    requires FoldedNames(fold, names, |names|, folded) && Directories(fold, names, |names|, 1, directories)
    requires folded !! directories.Keys
    requires i < |names| && 1 <= n <= |names[i]| && j < |names| && 1 <= l <= |names[j]|
    requires Folded(fold, names[i][..n]) == Folded(fold, names[j][..l])
    ensures names[i][..n] == names[j][..l]
  {
    NameOrAncestor(fold, names, folded, directories, i, n);
    NameOrAncestor(fold, names, folded, directories, j, l);
  }

  lemma PrefixIsTake(p: Path, q: Path)
    ensures p < q <==> |p| < |q| && q[..|p|] == p
  {
  }

  lemma NoNameIsAnAncestor(
      fold: Fold, names: seq<Path>, folded: set<Path>, directories: map<Path, Path>, i: nat, j: nat)
    requires FoldedNames(fold, names, |names|, folded) && Directories(fold, names, |names|, 1, directories)
    requires folded !! directories.Keys
    requires i < |names| && j < |names| && names[i] != []
    ensures !(names[i] < names[j])
  {
    PrefixIsTake(names[i], names[j]);
    if |names[i]| < |names[j]| {
      NameOrAncestor(fold, names, folded, directories, j, |names[i]|);
      assert Folded(fold, names[i]) in folded;
      assert names[j][..|names[i]|] != names[i];
    }
  }

  lemma NameOrAncestor(fold: Fold, names: seq<Path>, folded: set<Path>, directories: map<Path, Path>, i: nat, n: nat)
    requires FoldedNames(fold, names, |names|, folded) && Directories(fold, names, |names|, 1, directories)
    requires i < |names| && 1 <= n <= |names[i]|
    ensures n == |names[i]| ==> names[i][..n] == names[i] && Folded(fold, names[i][..n]) in folded
    ensures n < |names[i]| ==>
              Folded(fold, names[i][..n]) in directories && directories[Folded(fold, names[i][..n])] == names[i][..n]
  {
    if n == |names[i]| {
      assert names[i][..n] == names[i];
    } else {
      assert AncestorBefore(names, i, n, |names|, 1);
    }
  }
}
