/**
 Writing the validated payloads of one package into a repository tree: every target is checked before
 anything is written, then each file is replaced atomically, in order and without rollback.
 The tree is keyed by the names the file system tells apart, which may be fewer than the spellings.
 */
module PayloadTree {
  import opened Prelude
  import opened ByteOrder
  import opened BundlePaths

  /** `Special` is anything that is neither a directory nor a regular file, links included. */
  datatype Entry = Directory | File(content: Bytes, mode: nat) | Special

  type Tree = map<Path, Entry>

  datatype Payload = Payload(path: Path, content: Bytes, mode: Option<int>)

  datatype Failure = PathsRejected | TargetRejected | ModeRejected | TargetChanged | OsFailed

  /** One operating-system request made for payload `k`; `Os` says which requests fail. */
  datatype Request =
    | Inspect(k: nat, phase: Phase) | ReadState(k: nat, phase: Phase) | MakeDirectory(k: nat) | Stage(k: nat)
    | Replace(k: nat)

  datatype Phase = Validating | Preparing | Rechecking

  type Os = (Request, Path) -> bool

  ghost predicate Reliable(os: Os) { forall q, p :: !os(q, p) }

  function Parent(p: Path): Path
    requires p != []
  {
    p[..|p| - 1]
  }

  predicate HasDirectory(tree: Tree, p: Path) { p in tree && tree[p] == Directory }

  ghost predicate TreeValid(tree: Tree) {
    HasDirectory(tree, []) && forall p {:trigger Parent(p)} | p in tree && p != [] :: HasDirectory(tree, Parent(p))
  }

  /** Nothing on the way to `key` is a non-directory, and `key` is absent or a regular file. */
  predicate TargetFree(tree: Tree, key: Path) {
    ParentsFree(tree, key, |key|) && (key in tree ==> tree[key].File?)
  }

  predicate ParentsFree(tree: Tree, key: Path, n: nat)
    requires n <= |key|
  {
    forall m | 0 <= m < n && key[..m] in tree :: tree[key[..m]] == Directory
  }

  /** The tree with the missing ones among the first `n` ancestors of `key` added. */
  function WithParents(tree: Tree, key: Path, n: nat): Tree
    requires n <= |key|
  {
    if n == 0 || key[..n] in tree then if n == 0 then tree else WithParents(tree, key, n - 1)
    else WithParents(tree, key, n - 1)[key[..n] := Directory]
  }

  lemma {:induction false} WithParentsMeans(tree: Tree, key: Path, n: nat, p: Path)
    requires n <= |key|
    ensures p in tree ==> p in WithParents(tree, key, n) && WithParents(tree, key, n)[p] == tree[p]
    ensures p !in tree ==>
              && (p in WithParents(tree, key, n) <==> 1 <= |p| <= n && p == key[..|p|])
              && (p in WithParents(tree, key, n) ==> WithParents(tree, key, n)[p] == Directory)
  {
    if n > 0 { WithParentsMeans(tree, key, n - 1, p); }
  }

  // ---------------------------------------------------------------- permission bits

  const DEFAULT_PAYLOAD_MODE := 0x1A4 // rw-r--r--

  /** Only the nine permission bits: no setuid, setgid or sticky bit. */
  predicate OrdinaryMode(mode: int) { 0 <= mode < 0x200 }

  predicate GroupOrOtherMayWrite(mode: int) { (mode / 0x10) % 2 == 1 || (mode / 0x2) % 2 == 1 }

  function SelectMode(requested: Option<int>, existing: Option<int>): Option<int> {
    if requested.Some? && (!OrdinaryMode(requested.value) || GroupOrOtherMayWrite(requested.value)) then None
    else
      match existing
      case None => Some(requested.GetOr(DEFAULT_PAYLOAD_MODE))
      case Some(mode) => if OrdinaryMode(mode) then Some(mode) else None
  }

  function ExistingMode(tree: Tree, key: Path): Option<int> {
    if key in tree && tree[key].File? then Some(tree[key].mode) else None
  }

  /** A new file never grants shared write access; an existing ordinary mode always survives. */
  lemma ModesAreNeverWidened(requested: Option<int>, existing: Option<int>)
    ensures var mode := SelectMode(requested, existing);
            mode.Some? ==> OrdinaryMode(mode.value)
                           && (existing.None? ==> !GroupOrOtherMayWrite(mode.value))
                           && (existing.Some? ==> mode == existing)
  {
  }

  predicate HasWriteBit(digit: nat) { digit in {2, 3, 6, 7} }

  lemma WriteBitOfDigit(digit: nat)
    requires digit < 8
    ensures (digit / 2) % 2 == 1 <==> HasWriteBit(digit)
  {
  }

  lemma HalvedTwice(high: nat, low: nat)
    ensures (2 * high + low) % 2 == low % 2
  {
  }

  lemma WriteBitsByDigits(special: nat, owner: nat, group: nat, other: nat)
    requires owner < 8 && group < 8 && other < 8
    ensures GroupOrOtherMayWrite(512 * special + 64 * owner + 8 * group + other) <==>
              HasWriteBit(group) || HasWriteBit(other)
  {
    var mode := 512 * special + 64 * owner + 8 * group + other;
    assert mode / 0x10 == 2 * (16 * special + 2 * owner) + group / 2;
    assert mode / 0x2 == 2 * (128 * special + 16 * owner + 2 * group) + other / 2;
    HalvedTwice(16 * special + 2 * owner, group / 2);
    HalvedTwice(128 * special + 16 * owner + 2 * group, other / 2);
    WriteBitOfDigit(group);
    WriteBitOfDigit(other);
  }

  /** In octal digits: any owner rights, no write right for group or others, and nothing above the three digits. */
  lemma RequestedModesByDigits(special: nat, owner: nat, group: nat, other: nat)
    requires special < 8 && owner < 8 && group < 8 && other < 8
    ensures var mode := 512 * special + 64 * owner + 8 * group + other;
            && (SelectMode(Some(mode), None) == Some(mode) <==>
                   special == 0 && !HasWriteBit(group) && !HasWriteBit(other))
            && (SelectMode(None, Some(mode)) == Some(mode) <==> special == 0)
    ensures SelectMode(None, None) == Some(64 * 6 + 8 * 4 + 4)
  {
    hide GroupOrOtherMayWrite, HasWriteBit;
    WriteBitsByDigits(special, owner, group, other);
  }

  // ---------------------------------------------------------------- what a write phase may do

  function KeyOf(canon: Fold, p: Payload): Path { Folded(canon, p.path) }

  predicate Ready(canon: Fold, tree: Tree, p: Payload) {
    TargetFree(tree, KeyOf(canon, p)) && SelectMode(p.mode, ExistingMode(tree, KeyOf(canon, p))).Some?
  }

  function Written(canon: Fold, tree: Tree, p: Payload): Entry
    requires Ready(canon, tree, p)
  {
    File(p.content, SelectMode(p.mode, ExistingMode(tree, KeyOf(canon, p))).value)
  }

  /**
   The file at the payload's target has the payload's bytes; its mode is that of the file it replaced, or for a new
   file the requested or the default one. Only a regular file below real directories was replaced.
   */
  predicate InPlace(canon: Fold, tree: Tree, later: Tree, p: Payload) {
    var key := Folded(canon, p.path);
    && (key in tree ==> tree[key].File?)
    && (forall m | 0 <= m < |key| && key[..m] in tree :: tree[key[..m]].Directory?)
    && key in later && later[key].File? && later[key].content == p.content
    && later[key].mode ==
       if key in tree then tree[key].mode else if p.mode.Some? then p.mode.value else 0x1A4
  }

  predicate AllReady(canon: Fold, tree: Tree, payloads: seq<Payload>) {
    forall i | 0 <= i < |payloads| :: Ready(canon, tree, payloads[i])
  }

  predicate IsTarget(canon: Fold, payloads: seq<Payload>, done: nat, p: Path)
    requires done <= |payloads|
  {
    exists i :: 0 <= i < done && KeyOf(canon, payloads[i]) == p
  }

  predicate IsParent(canon: Fold, payloads: seq<Payload>, touched: nat, p: Path)
    requires touched <= |payloads|
  {
    exists i :: 0 <= i < touched && p < KeyOf(canon, payloads[i])
  }

  /**
   `later` is `tree` with exactly the first `done` payloads in place: nothing else changed, and the
   only additions are parent directories of the first `touched` payloads.
   */
  ghost predicate Progress(canon: Fold, tree: Tree, later: Tree, payloads: seq<Payload>, done: nat, touched: nat)
    requires done <= touched <= |payloads| && AllReady(canon, tree, payloads)
  {
    && (forall i | 0 <= i < done ::
          KeyOf(canon, payloads[i]) in later && later[KeyOf(canon, payloads[i])] == Written(canon, tree, payloads[i]))
    && (forall p | p in tree && !IsTarget(canon, payloads, done, p) :: p in later && later[p] == tree[p])
    && (forall p | p in later && p !in tree && !IsTarget(canon, payloads, done, p) ::
          later[p] == Directory && IsParent(canon, payloads, touched, p))
  }

  /** Every payload that is done is in place, byte for byte, and every other old file is as it was. */
  lemma DonePayloadsAreInPlace(
      canon: Fold, tree: Tree, later: Tree, payloads: seq<Payload>, done: nat, touched: nat)
    requires done <= touched <= |payloads| && AllReady(canon, tree, payloads)
    requires Progress(canon, tree, later, payloads, done, touched)
    ensures forall i | 0 <= i < done :: InPlace(canon, tree, later, payloads[i])
    ensures forall p | p in tree && (forall i | 0 <= i < done :: Folded(canon, payloads[i].path) != p) ::
              p in later && later[p] == tree[p]
  {
    hide SelectMode;
    forall i | 0 <= i < done ensures InPlace(canon, tree, later, payloads[i]) {
      assert Ready(canon, tree, payloads[i]);
      SelectedMode(payloads[i].mode, ExistingMode(tree, KeyOf(canon, payloads[i])));
    }
    forall p | p in tree && (forall i | 0 <= i < done :: Folded(canon, payloads[i].path) != p)
      ensures p in later && later[p] == tree[p]
    {
      assert forall i | 0 <= i < done :: KeyOf(canon, payloads[i]) == Folded(canon, payloads[i].path);
      assert !IsTarget(canon, payloads, done, p);
    }
  }

  /** An accepted mode is the existing one, or without one the requested or the default one. */
  lemma SelectedMode(requested: Option<int>, existing: Option<int>)
    requires SelectMode(requested, existing).Some?
    ensures SelectMode(requested, existing).value ==
            if existing.Some? then existing.value else if requested.Some? then requested.value else 0x1A4
  {
  }

  /** What validation requires: a portable list of paths, and every target free in the tree as it is. */
  ghost predicate WillWrite(canon: Fold, fold: Fold, tree: Tree, payloads: seq<Payload>) {
    Acceptable(fold, MembersOf(payloads)) && AllReady(canon, tree, payloads)
  }

  function MembersOf(payloads: seq<Payload>): (members: seq<Member>)
    ensures |members| == |payloads| && forall i | 0 <= i < |payloads| :: members[i] == Member(payloads[i].path, false)
  {
    seq(|payloads|, i requires 0 <= i < |payloads| => Member(payloads[i].path, false))
  }

  /** The file system never tells apart less than folding does. */
  ghost predicate Refines(canon: Fold, fold: Fold) { forall a, b :: canon(a) == canon(b) ==> fold(a) == fold(b) }

  ghost predicate Separate(canon: Fold, payloads: seq<Payload>) {
    forall i, j | 0 <= i < |payloads| && 0 <= j < |payloads| && i != j ::
      KeyOf(canon, payloads[i]) != KeyOf(canon, payloads[j]) && !(KeyOf(canon, payloads[i]) < KeyOf(canon, payloads[j]))
  }

  predicate NonEmpty(payloads: seq<Payload>) { forall i | 0 <= i < |payloads| :: payloads[i].path != [] }

  /** Validated paths stay apart on every file system that folding covers. */
  lemma ValidatedPathsAreSeparate(canon: Fold, fold: Fold, payloads: seq<Payload>)
    requires Refines(canon, fold) && NonEmpty(payloads) && Acceptable(fold, MembersOf(payloads))
    ensures Separate(canon, payloads)
  {
    var members := MembersOf(payloads);
    forall i, j | 0 <= i < |payloads| && 0 <= j < |payloads| && i != j
      ensures KeyOf(canon, payloads[i]) != KeyOf(canon, payloads[j])
              && !(KeyOf(canon, payloads[i]) < KeyOf(canon, payloads[j]))
    {
      if KeyOf(canon, payloads[i]) <= KeyOf(canon, payloads[j]) {
        SharedName(canon, fold, payloads, i, j);
      }
    }
  }

  lemma SharedName(canon: Fold, fold: Fold, payloads: seq<Payload>, i: nat, j: nat)
    requires Refines(canon, fold) && NonEmpty(payloads) && i < |payloads| && j < |payloads| && i != j
    requires KeyOf(canon, payloads[i]) <= KeyOf(canon, payloads[j])
    ensures !Acceptable(fold, MembersOf(payloads))
  {
    var p, q, members := payloads[i].path, payloads[j].path, MembersOf(payloads);
    var prefix := q[..|p|];
    forall n | 0 <= n < |p| ensures fold(p[n]) == fold(prefix[n]) {
      assert Folded(canon, p)[n] == Folded(canon, q)[n];
    }
    assert Folded(fold, p) == Folded(fold, prefix);
    assert p <= members[i].path && prefix <= members[j].path;
    assert InTree(members, p) && InTree(members, prefix);
    if p == prefix {
      if |p| == |q| { assert members[i].path == members[j].path; } else { assert members[i].path < members[j].path; }
    }
  }

  // ---------------------------------------------------------------- earlier writes leave later targets alone

  /** Whatever earlier payloads did, the next target is as free as it was at the start, with the same mode. */
  lemma NextTargetIsUntouched(canon: Fold, tree: Tree, later: Tree, payloads: seq<Payload>, k: nat)
    requires k < |payloads| && AllReady(canon, tree, payloads) && Separate(canon, payloads)
    requires Progress(canon, tree, later, payloads, k, k)
    ensures Ready(canon, later, payloads[k]) && Written(canon, later, payloads[k]) == Written(canon, tree, payloads[k])
  {
    var key := KeyOf(canon, payloads[k]);
    assert Ready(canon, tree, payloads[k]);
    assert !IsTarget(canon, payloads, k, key);
    forall n | 0 <= n < |key| && key[..n] in later ensures later[key[..n]] == Directory {
      AncestorIsNoTarget(canon, payloads, k, n);
    }
    if key in later && key !in tree {
      assert false by { TargetIsNoParent(canon, payloads, k); }
    }
  }

  lemma AncestorIsNoTarget(canon: Fold, payloads: seq<Payload>, k: nat, n: nat)
    requires k < |payloads| && Separate(canon, payloads) && n < |KeyOf(canon, payloads[k])|
    ensures !IsTarget(canon, payloads, k, KeyOf(canon, payloads[k])[..n])
  {
    var key := KeyOf(canon, payloads[k]);
    assert key[..n] < key;
  }

  lemma TargetIsNoParent(canon: Fold, payloads: seq<Payload>, k: nat)
    requires k < |payloads| && Separate(canon, payloads)
    ensures !IsParent(canon, payloads, k, KeyOf(canon, payloads[k]))
  {
  }

  lemma NothingWrittenYet(canon: Fold, tree: Tree, payloads: seq<Payload>)
    requires AllReady(canon, tree, payloads)
    ensures Progress(canon, tree, tree, payloads, 0, 0)
  {
  }

  /** Adding ancestors of the next target. */
  lemma ParentsAreProgress(canon: Fold, tree: Tree, later: Tree, payloads: seq<Payload>, k: nat, n: nat)
    requires k < |payloads| && AllReady(canon, tree, payloads) && n < |KeyOf(canon, payloads[k])|
    requires Progress(canon, tree, later, payloads, k, k)
    ensures Progress(canon, tree, WithParents(later, KeyOf(canon, payloads[k]), n), payloads, k, k + 1)
  {
    var key := KeyOf(canon, payloads[k]);
    var after := WithParents(later, key, n);
    forall p ensures p in later ==> p in after && after[p] == later[p] { WithParentsMeans(later, key, n, p); }
    forall p | p in after && p !in tree && !IsTarget(canon, payloads, k, p)
      ensures after[p] == Directory && IsParent(canon, payloads, k + 1, p)
    {
      if p in later {
        assert IsParent(canon, payloads, k, p);
        var i :| 0 <= i < k && p < KeyOf(canon, payloads[i]);
      } else {
        WithParentsMeans(later, key, n, p);
        assert p < key;
      }
    }
  }

  /** Replacing the target completes payload `k`. */
  lemma ReplacementIsProgress(canon: Fold, tree: Tree, later: Tree, payloads: seq<Payload>, k: nat, entry: Entry)
    requires k < |payloads| && AllReady(canon, tree, payloads) && Separate(canon, payloads)
    requires Progress(canon, tree, later, payloads, k, k + 1) && entry == Written(canon, tree, payloads[k])
    ensures Progress(canon, tree, later[KeyOf(canon, payloads[k]) := entry], payloads, k + 1, k + 1)
  {
    hide Written, Ready, KeyOf;
    var key := KeyOf(canon, payloads[k]);
    var after := later[key := entry];
    forall p ensures IsTarget(canon, payloads, k + 1, p) <==> IsTarget(canon, payloads, k, p) || p == key {
      if p == key { assert KeyOf(canon, payloads[k]) == p; }
    }
  }

  lemma EntryKeepsValidity(tree: Tree, key: Path, entry: Entry)
    requires TreeValid(tree) && key != [] && HasDirectory(tree, Parent(key))
    requires key in tree ==> tree[key].File?
    ensures TreeValid(tree[key := entry])
  {
  }

  datatype Target = Target(key: Path, state: Option<Entry>, mode: int)

  function TargetOf(canon: Fold, tree: Tree, p: Payload): Target
    requires Ready(canon, tree, p)
  {
    var key := KeyOf(canon, p);
    Target(key, if key in tree then Some(tree[key]) else None, SelectMode(p.mode, ExistingMode(tree, key)).value)
  }

  /** Making the parents changes nothing about the target itself. */
  lemma ParentsKeepTarget(canon: Fold, tree: Tree, p: Payload)
    requires p.path != [] && Ready(canon, tree, p) && TreeValid(tree)
    ensures var after := WithParents(tree, KeyOf(canon, p), |p.path| - 1);
            && Ready(canon, after, p) && TargetOf(canon, after, p) == TargetOf(canon, tree, p)
            && HasDirectory(after, Parent(KeyOf(canon, p)))
  {
    var key := KeyOf(canon, p);
    var after := WithParents(tree, key, |key| - 1);
    WithParentsMeans(tree, key, |key| - 1, key);
    forall m | 0 <= m < |key| && key[..m] in after ensures after[key[..m]] == Directory {
      WithParentsMeans(tree, key, |key| - 1, key[..m]);
    }
    WithParentsMeans(tree, key, |key| - 1, Parent(key));
  }

  /** One repository directory. */
  class RepositoryTree {
    const canon: Fold
    var nodes: Tree

    constructor (canon: Fold, nodes: Tree)
      ensures this.canon == canon && this.nodes == nodes
    {
      this.canon := canon;
      this.nodes := nodes;
    }

    /** Walk down the parents of the target; on request, create the missing ones. `Ok(false)`: one is missing. */
    method WalkParents(os: Os, k: nat, phase: Phase, key: Path, createParents: bool)
      returns (r: Result<bool, Failure>, ghost made: nat)
      requires TreeValid(nodes) && key != []
      modifies `nodes
      ensures made < |key| && nodes == if createParents then WithParents(old(nodes), key, made) else old(nodes)
      ensures TreeValid(nodes)
      ensures r.Ok? ==> ParentsFree(old(nodes), key, |key|)
      ensures r == Ok(true) ==> HasDirectory(nodes, Parent(key)) && (createParents ==> made == |key| - 1)
      ensures r == Ok(false) ==> !createParents && key !in nodes
      ensures r.Err? && Reliable(os) ==> !ParentsFree(old(nodes), key, |key|)
    {
      ghost var start := nodes;
      assert key[..0] == [];
      for n := 1 to |key|
        invariant TreeValid(nodes)
        invariant nodes == if createParents then WithParents(start, key, n - 1) else start
        invariant ParentsFree(start, key, n)
        invariant HasDirectory(nodes, key[..n - 1])
      {
        made := n - 1;
        var target := key[..n];
        if os(Inspect(k, phase), target) { return Err(OsFailed), n - 1; }
        WithParentsMeans(start, key, n - 1, target);
        if target !in nodes {
          if !createParents {
            NothingBelowMissing(start, key, n);
            return Ok(false), n - 1;
          }
          if os(MakeDirectory(k), target) { return Err(OsFailed), n - 1; }
          assert Parent(target) == key[..n - 1];
          EntryKeepsValidity(nodes, target, Directory);
          nodes := nodes[target := Directory];
        } else if nodes[target] != Directory {
          return Err(TargetRejected), n - 1;
        }
      }
      return Ok(true), |key| - 1;
    }

    method ResolveTarget(os: Os, k: nat, phase: Phase, relative: Path, createParents: bool)
      returns (r: Result<Path, Failure>, ghost made: nat)
      requires TreeValid(nodes) && relative != []
      modifies `nodes
      ensures made < |relative|
              && nodes == if createParents then WithParents(old(nodes), Folded(canon, relative), made) else old(nodes)
      ensures TreeValid(nodes)
      ensures r.Ok? ==>
                r.value == Folded(canon, relative) && TargetFree(old(nodes), r.value)
                && (createParents ==> made == |relative| - 1)
      ensures r.Err? && Reliable(os) ==> !TargetFree(old(nodes), Folded(canon, relative))
    {
      var key := Folded(canon, relative);
      var complete;
      complete, made := WalkParents(os, k, phase, key, createParents);
      if complete.Err? { return Err(complete.error), made; }
      if !complete.value { return Ok(key), made; }
      WithParentsMeans(old(nodes), key, made, key);
      if os(Inspect(k, phase), key) { return Err(OsFailed), made; }
      if key in nodes && !nodes[key].File? { return Err(TargetRejected), made; }
      return Ok(key), made;
    }

    method InspectTarget(os: Os, k: nat, phase: Phase, p: Payload, createParents: bool)
      returns (r: Result<Target, Failure>, ghost made: nat)
      requires TreeValid(nodes) && p.path != []
      modifies `nodes
      ensures made < |p.path| && nodes == if createParents
                then WithParents(old(nodes), KeyOf(canon, p), made) else old(nodes)
      ensures TreeValid(nodes)
      ensures r.Ok? ==>
                Ready(canon, old(nodes), p) && r.value == TargetOf(canon, old(nodes), p)
                && (createParents ==> made == |p.path| - 1)
      ensures r.Err? && Reliable(os) ==> !Ready(canon, old(nodes), p)
    {
      var key;
      key, made := ResolveTarget(os, k, phase, p.path, createParents);
      if key.Err? { return Err(key.error), made; }
      WithParentsMeans(old(nodes), key.value, made, key.value);
      if SelectMode(p.mode, None).None? { return Err(ModeRejected), made; }
      if os(ReadState(k, phase), key.value) { return Err(OsFailed), made; }
      var state := if key.value in nodes then Some(nodes[key.value]) else None;
      var mode := SelectMode(p.mode, if state.Some? && state.value.File? then Some(state.value.mode) else None);
      if mode.None? { return Err(ModeRejected), made; }
      return Ok(Target(key.value, state, mode.value)), made;
    }

    /** Check every path and every target; create nothing. */
    method ValidateTargets(os: Os, payloads: seq<Payload>, fold: Fold) returns (error: Option<Failure>)
      requires TreeValid(nodes) && NonEmpty(payloads)
      modifies `nodes
      ensures nodes == old(nodes)
      ensures error.None? ==> WillWrite(canon, fold, nodes, payloads)
      ensures error.Some? && Reliable(os) ==> !WillWrite(canon, fold, nodes, payloads)
    {
      if payloads == [] { return None; }
      var paths := ValidateMemberPaths(MembersOf(payloads), fold);
      if paths.Err? { return Some(PathsRejected); }
      for k := 0 to |payloads|
        invariant nodes == old(nodes)
        invariant forall i | 0 <= i < k :: Ready(canon, nodes, payloads[i])
      {
        ghost var made;
        var target;
        target, made := InspectTarget(os, k, Validating, payloads[k], false);
        if target.Err? { return Some(target.error); }
      }
      return None;
    }

    /** Stage, look again, and swap the file in. */
    method ReplaceTarget(os: Os, k: nat, p: Payload, target: Target) returns (error: Option<Failure>)
      requires TreeValid(nodes) && p.path != [] && Ready(canon, nodes, p) && target == TargetOf(canon, nodes, p)
      requires HasDirectory(nodes, Parent(target.key))
      modifies `nodes
      ensures TreeValid(nodes)
      ensures error.Some? ==> nodes == old(nodes) && !Reliable(os)
      ensures error.None? ==> nodes == old(nodes)[KeyOf(canon, p) := Written(canon, old(nodes), p)]
      ensures error.None? ==> InPlace(canon, old(nodes), nodes, p)
    {
      if os(Stage(k), target.key) { return Some(OsFailed); }
      ghost var made;
      var again;
      again, made := InspectTarget(os, k, Rechecking, p, false);
      if again.Err? { return Some(again.error); }
      if again.value.state != target.state { return Some(TargetChanged); }
      if os(Replace(k), target.key) { return Some(OsFailed); }
      EntryKeepsValidity(nodes, target.key, File(p.content, target.mode));
      nodes := nodes[target.key := File(p.content, target.mode)];
      return None;
    }

    /** Make the parents of one payload and replace its target. */
    method PlacePayload(os: Os, k: nat, p: Payload) returns (error: Option<Failure>, ghost made: nat)
      requires TreeValid(nodes) && p.path != [] && Ready(canon, nodes, p)
      modifies `nodes
      ensures TreeValid(nodes) && made < |p.path|
      ensures error.None? ==>
                nodes == WithParents(old(nodes), KeyOf(canon, p),
                    made)[KeyOf(canon, p) := Written(canon, old(nodes), p)]
      ensures error.Some? ==> nodes == WithParents(old(nodes), KeyOf(canon, p), made) && !Reliable(os)
    {
      var target;
      target, made := InspectTarget(os, k, Preparing, p, true);
      if target.Err? { return Some(target.error), made; }
      ParentsKeepTarget(canon, old(nodes), p);
      error := ReplaceTarget(os, k, p, target.value);
    }

    /** Payload `k`, with the first `k` in place and `start` the tree before all of them. */
    method WritePayload(os: Os, payloads: seq<Payload>, k: nat, ghost start: Tree) returns (error: Option<Failure>)
      requires TreeValid(nodes) && NonEmpty(payloads) && Separate(canon, payloads) && k < |payloads|
      requires AllReady(canon, start, payloads) && Progress(canon, start, nodes, payloads, k, k)
      modifies `nodes
      ensures TreeValid(nodes)
      ensures error.None? ==> Progress(canon, start, nodes, payloads, k + 1, k + 1)
      ensures error.Some? ==> Progress(canon, start, nodes, payloads, k, k + 1) && !Reliable(os)
    {
      NextTargetIsUntouched(canon, start, nodes, payloads, k);
      ghost var made;
      error, made := PlacePayload(os, k, payloads[k]);
      ParentsAreProgress(canon, start, old(nodes), payloads, k, made);
      if error.None? {
        ghost var before := WithParents(old(nodes), KeyOf(canon, payloads[k]), made);
        ReplacementIsProgress(canon, start, before, payloads, k, Written(canon, start, payloads[k]));
      }
    }

    /**
     All-or-first-k: with nothing failing outside, success exactly for an acceptable list of free targets,
     and then the tree is overlaid with the payloads; a failure at payload `written` leaves exactly the
     first `written` files replaced.
     */
    method WritePayloads(os: Os, payloads: seq<Payload>, fold: Fold)
      returns (error: Option<Failure>, ghost written: nat)
      requires TreeValid(nodes) && NonEmpty(payloads) && Refines(canon, fold)
      modifies `nodes
      ensures TreeValid(nodes)
      ensures error.None? ==> WillWrite(canon, fold, old(nodes), payloads)
                              && Progress(canon, old(nodes), nodes, payloads, |payloads|, |payloads|)
      ensures error.None? ==> forall i | 0 <= i < |payloads| :: InPlace(canon, old(nodes), nodes, payloads[i])
      ensures error.Some? ==>
                || nodes == old(nodes)
                || (WillWrite(canon, fold, old(nodes), payloads) && written < |payloads|
                    && Progress(canon, old(nodes), nodes, payloads, written, written + 1)
                    && forall i | 0 <= i < written :: InPlace(canon, old(nodes), nodes, payloads[i]))
      ensures Reliable(os) ==> (error.None? <==> WillWrite(canon, fold, old(nodes), payloads))
    {
      hide Progress, Separate, AllReady, Acceptable, TreeValid, InPlace;
      written := 0;
      error := ValidateTargets(os, payloads, fold);
      if error.Some? { return; }
      ValidatedPathsAreSeparate(canon, fold, payloads);
      ghost var start := nodes;
      NothingWrittenYet(canon, start, payloads);
      for k := 0 to |payloads|
        invariant TreeValid(nodes) && Progress(canon, start, nodes, payloads, k, k)
      {
        written := k;
        error := WritePayload(os, payloads, k, start);
        if error.Some? {
          DonePayloadsAreInPlace(canon, start, nodes, payloads, k, k + 1);
          return;
        }
      }
      DonePayloadsAreInPlace(canon, start, nodes, payloads, |payloads|, |payloads|);
      return None, |payloads|;
    }
  }

  lemma NothingBelowMissing(tree: Tree, key: Path, n: nat)
    requires TreeValid(tree) && 1 <= n < |key| && key[..n] !in tree && ParentsFree(tree, key, n)
    ensures ParentsFree(tree, key, |key|) && key !in tree
  {
    forall m | n <= m <= |key| ensures key[..m] !in tree { BelowMissing(tree, key, n, m); }
    assert key[..|key|] == key;
  }

  lemma {:induction false} BelowMissing(tree: Tree, key: Path, n: nat, m: nat)
    requires TreeValid(tree) && 1 <= n <= m <= |key| && key[..n] !in tree
    ensures key[..m] !in tree
    decreases m
  {
    if n < m {
      BelowMissing(tree, key, n, m - 1);
      assert Parent(key[..m]) == key[..m - 1];
    }
  }

  // ---------------------------------------------------------------- the overlay is determined

  lemma {:induction false} PrefixIsDirectory(tree: Tree, p: Path, key: Path)
    requires TreeValid(tree) && key in tree && p < key
    ensures HasDirectory(tree, p)
    decreases |key|
  {
    if |p| == |key| - 1 {
      assert p == Parent(key);
    } else {
      assert p == Parent(key)[..|p|];
      PrefixIsDirectory(tree, p, Parent(key));
    }
  }

  /** The old tree, the payloads and the modes determine the final tree. */
  lemma OverlayIsDetermined(canon: Fold, tree: Tree, one: Tree, two: Tree, payloads: seq<Payload>)
    requires AllReady(canon, tree, payloads) && TreeValid(one) && TreeValid(two)
    requires Progress(canon, tree, one, payloads, |payloads|, |payloads|)
    requires Progress(canon, tree, two, payloads, |payloads|, |payloads|)
    ensures one == two
  {
    forall p ensures p in one <==> p in two
             ensures p in one && p in two ==> one[p] == two[p] {
      OverlaysShare(canon, tree, one, two, payloads, p);
      OverlaysShare(canon, tree, two, one, payloads, p);
    }
  }

  lemma OverlaysShare(canon: Fold, tree: Tree, one: Tree, two: Tree, payloads: seq<Payload>, p: Path)
    requires AllReady(canon, tree, payloads) && TreeValid(two)
    requires Progress(canon, tree, one, payloads, |payloads|, |payloads|)
    requires Progress(canon, tree, two, payloads, |payloads|, |payloads|)
    ensures p in one ==> p in two && one[p] == two[p]
  {
    if p in one {
      if IsTarget(canon, payloads, |payloads|, p) {
        var i :| 0 <= i < |payloads| && KeyOf(canon, payloads[i]) == p;
      } else if p !in tree {
        var i :| 0 <= i < |payloads| && p < KeyOf(canon, payloads[i]);
        PrefixIsDirectory(two, p, KeyOf(canon, payloads[i]));
      }
    }
  }

  /** Checking targets alone is not enough: here both targets are free, and the first write blocks the second. */
  lemma FreeTargetsMayStillCollide(canon: Fold)
    ensures var tree: Tree := map[[] := Directory];
            var payloads := [Payload(["a"], [], None), Payload(["a", "b"], [], None)];
            AllReady(canon, tree, payloads)
            && !Ready(canon, tree[KeyOf(canon, payloads[0]) := Written(canon, tree, payloads[0])], payloads[1])
  {
    var tree: Tree := map[[] := Directory];
    var payloads := [Payload(["a"], [], None), Payload(["a", "b"], [], None)];
    var key0, key1 := KeyOf(canon, payloads[0]), KeyOf(canon, payloads[1]);
    assert key1[..0] == [] && key1[..1] == key0;
    assert forall p | p in tree :: p == [];
    assert AllReady(canon, tree, payloads);
  }
}
