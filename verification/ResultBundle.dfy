/**
 The Result format from both sides: the members the writer puts into the archive, the accounting the
 reader makes of them, and the byte budget both compute. Documents are opaque bytes; `Rules` are the
 blob name and SHA-256 of contents, and the caseless form of one path segment.
 */
module ResultBundle {
  import opened Prelude
  import opened ByteOrder
  import opened RepositoryPaths
  import BundlePaths

  // ---------------------------------------------------------------- names

  datatype Name =
    | ManifestName | ContextName | RunName | InstructionsName | EnvironmentName
    | RuntimeMetadataName | RuntimeArtifactName(version: string)
    | ExecutionLogName | StagedName | UnstagedName
    | BaseName(path: string) | UntrackedName(path: string)

  function TextOf(n: Name): string {
    match n
    case ManifestName => "manifest.json"
    case ContextName => "context.json"
    case RunName => "logs/run.json"
    case InstructionsName => "CHAT_INSTRUCTIONS.md"
    case EnvironmentName => "environment.json"
    case RuntimeMetadataName => "runtime/runtime.json"
    case RuntimeArtifactName(version) => "runtime/patchharbor-" + version + ".pyz"
    case ExecutionLogName => "logs/execution.log"
    case StagedName => "changes/staged.patch"
    case UnstagedName => "changes/unstaged.patch"
    case BaseName(path) => "base/" + path
    case UntrackedName(path) => "untracked/" + path
  }

  /** The letters that tell the kinds of members apart, and what remains of a variable name. */
  lemma TellingLetters(n: Name)
    ensures |TextOf(n)| > 4
    ensures TextOf(n)[0] == match n
                            case ManifestName => 'm' case InstructionsName => 'C' case EnvironmentName => 'e'
                            case RuntimeMetadataName => 'r' case RuntimeArtifactName(_) => 'r'
                            case RunName => 'l' case ExecutionLogName => 'l'
                            case ContextName => 'c' case StagedName => 'c' case UnstagedName => 'c'
                            case BaseName(_) => 'b' case UntrackedName(_) => 'u'
    ensures n.RunName? || n.ExecutionLogName? ==> |TextOf(n)| > 5 && (TextOf(n)[5] == 'r' <==> n.RunName?)
    ensures n.ContextName? || n.StagedName? || n.UnstagedName? ==>
              |TextOf(n)| > 8 && (TextOf(n)[1] == 'o' <==> n.ContextName?)
    ensures n.StagedName? || n.UnstagedName? ==> (TextOf(n)[8] == 's' <==> n.StagedName?)
    ensures n.RuntimeMetadataName? || n.RuntimeArtifactName? ==>
              |TextOf(n)| > 8 && (TextOf(n)[8] == 'r' <==> n.RuntimeMetadataName?)
    ensures n.BaseName? ==> |TextOf(n)| >= 5 && TextOf(n)[5..] == n.path
    ensures n.UntrackedName? ==> |TextOf(n)| >= 10 && TextOf(n)[10..] == n.path
    ensures n.RuntimeArtifactName? ==> |TextOf(n)| >= 24 && TextOf(n)[20..|TextOf(n)| - 4] == n.version
  {
  }

  /** Different names are different member paths. */
  lemma NamesAreDistinctTexts(a: Name, b: Name)
    ensures TextOf(a) == TextOf(b) <==> a == b
  {
    hide TextOf;
    TellingLetters(a);
    TellingLetters(b);
  }

  // ---------------------------------------------------------------- what goes in

  datatype RepositoryFile = RepositoryFile(path: string, executable: bool, content: Bytes)

  /** The captured repository: committed files, both patches, untracked files. */
  datatype Snapshot = Snapshot(
    base: seq<RepositoryFile>, staged: Bytes, unstaged: Bytes, untracked: seq<RepositoryFile>)

  datatype Documents = Documents(manifest: Bytes, context: Bytes, run: Bytes, instructions: Bytes, environment: Bytes)

  datatype Artifact = Artifact(version: string, bytes: Bytes, innerBytes: nat)

  /** The runtime data: metadata, and the start archive unless it is unavailable. */
  datatype Runtime = Runtime(metadata: Bytes, artifact: Option<Artifact>, reason: string)

  /** `executable` is absent when an archive carries no mode for the member; the writer always states it. */
  datatype Member = Member(name: Name, content: Bytes, executable: Option<bool>)

  datatype Policy = Policy(maxEntries: nat, maxContent: nat, maxTotal: nat)

  const MAX_RESULT_FILES := 250000
  const RESULT_AUXILIARY_ENTRIES := 10

  const DEFAULT_POLICY := Policy(MAX_RESULT_FILES + RESULT_AUXILIARY_ENTRIES, 256 * 1024 * 1024, 512 * 1024 * 1024)

  // ---------------------------------------------------------------- the writer

  function Plain(name: Name, content: Bytes): Member { Member(name, content, Some(false)) }

  function HeadMembers(d: Documents): seq<Member> {
    [Plain(ManifestName, d.manifest), Plain(ContextName, d.context), Plain(RunName, d.run),
     Plain(InstructionsName, d.instructions), Plain(EnvironmentName, d.environment)]
  }

  function RuntimeMembers(r: Runtime): seq<Member> {
    [Plain(RuntimeMetadataName, r.metadata)]
    + if r.artifact.Some? then [Plain(RuntimeArtifactName(r.artifact.value.version), r.artifact.value.bytes)] else []
  }

  function LogMembers(log: Option<Bytes>): seq<Member> {
    if log.Some? then [Plain(ExecutionLogName, log.value)] else []
  }

  function BaseMembers(files: seq<RepositoryFile>): (members: seq<Member>)
    ensures |members| == |files|
  {
    seq(|files|,
        i requires 0 <= i < |files| => Member(BaseName(files[i].path), files[i].content, Some(files[i].executable)))
  }

  function UntrackedMembers(files: seq<RepositoryFile>): (members: seq<Member>)
    ensures |members| == |files|
  {
    seq(|files|,
        i requires 0 <= i < |files| => Member(UntrackedName(files[i].path), files[i].content,
            Some(files[i].executable)))
  }

  function ChangeMembers(s: Snapshot): seq<Member> { [Plain(StagedName, s.staged), Plain(UnstagedName, s.unstaged)] }

  function FrontMembers(d: Documents, r: Runtime, log: Option<Bytes>): seq<Member> {
    HeadMembers(d) + (RuntimeMembers(r) + LogMembers(log))
  }

  /** All members, in writing order. */
  function WrittenMembers(d: Documents, s: Snapshot, r: Runtime, log: Option<Bytes>): seq<Member> {
    FrontMembers(d, r, log) + (BaseMembers(s.base) + (ChangeMembers(s) + UntrackedMembers(s.untracked)))
  }

  lemma FilesAreWritten(files: seq<RepositoryFile>, m: Member)
    ensures m in BaseMembers(files) <==>
              exists f :: f in files && m == Member(BaseName(f.path), f.content, Some(f.executable))
    ensures m in UntrackedMembers(files) <==>
              exists f :: f in files && m == Member(UntrackedName(f.path), f.content, Some(f.executable))
  {
    if m in BaseMembers(files) {
      var i :| 0 <= i < |files| && BaseMembers(files)[i] == m;
      assert files[i] in files;
    }
    if m in UntrackedMembers(files) {
      var i :| 0 <= i < |files| && UntrackedMembers(files)[i] == m;
      assert files[i] in files;
    }
    if f :| f in files && m == Member(BaseName(f.path), f.content, Some(f.executable)) {
      var i :| 0 <= i < |files| && files[i] == f;
      assert BaseMembers(files)[i] == m;
    }
    if f :| f in files && m == Member(UntrackedName(f.path), f.content, Some(f.executable)) {
      var i :| 0 <= i < |files| && files[i] == f;
      assert UntrackedMembers(files)[i] == m;
    }
  }

  /** Which members an archive has: every document, patch and file under its own name, and nothing else. */
  lemma MembersAreWritten(d: Documents, s: Snapshot, r: Runtime, log: Option<Bytes>, m: Member)
    ensures m in WrittenMembers(d, s, r, log) <==>
              || m == Member(ManifestName, d.manifest, Some(false))
              || m == Member(ContextName, d.context, Some(false))
              || m == Member(RunName, d.run, Some(false))
              || m == Member(InstructionsName, d.instructions, Some(false))
              || m == Member(EnvironmentName, d.environment, Some(false))
              || m == Member(RuntimeMetadataName, r.metadata, Some(false))
              || (r.artifact.Some?
                  && m == Member(RuntimeArtifactName(r.artifact.value.version), r.artifact.value.bytes, Some(false)))
              || (log.Some? && m == Member(ExecutionLogName, log.value, Some(false)))
              || (exists f :: f in s.base && m == Member(BaseName(f.path), f.content, Some(f.executable)))
              || m == Member(StagedName, s.staged, Some(false))
              || m == Member(UnstagedName, s.unstaged, Some(false))
              || (exists f :: f in s.untracked && m == Member(UntrackedName(f.path), f.content, Some(f.executable)))
  {
    hide BaseMembers, UntrackedMembers;
    FilesAreWritten(s.base, m);
    FilesAreWritten(s.untracked, m);
  }

  datatype WriteError = TooManyFiles | LogDisagrees

  method WriteResultBundle(d: Documents, s: Snapshot, r: Runtime, executionPresent: bool, log: Option<Bytes>)
    returns (result: Result<seq<Member>, WriteError>)
    ensures result == if |s.base| + |s.untracked| > MAX_RESULT_FILES then Err(TooManyFiles)
                      else if executionPresent != log.Some? then Err(LogDisagrees)
                      else Ok(WrittenMembers(d, s, r, log))
  {
    if |s.base| + |s.untracked| > MAX_RESULT_FILES { return Err(TooManyFiles); }
    if executionPresent != log.Some? { return Err(LogDisagrees); }
    hide FrontMembers, BaseMembers, UntrackedMembers;
    var archive := WriteFront(d, r, log);
    archive := WriteFiles(archive, Base, s.base);
    archive := archive + ChangeMembers(s);
    archive := WriteFiles(archive, Untracked, s.untracked);
    Regrouped(FrontMembers(d, r, log), BaseMembers(s.base), ChangeMembers(s), UntrackedMembers(s.untracked));
    return Ok(archive);
  }

  lemma Regrouped(a: seq<Member>, b: seq<Member>, c: seq<Member>, e: seq<Member>)
    ensures ((a + b) + c) + e == a + (b + (c + e))
  {
  }

  method WriteFront(d: Documents, r: Runtime, log: Option<Bytes>) returns (archive: seq<Member>)
    ensures archive == FrontMembers(d, r, log)
  {
    archive := HeadMembers(d);
    archive := archive + [Plain(RuntimeMetadataName, r.metadata)];
    if r.artifact.Some? {
      archive := archive + [Plain(RuntimeArtifactName(r.artifact.value.version), r.artifact.value.bytes)];
    }
    if log.Some? { archive := archive + [Plain(ExecutionLogName, log.value)]; }
  }

  function FileMembers(kind: Kind, files: seq<RepositoryFile>): (members: seq<Member>) {
    if kind == Base then BaseMembers(files) else UntrackedMembers(files)
  }

  method WriteFiles(archive: seq<Member>, kind: Kind, files: seq<RepositoryFile>) returns (longer: seq<Member>)
    ensures longer == archive + FileMembers(kind, files)
  {
    longer := archive;
    for i := 0 to |files|
      invariant longer == archive + FileMembers(kind, files)[..i]
    {
      longer := longer + [Member(NameFor(kind, files[i].path), files[i].content, Some(files[i].executable))];
    }
  }

  // ---------------------------------------------------------------- the producer's budget

  function ContentsOf(members: seq<Member>): seq<Bytes> {
    seq(|members|, i requires 0 <= i < |members| => members[i].content)
  }

  function ByteSum(contents: seq<Bytes>): nat { if contents == [] then 0 else |contents[0]| + ByteSum(contents[1..]) }

  predicate EachWithin(contents: seq<Bytes>, limit: nat) { forall i | 0 <= i < |contents| :: |contents[i]| <= limit }

  function FileContents(files: seq<RepositoryFile>): seq<Bytes> {
    seq(|files|, i requires 0 <= i < |files| => files[i].content)
  }

  function RuntimeContents(r: Runtime): seq<Bytes> {
    [r.metadata] + if r.artifact.Some? then [r.artifact.value.bytes] else []
  }

  /** The contents in the order the producer lists them. */
  function BudgetedContents(d: Documents, s: Snapshot, r: Runtime, log: Option<Bytes>): seq<Bytes> {
    [d.manifest, d.context, d.run, d.instructions, d.environment] + ([s.staged, s.unstaged]
    + (FileContents(s.base) + (FileContents(s.untracked)
          + ((if log.Some? then [log.value] else []) + RuntimeContents(r)))))
  }

  function InnerBytes(r: Runtime): nat { if r.artifact.Some? then r.artifact.value.innerBytes else 0 }

  predicate RuntimeFits(d: Documents, s: Snapshot, r: Runtime, log: Option<Bytes>, policy: Policy) {
    var contents := BudgetedContents(d, s, r, log);
    && |contents| <= policy.maxEntries && EachWithin(contents, policy.maxContent)
    && ByteSum(contents) + InnerBytes(r) <= policy.maxTotal
  }

  // ---------------------------------------------------------------- the reader

  datatype Rules = Rules(blob: Bytes -> string, sha256: Bytes -> string, fold: BundlePaths.Fold)

  datatype Fact = Fact(path: string, size: nat, mode: string, digest: string)

  datatype Descriptor = Descriptor(name: Name, size: nat, sha256: string)

  /** The manifest's inventory, and the warnings of the run document. */
  datatype Manifest = Manifest(
    started: bool, metadata: Descriptor, artifact: Option<Descriptor>, base: seq<Fact>, untracked: seq<Fact>,
    warnings: seq<string>)

  datatype Kind = Base | Untracked

  function NameFor(kind: Kind, path: string): Name { if kind == Base then BaseName(path) else UntrackedName(path) }

  function FileAt(files: seq<Member>, name: Name): Option<Member> {
    if files == [] then None else if files[0].name == name then Some(files[0]) else FileAt(files[1..], name)
  }

  predicate DistinctNames(files: seq<Member>) { forall i, j | 0 <= i < j < |files| :: files[i].name != files[j].name }

  function Names(files: seq<Member>): set<Name> { set f | f in files :: f.name }

  predicate FactHolds(rules: Rules, kind: Kind, fact: Fact, file: Option<Member>) {
    && file.Some? && fact.size == |file.value.content|
    && fact.mode in {"100644", "100755"}
    && (file.value.executable.Some? ==> (file.value.executable.value <==> fact.mode == "100755"))
    && fact.digest == (if kind == Base then rules.blob(file.value.content) else rules.sha256(file.value.content))
  }

  predicate DescriptorHolds(rules: Rules, d: Descriptor, file: Option<Member>) {
    file.Some? && d.size == |file.value.content| && d.sha256 == rules.sha256(file.value.content)
  }

  predicate DistinctPaths(facts: seq<Fact>) { forall i, j | 0 <= i < j < |facts| :: facts[i].path != facts[j].path }

  function InventoryNames(kind: Kind, facts: seq<Fact>): set<Name> { set f | f in facts :: NameFor(kind, f.path) }

  function FixedNames(m: Manifest): set<Name> {
    {ManifestName, ContextName, RunName, StagedName, UnstagedName, InstructionsName, EnvironmentName, m.metadata.name}
    + (if m.started then {ExecutionLogName} else {}) + (if m.artifact.Some? then {m.artifact.value.name} else {})
  }

  /** Exactly the members the manifest accounts for. */
  function RequiredNames(m: Manifest): set<Name> {
    FixedNames(m) + InventoryNames(Base, m.base) + InventoryNames(Untracked, m.untracked)
  }

  predicate RuntimeNamed(m: Manifest) {
    m.metadata.name == RuntimeMetadataName && (m.artifact.Some? ==> m.artifact.value.name.RuntimeArtifactName?)
  }

  predicate InventoryHolds(rules: Rules, kind: Kind, facts: seq<Fact>, files: seq<Member>) {
    DistinctPaths(facts) && forall i | 0 <= i < |facts| ::
      FactHolds(rules, kind, facts[i], FileAt(files, NameFor(kind, facts[i].path)))
  }

  /** The outer budget, and what it leaves for the inside of the start archive. */
  predicate OuterBudget(files: seq<Member>, policy: Policy) {
    |files| <= policy.maxEntries && EachWithin(ContentsOf(files), policy.maxContent)
      && ByteSum(ContentsOf(files)) <= policy.maxTotal
  }

  predicate RuntimeHolds(rules: Rules, m: Manifest, files: seq<Member>, innerBytes: nat, policy: Policy) {
    && RuntimeNamed(m) && DescriptorHolds(rules, m.metadata, FileAt(files, m.metadata.name))
    && (m.artifact.None? ==> m.warnings != [])
    && (m.artifact.Some? ==>
          && DescriptorHolds(rules, m.artifact.value, FileAt(files, m.artifact.value.name)) && m.artifact.value.size > 0
          && innerBytes <= policy.maxTotal - ByteSum(ContentsOf(files)))
  }

  function FactPaths(facts: seq<Fact>): seq<string> { seq(|facts|, i requires 0 <= i < |facts| => facts[i].path) }

  /** The accounting of an archive's members against its manifest. */
  predicate AccountingHolds(rules: Rules, m: Manifest, files: seq<Member>, innerBytes: nat, policy: Policy) {
    && DistinctNames(files) && OuterBudget(files, policy)
    && RuntimeHolds(rules, m, files, innerBytes, policy)
    && |m.base| + |m.untracked| <= MAX_RESULT_FILES
    && InventoryHolds(rules, Base, m.base, files) && InventoryHolds(rules, Untracked, m.untracked, files)
    && PathsValid(rules.fold, FactPaths(m.base) + FactPaths(m.untracked))
    && Names(files) == RequiredNames(m)
  }

  lemma {:induction false} FileAtFinds(files: seq<Member>, name: Name)
    ensures FileAt(files, name).Some? <==> name in Names(files)
    ensures DistinctNames(files) ==>
              forall i | 0 <= i < |files| && files[i].name == name :: FileAt(files, name) == Some(files[i])
  {
    if files != [] {
      FileAtFinds(files[1..], name);
      assert files == [files[0]] + files[1..];
      assert Names(files) == {files[0].name} + Names(files[1..]);
    }
  }

  /** One half of the inventory: every fact against its member, no member twice. */
  method CheckInventory(rules: Rules, kind: Kind, facts: seq<Fact>, files: seq<Member>, expected: set<Name>)
    returns (ok: bool, grown: set<Name>)
    requires forall p :: NameFor(kind, p) !in expected
    ensures ok <==> InventoryHolds(rules, kind, facts, files)
    ensures ok ==> grown == expected + InventoryNames(kind, facts)
  {
    hide FactHolds, FileAt, InventoryNames, DistinctPaths;
    NothingYet(kind, facts);
    grown := expected;
    for i := 0 to |facts|
      invariant grown == expected + InventoryNames(kind, facts[..i])
      invariant DistinctPaths(facts[..i])
      invariant forall k | 0 <= k < i :: FactHolds(rules, kind, facts[k], FileAt(files, NameFor(kind, facts[k].path)))
    {
      var name := NameFor(kind, facts[i].path);
      if name in grown {
        RepeatedPath(kind, facts, i);
        return false, grown;
      }
      if !FactHolds(rules, kind, facts[i], FileAt(files, name)) { return false, grown; }
      NewPath(kind, facts, i);
      grown := grown + {name};
    }
    assert facts[..|facts|] == facts;
    return true, grown;
  }

  lemma NothingYet(kind: Kind, facts: seq<Fact>)
    ensures InventoryNames(kind, facts[..0]) == {} && DistinctPaths(facts[..0])
  {
  }

  lemma RepeatedPath(kind: Kind, facts: seq<Fact>, i: nat)
    requires i < |facts| && NameFor(kind, facts[i].path) in InventoryNames(kind, facts[..i])
    ensures !DistinctPaths(facts)
  {
    var f :| f in facts[..i] && NameFor(kind, f.path) == NameFor(kind, facts[i].path);
    var k :| 0 <= k < i && facts[k] == f;
    assert facts[k].path == facts[i].path;
  }

  lemma NewPath(kind: Kind, facts: seq<Fact>, i: nat)
    requires i < |facts| && DistinctPaths(facts[..i])
             && NameFor(kind, facts[i].path) !in InventoryNames(kind, facts[..i])
    ensures DistinctPaths(facts[..i + 1])
    ensures InventoryNames(kind, facts[..i + 1]) == InventoryNames(kind, facts[..i]) + {NameFor(kind, facts[i].path)}
  {
    assert facts[..i + 1] == facts[..i] + [facts[i]];
    forall k | 0 <= k < i ensures facts[k].path != facts[i].path {
      assert facts[..i][k] in facts[..i];
    }
    forall k, l | 0 <= k < l < i + 1 ensures facts[k].path != facts[l].path {
      if l < i { assert facts[..i][k].path != facts[..i][l].path; }
    }
  }

  method ParseResultPayloads(rules: Rules, m: Manifest, files: seq<Member>, innerBytes: nat, policy: Policy)
    returns (ok: bool)
    ensures ok <==> AccountingHolds(rules, m, files, innerBytes, policy)
  {
    if !DistinctNames(files) || !OuterBudget(files, policy) { return false; }
    if !RuntimeHolds(rules, m, files, innerBytes, policy) { return false; }
    if |m.base| + |m.untracked| > MAX_RESULT_FILES { return false; }
    var expected := {ManifestName, ContextName, RunName, StagedName, UnstagedName};
    if m.started { expected := expected + {ExecutionLogName}; }
    expected := expected + {InstructionsName, EnvironmentName};
    expected := expected + {m.metadata.name};
    if m.artifact.Some? { expected := expected + {m.artifact.value.name}; }
    assert expected == FixedNames(m);
    var holds;
    holds, expected := CheckInventory(rules, Base, m.base, files, expected);
    if !holds { return false; }
    holds, expected := CheckInventory(rules, Untracked, m.untracked, files, expected);
    if !holds { return false; }
    var pathsValid := ValidateRepositoryPaths(rules.fold, FactPaths(m.base) + FactPaths(m.untracked));
    if !pathsValid { return false; }
    return Names(files) == expected;
  }

  // ---------------------------------------------------------------- what acceptance means

  /** Some member has this name and content of this size. */
  predicate Stated(files: seq<Member>, name: Name, size: nat, digest: Bytes -> string, stated: string) {
    exists f :: f in files && f.name == name && |f.content| == size && digest(f.content) == stated
  }

  /** Some member below the half's directory is the file of the fact: bytes, digest, and mode where it is stated. */
  predicate IsInArchive(rules: Rules, kind: Kind, fact: Fact, files: seq<Member>) {
    && fact.mode in {"100644", "100755"}
    && exists f ::
         && f in files && f.name == (if kind == Base then BaseName(fact.path) else UntrackedName(fact.path))
         && |f.content| == fact.size
         && (if kind == Base then rules.blob(f.content) else rules.sha256(f.content)) == fact.digest
         && f.executable in {None, Some(fact.mode == "100755")}
  }

  lemma LookupFindsTheMember(files: seq<Member>, name: Name, f: Member)
    requires DistinctNames(files)
    ensures FileAt(files, name) == Some(f) <==> f in files && f.name == name
  {
    FileAtFinds(files, name);
    if f in files && f.name == name {
      var i :| 0 <= i < |files| && files[i] == f;
    }
    if FileAt(files, name) == Some(f) { FoundIsMember(files, name); }
  }

  lemma {:induction false} FoundIsMember(files: seq<Member>, name: Name)
    requires FileAt(files, name).Some?
    ensures FileAt(files, name).value in files && FileAt(files, name).value.name == name
  {
    if files[0].name != name { FoundIsMember(files[1..], name); }
  }

  lemma FactMeans(rules: Rules, kind: Kind, fact: Fact, files: seq<Member>)
    requires DistinctNames(files)
    ensures FactHolds(rules, kind, fact, FileAt(files, NameFor(kind, fact.path))) <==>
              IsInArchive(rules, kind, fact, files)
  {
    hide FileAt, DistinctNames;
    var name := NameFor(kind, fact.path);
    forall f ensures FileAt(files, name) == Some(f) <==> f in files && f.name == name {
      LookupFindsTheMember(files, name, f);
    }
    if FileAt(files, name).Some? {
      var f := FileAt(files, name).value;
      assert f in files && f.name == name;
      assert f.executable in {None, Some(fact.mode == "100755")} <==>
        (f.executable.Some? ==> (f.executable.value <==> fact.mode == "100755"));
    }
  }

  lemma DescriptorMeans(rules: Rules, d: Descriptor, files: seq<Member>)
    requires DistinctNames(files)
    ensures DescriptorHolds(rules, d, FileAt(files, d.name)) <==>
              Stated(files, d.name, d.size, rules.sha256, d.sha256)
  {
    hide FileAt, DistinctNames;
    forall f ensures FileAt(files, d.name) == Some(f) <==> f in files && f.name == d.name {
      LookupFindsTheMember(files, d.name, f);
    }
  }

  function Joined(contents: seq<Bytes>): Bytes { if contents == [] then [] else contents[0] + Joined(contents[1..]) }

  /** The byte sum is the length of all contents one after the other. */
  lemma {:induction false} SumIsTheLength(contents: seq<Bytes>)
    ensures ByteSum(contents) == |Joined(contents)|
  {
    if contents != [] { SumIsTheLength(contents[1..]); }
  }

  lemma BudgetMeans(files: seq<Member>, policy: Policy)
    ensures OuterBudget(files, policy) <==>
              && |files| <= policy.maxEntries && (forall f | f in files :: |f.content| <= policy.maxContent)
              && |Joined(ContentsOf(files))| <= policy.maxTotal
  {
    SumIsTheLength(ContentsOf(files));
    if EachWithin(ContentsOf(files), policy.maxContent) {
      forall f | f in files ensures |f.content| <= policy.maxContent {
        var i :| 0 <= i < |files| && files[i] == f;
        assert ContentsOf(files)[i] == f.content;
      }
    }
  }

  /** The runtime's metadata are there as stated; so is a start archive that fits, or a warning why there is none. */
  predicate RuntimeIsInArchive(rules: Rules, m: Manifest, files: seq<Member>, innerBytes: nat, policy: Policy) {
    && m.metadata.name == RuntimeMetadataName
    && Stated(files, RuntimeMetadataName, m.metadata.size, rules.sha256, m.metadata.sha256)
    && if m.artifact.None? then |m.warnings| > 0
       else
         var artifact := m.artifact.value;
         && artifact.name.RuntimeArtifactName? && artifact.size > 0
         && Stated(files, artifact.name, artifact.size, rules.sha256, artifact.sha256)
         && |Joined(ContentsOf(files))| + innerBytes <= policy.maxTotal
  }

  lemma RuntimeMeans(rules: Rules, m: Manifest, files: seq<Member>, innerBytes: nat, policy: Policy)
    requires DistinctNames(files)
    ensures RuntimeHolds(rules, m, files, innerBytes, policy) <==>
              RuntimeIsInArchive(rules, m, files, innerBytes, policy)
  {
    hide DescriptorHolds, Stated, FileAt, DistinctNames, ByteSum, Joined, ContentsOf;
    SumIsTheLength(ContentsOf(files));
    DescriptorMeans(rules, m.metadata, files);
    if m.artifact.Some? { DescriptorMeans(rules, m.artifact.value, files); }
  }

  predicate HalfIsInArchive(rules: Rules, kind: Kind, facts: seq<Fact>, files: seq<Member>) {
    && (forall i, j | 0 <= i < j < |facts| :: facts[i].path != facts[j].path)
    && forall i | 0 <= i < |facts| :: IsInArchive(rules, kind, facts[i], files)
  }

  lemma HalfMeans(rules: Rules, kind: Kind, facts: seq<Fact>, files: seq<Member>)
    requires DistinctNames(files)
    ensures InventoryHolds(rules, kind, facts, files) <==> HalfIsInArchive(rules, kind, facts, files)
  {
    hide FactHolds, FileAt, DistinctNames, IsInArchive;
    forall i | 0 <= i < |facts|
      ensures FactHolds(rules, kind, facts[i], FileAt(files, NameFor(kind, facts[i].path))) <==>
                IsInArchive(rules, kind, facts[i], files)
    {
      FactMeans(rules, kind, facts[i], files);
    }
  }

  /** The accounting in terms of the members themselves: names, bytes, sizes, digests and modes. */
  lemma AccountingMeans(rules: Rules, m: Manifest, files: seq<Member>, innerBytes: nat, policy: Policy)
    ensures AccountingHolds(rules, m, files, innerBytes, policy) <==>
              && (forall i, j | 0 <= i < j < |files| :: files[i].name != files[j].name)
              && |files| <= policy.maxEntries && (forall f | f in files :: |f.content| <= policy.maxContent)
              && |Joined(ContentsOf(files))| <= policy.maxTotal
              && RuntimeIsInArchive(rules, m, files, innerBytes, policy)
              && |m.base| + |m.untracked| <= 250000
              && HalfIsInArchive(rules, Base, m.base, files) && HalfIsInArchive(rules, Untracked, m.untracked, files)
              && PathsValid(rules.fold, FactPaths(m.base) + FactPaths(m.untracked))
              && Names(files) == RequiredNames(m)
  {
    hide OuterBudget, RuntimeHolds, InventoryHolds, RuntimeIsInArchive, HalfIsInArchive, PathsValid, Names;
    hide RequiredNames, Joined, ContentsOf, FactPaths;
    BudgetMeans(files, policy);
    if DistinctNames(files) {
      RuntimeMeans(rules, m, files, innerBytes, policy);
      HalfMeans(rules, Base, m.base, files);
      HalfMeans(rules, Untracked, m.untracked, files);
    }
  }

  /** The members whose content a manifest accounts for. */
  predicate IsAccounted(n: Name) {
    n.BaseName? || n.UntrackedName? || n.RuntimeMetadataName? || n.RuntimeArtifactName?
  }

  ghost predicate Injective(digest: Bytes -> string) { forall x, y :: digest(x) == digest(y) ==> x == y }

  /**
   With collision-free digests a manifest determines what it accounts for: two accepted archives have the same members,
   and every repository file and runtime file in them has the same bytes, and the same mode where both state it.
   */
  lemma AcceptedContentIsDetermined(
      rules: Rules, m: Manifest, one: seq<Member>, two: seq<Member>, inner: nat, inner': nat, policy: Policy)
    requires AccountingHolds(rules, m, one, inner, policy) && AccountingHolds(rules, m, two, inner', policy)
    requires Injective(rules.blob) && Injective(rules.sha256)
    ensures Names(one) == Names(two)
    ensures forall f, g | f in one && g in two && f.name == g.name && IsAccounted(f.name) ::
              f.content == g.content
              && (f.name.BaseName? || f.name.UntrackedName? ==>
                    f.executable == g.executable || f.executable.None? || g.executable.None?)
  {
    hide Injective, RuntimeHolds, InventoryHolds, OuterBudget, PathsValid, FactPaths;
    forall f, g | f in one && g in two && f.name == g.name && IsAccounted(f.name)
      ensures f.content == g.content
      ensures f.name.BaseName? || f.name.UntrackedName? ==>
                f.executable == g.executable || f.executable.None? || g.executable.None?
    {
      assert f.name in Names(one);
      LookupFindsTheMember(one, f.name, f);
      LookupFindsTheMember(two, f.name, g);
      SameMember(rules, m, one, two, inner, inner', policy, f, g);
    }
  }

  lemma NamedInManifest(m: Manifest, n: Name)
    requires RuntimeNamed(m) && n in RequiredNames(m) && IsAccounted(n)
    ensures n.BaseName? ==> exists i :: 0 <= i < |m.base| && m.base[i].path == n.path
    ensures n.UntrackedName? ==> exists i :: 0 <= i < |m.untracked| && m.untracked[i].path == n.path
    ensures n.RuntimeMetadataName? ==> n == m.metadata.name
    ensures n.RuntimeArtifactName? ==> m.artifact.Some? && n == m.artifact.value.name
  {
    if n.BaseName? {
      var f :| f in m.base && NameFor(Base, f.path) == n;
    } else if n.UntrackedName? {
      var f :| f in m.untracked && NameFor(Untracked, f.path) == n;
    }
  }

  lemma SameMember(
      rules: Rules, m: Manifest, one: seq<Member>, two: seq<Member>, inner: nat, inner': nat, policy: Policy,
      f: Member, g: Member)
    requires AccountingHolds(rules, m, one, inner, policy) && AccountingHolds(rules, m, two, inner', policy)
    requires Injective(rules.blob) && Injective(rules.sha256) && f.name in RequiredNames(m) && IsAccounted(f.name)
    requires FileAt(one, f.name) == Some(f) && FileAt(two, f.name) == Some(g)
    ensures f.content == g.content
    ensures f.name.BaseName? || f.name.UntrackedName? ==>
              f.executable == g.executable || f.executable.None? || g.executable.None?
  {
    hide FileAt, RequiredNames, Names, DistinctNames, OuterBudget, PathsValid, FactPaths;
    NamedInManifest(m, f.name);
    if f.name.BaseName? {
      var i :| 0 <= i < |m.base| && m.base[i].path == f.name.path;
      assert FactHolds(rules, Base, m.base[i], Some(f)) && FactHolds(rules, Base, m.base[i], Some(g));
    } else if f.name.UntrackedName? {
      var i :| 0 <= i < |m.untracked| && m.untracked[i].path == f.name.path;
      assert FactHolds(rules, Untracked, m.untracked[i], Some(f));
      assert FactHolds(rules, Untracked, m.untracked[i], Some(g));
    }
  }

  // ---------------------------------------------------------------- the two sides agree

  function FactsOf(files: seq<RepositoryFile>, digest: Bytes -> string): (facts: seq<Fact>)
    ensures |facts| == |files|
  {
    seq(|files|, i requires 0 <= i < |files| =>
      Fact(files[i].path, |files[i].content|, if files[i].executable then "100755" else "100644",
          digest(files[i].content)))
  }

  function DescriptorOf(rules: Rules, name: Name, content: Bytes): Descriptor {
    Descriptor(name, |content|, rules.sha256(content))
  }

  function FirstOfEach(texts: seq<string>, seen: set<string>): seq<string> {
    if texts == [] then []
    else if texts[0] in seen then FirstOfEach(texts[1..], seen)
    else [texts[0]] + FirstOfEach(texts[1..], seen + {texts[0]})
  }

  function RuntimeWarnings(r: Runtime): seq<string> {
    if r.artifact.Some? then [] else ["runtime unavailable: " + r.reason]
  }

  /** The report's warnings and the runtime's, each once. */
  function CompletedWarnings(warnings: seq<string>, r: Runtime): (completed: seq<string>)
    ensures r.artifact.None? ==> completed != []
  {
    FirstOfEach(warnings + RuntimeWarnings(r), {})
  }

  /** Each warning once, none lost and none invented, and in the order of their first occurrences. */
  lemma {:induction false} EachWarningOnce(texts: seq<string>, seen: set<string>)
    ensures var once := FirstOfEach(texts, seen);
            && (forall i, j | 0 <= i < j < |once| :: once[i] != once[j])
            && (forall t :: t in once <==> t in texts && t !in seen)
    ensures forall k | 0 <= k <= |texts| :: FirstOfEach(texts[..k], seen) <= FirstOfEach(texts, seen)
  {
    if texts != [] {
      var later := if texts[0] in seen then seen else seen + {texts[0]};
      EachWarningOnce(texts[1..], later);
      assert texts == [texts[0]] + texts[1..];
      forall k | 0 <= k <= |texts| ensures FirstOfEach(texts[..k], seen) <= FirstOfEach(texts, seen) {
        if k > 0 { assert texts[..k][0] == texts[0] && texts[..k][1..] == texts[1..][..k - 1]; }
      }
    }
  }

  function ManifestOf(rules: Rules, s: Snapshot, r: Runtime, started: bool, warnings: seq<string>): Manifest {
    Manifest(started, DescriptorOf(rules, RuntimeMetadataName, r.metadata),
             if r.artifact.Some? then Some(
                 DescriptorOf(rules, RuntimeArtifactName(r.artifact.value.version), r.artifact.value.bytes)) else None,
             FactsOf(s.base, rules.blob), FactsOf(s.untracked, rules.sha256), CompletedWarnings(warnings, r))
  }

  predicate DistinctFiles(files: seq<RepositoryFile>) {
    forall i, j | 0 <= i < j < |files| :: files[i].path != files[j].path
  }

  function FilePaths(files: seq<RepositoryFile>): seq<string> {
    seq(|files|, i requires 0 <= i < |files| => files[i].path)
  }

  predicate PathsDistinct(s: Snapshot) { DistinctFiles(s.base) && DistinctFiles(s.untracked) }

  /** What the capture of a repository state makes sure of. */
  predicate SnapshotValid(rules: Rules, s: Snapshot) {
    PathsDistinct(s) && PathsValid(rules.fold, FilePaths(s.base) + FilePaths(s.untracked))
  }

  lemma DistinctSum(a: seq<Member>, b: seq<Member>)
    requires DistinctNames(a) && DistinctNames(b) && Names(a) !! Names(b)
    ensures DistinctNames(a + b) && Names(a + b) == Names(a) + Names(b)
  {
    forall i, j | 0 <= i < j < |a + b| ensures (a + b)[i].name != (a + b)[j].name {
      if j < |a| {
        assert a[i].name != a[j].name;
      } else if i >= |a| {
        assert b[i - |a|].name != b[j - |a|].name;
      } else {
        assert a[i] in a && b[j - |a|] in b;
        assert a[i].name in Names(a) && b[j - |a|].name in Names(b);
      }
    }
  }

  lemma HeadIsDistinct(d: Documents)
    ensures DistinctNames(HeadMembers(d))
    ensures Names(HeadMembers(d)) == {ManifestName, ContextName, RunName, InstructionsName, EnvironmentName}
  {
    var head := HeadMembers(d);
    assert head[0] in head && head[1] in head && head[2] in head && head[3] in head && head[4] in head;
  }

  function RuntimeNames(r: Runtime): set<Name> {
    {RuntimeMetadataName} + (if r.artifact.Some? then {RuntimeArtifactName(r.artifact.value.version)} else {})
  }

  function LogNames(log: Option<Bytes>): set<Name> { if log.Some? then {ExecutionLogName} else {} }

  lemma TailsAreDistinct(r: Runtime, log: Option<Bytes>)
    ensures DistinctNames(RuntimeMembers(r)) && Names(RuntimeMembers(r)) == RuntimeNames(r)
    ensures DistinctNames(LogMembers(log)) && Names(LogMembers(log)) == LogNames(log)
  {
    var tail := RuntimeMembers(r);
    assert tail[0] in tail && (|tail| > 1 ==> tail[1] in tail);
    assert log.Some? ==> LogMembers(log)[0] in LogMembers(log);
  }

  lemma FrontIsDistinct(d: Documents, r: Runtime, log: Option<Bytes>)
    ensures DistinctNames(FrontMembers(d, r, log))
    ensures Names(FrontMembers(d, r, log)) ==
            {ManifestName, ContextName, RunName, InstructionsName, EnvironmentName} + (RuntimeNames(r) + LogNames(log))
  {
    hide HeadMembers, RuntimeMembers, LogMembers, Names, DistinctNames;
    HeadIsDistinct(d);
    TailsAreDistinct(r, log);
    DistinctSum(RuntimeMembers(r), LogMembers(log));
    DistinctSum(HeadMembers(d), RuntimeMembers(r) + LogMembers(log));
  }

  lemma RepositoryMembersAreDistinct(s: Snapshot)
    requires PathsDistinct(s)
    ensures DistinctNames(BaseMembers(s.base)) && DistinctNames(UntrackedMembers(s.untracked))
    ensures forall n | n in Names(BaseMembers(s.base)) :: n.BaseName?
    ensures forall n | n in Names(UntrackedMembers(s.untracked)) :: n.UntrackedName?
    ensures DistinctNames(ChangeMembers(s)) && Names(ChangeMembers(s)) == {StagedName, UnstagedName}
  {
    assert ChangeMembers(s)[0] in ChangeMembers(s) && ChangeMembers(s)[1] in ChangeMembers(s);
  }

  /** Every valid snapshot, runtime and execution state gives pairwise different members. */
  lemma WrittenNamesAreDistinct(d: Documents, s: Snapshot, r: Runtime, log: Option<Bytes>)
    requires PathsDistinct(s)
    ensures DistinctNames(WrittenMembers(d, s, r, log))
    ensures Names(WrittenMembers(d, s, r, log)) ==
            Names(FrontMembers(d, r, log))
              + (Names(BaseMembers(s.base)) + ({StagedName, UnstagedName} + Names(UntrackedMembers(s.untracked))))
  {
    hide FrontMembers, BaseMembers, UntrackedMembers, ChangeMembers, DistinctNames, Names;
    FrontIsDistinct(d, r, log);
    RepositoryMembersAreDistinct(s);
    DistinctSum(ChangeMembers(s), UntrackedMembers(s.untracked));
    DistinctSum(BaseMembers(s.base), ChangeMembers(s) + UntrackedMembers(s.untracked));
    DistinctSum(FrontMembers(d, r, log), BaseMembers(s.base) + (ChangeMembers(s) + UntrackedMembers(s.untracked)));
  }

  lemma InventoryIsWritten(rules: Rules, s: Snapshot)
    ensures InventoryNames(Base, FactsOf(s.base, rules.blob)) == Names(BaseMembers(s.base))
    ensures InventoryNames(Untracked, FactsOf(s.untracked, rules.sha256)) == Names(UntrackedMembers(s.untracked))
  {
    SameNames(Base, s.base, rules.blob, BaseMembers(s.base));
    SameNames(Untracked, s.untracked, rules.sha256, UntrackedMembers(s.untracked));
  }

  lemma SameNames(kind: Kind, files: seq<RepositoryFile>, digest: Bytes -> string, members: seq<Member>)
    requires |members| == |files| && forall i | 0 <= i < |files| :: members[i].name == NameFor(kind, files[i].path)
    ensures InventoryNames(kind, FactsOf(files, digest)) == Names(members)
  {
    var facts := FactsOf(files, digest);
    forall n | n in InventoryNames(kind, facts) ensures n in Names(members) {
      var f :| f in facts && NameFor(kind, f.path) == n;
      var i :| 0 <= i < |facts| && facts[i] == f;
      assert members[i] in members;
    }
    forall n | n in Names(members) ensures n in InventoryNames(kind, facts) {
      var x :| x in members && x.name == n;
      var i :| 0 <= i < |members| && members[i] == x;
      assert facts[i] in facts;
    }
  }

  /** The members written are exactly the ones the reader requires. */
  lemma WrittenNamesAreRequired(
      rules: Rules, d: Documents, s: Snapshot, r: Runtime, log: Option<Bytes>, warnings: seq<string>)
    requires PathsDistinct(s)
    ensures Names(WrittenMembers(d, s, r, log)) == RequiredNames(ManifestOf(rules, s, r, log.Some?, warnings))
  {
    hide FrontMembers, BaseMembers, UntrackedMembers, FactsOf, WrittenMembers, Names, InventoryNames;
    WrittenNamesAreDistinct(d, s, r, log);
    FrontIsDistinct(d, r, log);
    InventoryIsWritten(rules, s);
  }

  lemma {:induction false} SumOfConcat(a: seq<Bytes>, b: seq<Bytes>)
    ensures ByteSum(a + b) == ByteSum(a) + ByteSum(b)
  {
    if a == [] {
      assert a + b == b;
    } else {
      assert (a + b)[1..] == a[1..] + b;
      SumOfConcat(a[1..], b);
    }
  }

  lemma WithinConcat(a: seq<Bytes>, b: seq<Bytes>, limit: nat)
    ensures EachWithin(a + b, limit) <==> EachWithin(a, limit) && EachWithin(b, limit)
  {
    if EachWithin(a + b, limit) {
      forall i | 0 <= i < |a| ensures |a[i]| <= limit { assert (a + b)[i] == a[i]; }
      forall i | 0 <= i < |b| ensures |b[i]| <= limit { assert (a + b)[|a| + i] == b[i]; }
    }
  }

  /** Both sides of a concatenation, whatever their order. */
  lemma SwappedConcat(a: seq<Bytes>, b: seq<Bytes>, limit: nat)
    ensures |a + b| == |b + a| && ByteSum(a + b) == ByteSum(b + a)
            && (EachWithin(a + b, limit) <==> EachWithin(b + a, limit))
  {
    SumOfConcat(a, b);
    SumOfConcat(b, a);
    WithinConcat(a, b, limit);
    WithinConcat(b, a, limit);
  }

  /** Two lists with the same number of entries, the same byte sum, and the same entries within the limit. */
  predicate SameBudget(a: seq<Bytes>, b: seq<Bytes>, limit: nat) {
    |a| == |b| && ByteSum(a) == ByteSum(b) && (EachWithin(a, limit) <==> EachWithin(b, limit))
  }

  lemma SameBudgetOfSums(a: seq<Bytes>, a': seq<Bytes>, b: seq<Bytes>, b': seq<Bytes>, limit: nat)
    requires SameBudget(a, a', limit) && SameBudget(b, b', limit)
    ensures SameBudget(a + b, a' + b', limit)
  {
    SumOfConcat(a, b);
    SumOfConcat(a', b');
    WithinConcat(a, b, limit);
    WithinConcat(a', b', limit);
  }

  /** Moving a middle part to the front keeps the budget. */
  lemma MovedForward(x: seq<Bytes>, y: seq<Bytes>, rest: seq<Bytes>, limit: nat)
    ensures SameBudget(x + (y + rest), y + (x + rest), limit)
  {
    SwappedConcat(x, y, limit);
    SameBudgetOfSums(x + y, y + x, rest, rest, limit);
    assert (x + y) + rest == x + (y + rest) && (y + x) + rest == y + (x + rest);
  }

  function LogContents(log: Option<Bytes>): seq<Bytes> { if log.Some? then [log.value] else [] }

  lemma WrittenContents(d: Documents, s: Snapshot, r: Runtime, log: Option<Bytes>)
    ensures ContentsOf(WrittenMembers(d, s, r, log)) ==
            [d.manifest, d.context, d.run, d.instructions, d.environment]
            + ((RuntimeContents(r) + LogContents(log))
                + (FileContents(s.base) + ([s.staged, s.unstaged] + FileContents(s.untracked))))
  {
    hide ContentsOf, HeadMembers, RuntimeMembers, LogMembers, BaseMembers, UntrackedMembers, ChangeMembers;
    hide FileContents, RuntimeContents, LogContents;
    PartContents(d, s, r, log);
    var rt, lg, b, c, u := RuntimeMembers(r), LogMembers(log), BaseMembers(s.base), ChangeMembers(s),
      UntrackedMembers(s.untracked);
    ContentsOfSum(FrontMembers(d, r, log), b + (c + u));
    ContentsOfSum(HeadMembers(d), rt + lg);
    ContentsOfSum(rt, lg);
    ContentsOfSum(b, c + u);
    ContentsOfSum(c, u);
    var h := [d.manifest, d.context, d.run, d.instructions, d.environment];
    var front, rest := RuntimeContents(r) + LogContents(log), FileContents(s.base)
      + ([s.staged, s.unstaged] + FileContents(s.untracked));
    assert (h + front) + rest == h + (front + rest);
  }

  lemma ContentsOfSum(a: seq<Member>, b: seq<Member>)
    ensures ContentsOf(a + b) == ContentsOf(a) + ContentsOf(b)
  {
  }

  lemma PartContents(d: Documents, s: Snapshot, r: Runtime, log: Option<Bytes>)
    ensures ContentsOf(HeadMembers(d)) == [d.manifest, d.context, d.run, d.instructions, d.environment]
    ensures ContentsOf(RuntimeMembers(r)) == RuntimeContents(r) && ContentsOf(LogMembers(log)) == LogContents(log)
    ensures ContentsOf(BaseMembers(s.base)) == FileContents(s.base)
    ensures ContentsOf(ChangeMembers(s)) == [s.staged, s.unstaged]
            && ContentsOf(UntrackedMembers(s.untracked)) == FileContents(s.untracked)
  {
  }

  /** The producer's own list has the count, the sizes and the byte sum of what is written. */
  lemma BudgetsAgree(d: Documents, s: Snapshot, r: Runtime, log: Option<Bytes>, limit: nat)
    ensures SameBudget(ContentsOf(WrittenMembers(d, s, r, log)), BudgetedContents(d, s, r, log), limit)
  {
    hide ByteSum, EachWithin, WrittenMembers, FileContents, RuntimeContents, LogContents;
    var h := [d.manifest, d.context, d.run, d.instructions, d.environment];
    var rt, lg, b, c, u := RuntimeContents(r), LogContents(log), FileContents(s.base), [s.staged, s.unstaged],
      FileContents(s.untracked);
    WrittenContents(d, s, r, log);
    BudgetedParts(d, s, r, log);
    var written, budgeted := (rt + lg) + (b + (c + u)), c + (b + (u + (lg + rt)));
    Reordered(rt, lg, b, c, u, limit);
    SameBudgetOfSums(h, h, written, budgeted, limit);
  }

  lemma BudgetedParts(d: Documents, s: Snapshot, r: Runtime, log: Option<Bytes>)
    ensures BudgetedContents(d, s, r, log) ==
            [d.manifest, d.context, d.run, d.instructions, d.environment]
            + ([s.staged, s.unstaged]
                + (FileContents(s.base) + (FileContents(s.untracked) + (LogContents(log) + RuntimeContents(r)))))
  {
  }

  lemma Reordered(rt: seq<Bytes>, lg: seq<Bytes>, b: seq<Bytes>, c: seq<Bytes>, u: seq<Bytes>, limit: nat)
    ensures SameBudget((rt + lg) + (b + (c + u)), c + (b + (u + (lg + rt))), limit)
  {
    hide ByteSum, EachWithin;
    SwappedConcat(rt, lg, limit);
    SwappedConcat(rt + lg, b + (c + u), limit);
    MovedForward(b, c, u, limit);
    SameBudgetOfSums(b + (c + u), c + (b + u), rt + lg, lg + rt, limit);
    assert (c + (b + u)) + (lg + rt) == c + (b + (u + (lg + rt)));
  }

  lemma FileAtWritten(d: Documents, s: Snapshot, r: Runtime, log: Option<Bytes>, i: nat)
    requires PathsDistinct(s) && i < |WrittenMembers(d, s, r, log)|
    ensures var files := WrittenMembers(d, s, r, log); FileAt(files, files[i].name) == Some(files[i])
  {
    WrittenNamesAreDistinct(d, s, r, log);
    FileAtFinds(WrittenMembers(d, s, r, log), WrittenMembers(d, s, r, log)[i].name);
  }

  lemma BasePositions(d: Documents, s: Snapshot, r: Runtime, log: Option<Bytes>, i: nat)
    requires i < |s.base|
    ensures |FrontMembers(d, r, log)| + i < |WrittenMembers(d, s, r, log)|
    ensures WrittenMembers(d, s, r, log)[|FrontMembers(d, r, log)| + i] == BaseMembers(s.base)[i]
  {
  }

  lemma UntrackedPositions(d: Documents, s: Snapshot, r: Runtime, log: Option<Bytes>, i: nat)
    requires i < |s.untracked|
    ensures |FrontMembers(d, r, log)| + |s.base| + 2 + i < |WrittenMembers(d, s, r, log)|
    ensures WrittenMembers(d, s, r, log)[|FrontMembers(d, r, log)| + |s.base| + 2 + i]
              == UntrackedMembers(s.untracked)[i]
  {
  }

  lemma InventoryHoldsForWritten(rules: Rules, d: Documents, s: Snapshot, r: Runtime, log: Option<Bytes>)
    requires PathsDistinct(s)
    ensures InventoryHolds(rules, Base, FactsOf(s.base, rules.blob), WrittenMembers(d, s, r, log))
    ensures InventoryHolds(rules, Untracked, FactsOf(s.untracked, rules.sha256), WrittenMembers(d, s, r, log))
  {
    hide WrittenMembers, FileAt;
    var files := WrittenMembers(d, s, r, log);
    forall i | 0 <= i < |s.base|
      ensures FactHolds(rules, Base, FactsOf(s.base, rules.blob)[i], FileAt(files, NameFor(Base, s.base[i].path)))
    {
      BasePositions(d, s, r, log, i);
      FileAtWritten(d, s, r, log, |FrontMembers(d, r, log)| + i);
    }
    forall i | 0 <= i < |s.untracked|
      ensures FactHolds(rules, Untracked, FactsOf(s.untracked, rules.sha256)[i],
                  FileAt(files, NameFor(Untracked, s.untracked[i].path)))
    {
      UntrackedPositions(d, s, r, log, i);
      FileAtWritten(d, s, r, log, |FrontMembers(d, r, log)| + |s.base| + 2 + i);
    }
  }

  lemma RuntimeIsWritten(d: Documents, s: Snapshot, r: Runtime, log: Option<Bytes>)
    requires PathsDistinct(s)
    ensures FileAt(WrittenMembers(d, s, r, log), RuntimeMetadataName) == Some(Plain(RuntimeMetadataName, r.metadata))
    ensures r.artifact.Some? ==>
              var name := RuntimeArtifactName(r.artifact.value.version);
              FileAt(WrittenMembers(d, s, r, log), name) == Some(Plain(name, r.artifact.value.bytes))
  {
    hide FileAt;
    assert WrittenMembers(d, s, r, log)[5] == Plain(RuntimeMetadataName, r.metadata);
    FileAtWritten(d, s, r, log, 5);
    if r.artifact.Some? {
      assert WrittenMembers(d, s, r, log)[6]
        == Plain(RuntimeArtifactName(r.artifact.value.version), r.artifact.value.bytes);
      FileAtWritten(d, s, r, log, 6);
    }
  }

  lemma PathsOfFacts(rules: Rules, s: Snapshot)
    ensures FactPaths(FactsOf(s.base, rules.blob)) + FactPaths(FactsOf(s.untracked, rules.sha256))
              == FilePaths(s.base) + FilePaths(s.untracked)
  {
    assert FactPaths(FactsOf(s.base, rules.blob)) == FilePaths(s.base);
    assert FactPaths(FactsOf(s.untracked, rules.sha256)) == FilePaths(s.untracked);
  }

  /**
   For every valid snapshot within the file limit: the accounting of what the writer wrote succeeds exactly when
   the producer's own budget test says it fits, the inside of the start archive included.
   */
  lemma AccountingMatchesTheBudget(
      rules: Rules, d: Documents, s: Snapshot, r: Runtime, log: Option<Bytes>, warnings: seq<string>, policy: Policy)
    requires SnapshotValid(rules, s) && |s.base| + |s.untracked| <= MAX_RESULT_FILES
    requires r.artifact.Some? ==> r.artifact.value.bytes != []
    ensures AccountingHolds(rules, ManifestOf(rules, s, r, log.Some?, warnings), WrittenMembers(d, s, r, log),
                InnerBytes(r), policy)
            <==> RuntimeFits(d, s, r, log, policy)
  {
    hide WrittenMembers, BudgetedContents, EachWithin, ByteSum, FileAt, DistinctNames, Names, RequiredNames;
    hide InventoryHolds, FactsOf, CompletedWarnings;
    hide FactPaths, FilePaths, PathsValid;
    WrittenNamesAreDistinct(d, s, r, log);
    WrittenNamesAreRequired(rules, d, s, r, log, warnings);
    InventoryHoldsForWritten(rules, d, s, r, log);
    RuntimeIsWritten(d, s, r, log);
    BudgetsAgree(d, s, r, log, policy.maxContent);
    assert |FactsOf(s.base, rules.blob)| == |s.base| && |FactsOf(s.untracked, rules.sha256)| == |s.untracked|;
    assert r.artifact.None? ==> CompletedWarnings(warnings, r) != [];
    PathsOfFacts(rules, s);
  }

  /** Under the default policy the file limit alone keeps the archive within its entry limit, and reaches it. */
  lemma EntryLimitIsTight(d: Documents, s: Snapshot, r: Runtime, log: Option<Bytes>)
    ensures |s.base| + |s.untracked| <= MAX_RESULT_FILES ==> |WrittenMembers(d, s, r, log)| <= DEFAULT_POLICY.maxEntries
    ensures |s.base| + |s.untracked| == MAX_RESULT_FILES && r.artifact.Some? && log.Some? ==>
              |WrittenMembers(d, s, r, log)| == DEFAULT_POLICY.maxEntries
  {
  }
}
