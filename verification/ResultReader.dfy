/**
 Reading a Result: first the archive stage, which checks every member name and the tree all members form
 together, then the accounting. What the writer wrote passes both exactly under a condition on the
 snapshot that can be checked before writing.
 */
module ResultReader {
  import opened Prelude
  import opened ByteOrder
  import opened RepositoryPaths
  import opened MemberTrees
  import opened ResultBundle
  import BundlePaths

  type Path = BundlePaths.Path

  function PathOf(n: Name): (path: Path)
    ensures path != []
  {
    Segments(TextOf(n))
  }

  /** The members as the tree check sees them. */
  function TreeOf(files: seq<Member>): (members: seq<BundlePaths.Member>)
    ensures |members| == |files| && forall i | 0 <= i < |files| :: members[i] == File(PathOf(files[i].name))
    ensures BundlePaths.NonEmptyPaths(members)
  {
    seq(|files|, i requires 0 <= i < |files| => File(PathOf(files[i].name)))
  }

  predicate NamesAllowed(fold: BundlePaths.Fold, files: seq<Member>) {
    forall i | 0 <= i < |files| :: ResultPath(fold, TextOf(files[i].name))
  }

  /** What every reader of a Result checks before it looks at any content. */
  ghost predicate ArchiveAccepts(rules: Rules, files: seq<Member>, policy: Policy) {
    OuterBudget(files, policy) && NamesAllowed(rules.fold, files) && BundlePaths.Acceptable(rules.fold, TreeOf(files))
  }

  ghost predicate ReaderAccepts(rules: Rules, m: Manifest, files: seq<Member>, innerBytes: nat, policy: Policy) {
    ArchiveAccepts(rules, files, policy) && AccountingHolds(rules, m, files, innerBytes, policy)
  }

  method ReadArchive(rules: Rules, files: seq<Member>, policy: Policy) returns (ok: bool)
    ensures ok <==> ArchiveAccepts(rules, files, policy)
  {
    hide ResultPath, TextOf;
    if !OuterBudget(files, policy) { return false; }
    for i := 0 to |files|
      invariant forall k | 0 <= k < i :: ResultPath(rules.fold, TextOf(files[k].name))
    {
      if !ResultPath(rules.fold, TextOf(files[i].name)) { return false; }
    }
    var tree := BundlePaths.ValidateMemberPaths(TreeOf(files), rules.fold);
    return tree.Ok?;
  }

  method ReadResult(rules: Rules, m: Manifest, files: seq<Member>, innerBytes: nat, policy: Policy) returns (ok: bool)
    ensures ok <==> ReaderAccepts(rules, m, files, innerBytes, policy)
  {
    ok := ReadArchive(rules, files, policy);
    if ok { ok := ParseResultPayloads(rules, m, files, innerBytes, policy); }
  }

  // ---------------------------------------------------------------- the names the writer uses

  /** The alphabet of a recipe's version. */
  predicate RecipeVersion(version: string) {
    version != "" && forall i | 0 <= i < |version| ::
      '0' <= version[i] <= '9' || 'a' <= version[i] <= 'z' || version[i] == '.'
  }

  function ArtifactFile(version: string): string { "patchharbor-" + version + ".pyz" }

  /** An embedded runtime is not empty and its recipe has been parsed. */
  predicate RuntimeValid(r: Runtime) {
    r.artifact.Some? ==> r.artifact.value.bytes != [] && RecipeVersion(r.artifact.value.version)
  }

  /** The start archive's name stays within the longest allowed segment. */
  predicate VersionFits(r: Runtime) { r.artifact.Some? ==> |r.artifact.value.version| <= MAX_SEGMENT - 16 }

  lemma TopLevelPaths()
    ensures PathOf(ManifestName) == ["manifest.json"] && PathOf(ContextName) == ["context.json"]
    ensures PathOf(InstructionsName) == ["CHAT_INSTRUCTIONS.md"] && PathOf(EnvironmentName) == ["environment.json"]
  {
    hide Segments;
    NoSlashOneSegment("manifest.json");
    NoSlashOneSegment("context.json");
    NoSlashOneSegment("CHAT_INSTRUCTIONS.md");
    NoSlashOneSegment("environment.json");
  }

  lemma TwoSegments(directory: string, name: string)
    requires '/' !in directory && '/' !in name
    ensures Segments(directory + "/" + name) == [directory, name]
  {
    DirectoryInFront(directory, name);
    NoSlashOneSegment(name);
  }

  lemma LogAndChangePaths()
    ensures PathOf(RunName) == ["logs", "run.json"] && PathOf(ExecutionLogName) == ["logs", "execution.log"]
    ensures PathOf(StagedName) == ["changes", "staged.patch"] && PathOf(UnstagedName) == ["changes", "unstaged.patch"]
  {
    hide Segments;
    assert TextOf(RunName) == "logs" + "/" + "run.json" && TextOf(ExecutionLogName) == "logs" + "/" + "execution.log";
    assert TextOf(StagedName) == "changes" + "/" + "staged.patch";
    assert TextOf(UnstagedName) == "changes" + "/" + "unstaged.patch";
    TwoSegments("logs", "run.json");
    TwoSegments("logs", "execution.log");
    TwoSegments("changes", "staged.patch");
    TwoSegments("changes", "unstaged.patch");
  }

  lemma RuntimeMetadataPath()
    ensures PathOf(RuntimeMetadataName) == ["runtime", "runtime.json"]
  {
    hide Segments;
    assert TextOf(RuntimeMetadataName) == "runtime" + "/" + "runtime.json";
    TwoSegments("runtime", "runtime.json");
  }

  lemma RuntimeArtifactPath(version: string)
    requires RecipeVersion(version)
    ensures PathOf(RuntimeArtifactName(version)) == ["runtime", ArtifactFile(version)]
  {
    hide Segments;
    assert TextOf(RuntimeArtifactName(version)) == "runtime" + "/" + ArtifactFile(version);
    TwoSegments("runtime", ArtifactFile(version));
  }

  lemma SnapshotTexts(path: string)
    ensures TextOf(BaseName(path)) == "base" + "/" + path && TextOf(UntrackedName(path)) == "untracked" + "/" + path
  {
    assert "base/" == "base" + "/" && "untracked/" == "untracked" + "/";
  }

  lemma SnapshotPaths(path: string)
    ensures PathOf(BaseName(path)) == ["base"] + Segments(path)
    ensures PathOf(UntrackedName(path)) == ["untracked"] + Segments(path)
  {
    hide Segments, TextOf;
    SnapshotTexts(path);
    DirectoryInFront("base", path);
    DirectoryInFront("untracked", path);
  }

  // ---------------------------------------------------------------- names are allowed

  predicate AllowedSegment(fold: BundlePaths.Fold, s: string) { SafeSegment(s) && fold(s) !in INTERNAL }

  /** A package path of one or two segments, neither of them a snapshot directory. */
  lemma AllowedPath(fold: BundlePaths.Fold, text: string)
    requires |Segments(text)| <= 2 && |text| <= MAX_PATH && Segments(text)[0] !in {"base", "untracked"}
    ensures ResultPath(fold, text) <==>
              forall i | 0 <= i < |Segments(text)| :: AllowedSegment(fold, Segments(text)[i])
  {
    hide SafeSegment, Segments;
  }

  lemma LongNamesAllowed(fold: BundlePaths.Fold)
    requires FoldsAscii(fold)
    ensures AllowedSegment(fold, "manifest.json") && AllowedSegment(fold, "context.json")
    ensures AllowedSegment(fold, "CHAT_INSTRUCTIONS.md") && AllowedSegment(fold, "environment.json")
    ensures AllowedSegment(fold, "runtime") && AllowedSegment(fold, "runtime.json") && AllowedSegment(fold, "changes")
    ensures AllowedSegment(fold, "staged.patch") && AllowedSegment(fold, "unstaged.patch")
    ensures AllowedSegment(fold, "execution.log")
  {
    hide SafeSegment, FoldsAscii, INTERNAL;
    LongNameAllowed(fold, "manifest.json");
    LongNameAllowed(fold, "context.json");
    LongNameAllowed(fold, "CHAT_INSTRUCTIONS.md");
    LongNameAllowed(fold, "environment.json");
    LongNameAllowed(fold, "runtime");
    LongNameAllowed(fold, "runtime.json");
    LongNameAllowed(fold, "changes");
    LongNameAllowed(fold, "staged.patch");
    LongNameAllowed(fold, "unstaged.patch");
    LongNameAllowed(fold, "execution.log");
  }

  lemma LongNameAllowed(fold: BundlePaths.Fold, s: string)
    requires FoldsAscii(fold) && 5 <= |s| <= MAX_SEGMENT && (forall i | 0 <= i < |s| :: SafeChar(s[i]))
    requires s[|s| - 1] != '.' && forall i | 0 <= i < 5 :: s[i] != '.'
    ensures AllowedSegment(fold, s)
  {
    LongStemIsSafe(s);
    LetterFirstIsNotInternal(fold, s);
  }

  lemma LogsIsAllowed(fold: BundlePaths.Fold)
    requires FoldsAscii(fold)
    ensures AllowedSegment(fold, "logs")
  {
    IndexIs("logs", '.', 4);
    assert Upper(Stem("logs"))[0] == 'L' && Upper(Stem("logs"))[1] == 'O';
    LetterFirstIsNotInternal(fold, "logs");
  }

  lemma RunIsAllowed(fold: BundlePaths.Fold)
    requires FoldsAscii(fold)
    ensures AllowedSegment(fold, "run.json")
  {
    IndexIs("run.json", '.', 3);
    assert Upper(Stem("run.json"))[0] == 'R';
    LetterFirstIsNotInternal(fold, "run.json");
  }

  /** The artifact's name is allowed exactly if it is not too long. */
  lemma ArtifactNameAllowed(fold: BundlePaths.Fold, version: string)
    requires FoldsAscii(fold) && RecipeVersion(version)
    ensures AllowedSegment(fold, ArtifactFile(version)) <==> |version| <= MAX_SEGMENT - 16
  {
    var s := ArtifactFile(version);
    assert forall i | 0 <= i < 12 :: s[i] == "patchharbor-"[i];
    assert forall i | 0 <= i < |version| :: s[12 + i] == version[i];
    assert forall i | 0 <= i < 4 :: s[12 + |version| + i] == ".pyz"[i];
    if |s| <= MAX_SEGMENT { LongNameAllowed(fold, s); }
  }

  predicate NameAllowed(fold: BundlePaths.Fold, n: Name) { ResultPath(fold, TextOf(n)) }

  lemma FixedNamesAllowed(fold: BundlePaths.Fold)
    requires FoldsAscii(fold)
    ensures NameAllowed(fold, ManifestName) && NameAllowed(fold, ContextName) && NameAllowed(fold, RunName)
    ensures NameAllowed(fold, InstructionsName) && NameAllowed(fold, EnvironmentName)
    ensures NameAllowed(fold, RuntimeMetadataName) && NameAllowed(fold, ExecutionLogName)
    ensures NameAllowed(fold, StagedName) && NameAllowed(fold, UnstagedName)
  {
    hide ResultPath, Segments, AllowedSegment, FoldsAscii;
    TopLevelPaths();
    LogAndChangePaths();
    RuntimeMetadataPath();
    LongNamesAllowed(fold);
    LogsIsAllowed(fold);
    RunIsAllowed(fold);
    AllowedPath(fold, TextOf(ManifestName));
    AllowedPath(fold, TextOf(ContextName));
    AllowedPath(fold, TextOf(RunName));
    AllowedPath(fold, TextOf(InstructionsName));
    AllowedPath(fold, TextOf(EnvironmentName));
    AllowedPath(fold, TextOf(RuntimeMetadataName));
    AllowedPath(fold, TextOf(ExecutionLogName));
    AllowedPath(fold, TextOf(StagedName));
    AllowedPath(fold, TextOf(UnstagedName));
  }

  lemma ArtifactAllowed(fold: BundlePaths.Fold, version: string)
    requires FoldsAscii(fold) && RecipeVersion(version)
    ensures NameAllowed(fold, RuntimeArtifactName(version)) <==> |version| <= MAX_SEGMENT - 16
  {
    hide ResultPath, Segments, FoldsAscii, AllowedSegment;
    RuntimeArtifactPath(version);
    LongNamesAllowed(fold);
    ArtifactNameAllowed(fold, version);
    if |version| <= MAX_PATH - 24 {
      AllowedPath(fold, TextOf(RuntimeArtifactName(version)));
      assert PathOf(RuntimeArtifactName(version))[1] == ArtifactFile(version);
    } else {
      LongTextIsRefused(fold, version);
    }
  }

  lemma LongTextIsRefused(fold: BundlePaths.Fold, version: string)
    requires RecipeVersion(version) && |version| > MAX_PATH - 24
    ensures !NameAllowed(fold, RuntimeArtifactName(version))
  {
    hide Segments;
    RuntimeArtifactPath(version);
  }

  lemma SnapshotNameAllowed(fold: BundlePaths.Fold, path: string)
    requires PortablePath(fold, path)
    ensures NameAllowed(fold, BaseName(path)) && NameAllowed(fold, UntrackedName(path))
  {
    hide Segments, PortableSegment;
    SnapshotPaths(path);
    assert PathOf(BaseName(path))[1..] == Segments(path) && PathOf(UntrackedName(path))[1..] == Segments(path);
    if Segments(path) == [""] { EmptyIsNotPortable(fold, path); }
  }

  lemma EmptyIsNotPortable(fold: BundlePaths.Fold, path: string)
    requires Segments(path) == [""]
    ensures !PortablePath(fold, path)
  {
    hide Segments;
    assert !PortableSegment(fold, Segments(path)[0]);
  }

  lemma AllowedOfSum(fold: BundlePaths.Fold, a: seq<Member>, b: seq<Member>)
    ensures NamesAllowed(fold, a + b) <==> NamesAllowed(fold, a) && NamesAllowed(fold, b)
  {
    hide ResultPath, TextOf;
    assert forall i | 0 <= i < |a| :: (a + b)[i] == a[i];
    assert forall i | 0 <= i < |b| :: (a + b)[|a| + i] == b[i];
    if NamesAllowed(fold, a + b) {
      forall i | 0 <= i < |b| ensures ResultPath(fold, TextOf(b[i].name)) { assert (a + b)[|a| + i] == b[i]; }
    }
  }

  lemma SmallPartsAllowed(fold: BundlePaths.Fold, d: Documents, s: Snapshot, r: Runtime, log: Option<Bytes>)
    requires FoldsAscii(fold) && RuntimeValid(r)
    ensures NamesAllowed(fold, HeadMembers(d)) && NamesAllowed(fold, LogMembers(log))
            && NamesAllowed(fold, ChangeMembers(s))
    ensures NamesAllowed(fold, RuntimeMembers(r)) <==> VersionFits(r)
  {
    hide ResultPath, TextOf, FoldsAscii, RecipeVersion;
    FixedNamesAllowed(fold);
    if r.artifact.Some? {
      ArtifactAllowed(fold, r.artifact.value.version);
      assert RuntimeMembers(r)[1].name == RuntimeArtifactName(r.artifact.value.version);
    }
  }

  lemma SnapshotPartsAllowed(fold: BundlePaths.Fold, s: Snapshot)
    requires PathsValid(fold, FilePaths(s.base) + FilePaths(s.untracked))
    ensures NamesAllowed(fold, BaseMembers(s.base)) && NamesAllowed(fold, UntrackedMembers(s.untracked))
  {
    hide ResultPath, TextOf, PortablePath;
    var paths := FilePaths(s.base) + FilePaths(s.untracked);
    forall i | 0 <= i < |s.base| ensures NameAllowed(fold, BaseName(s.base[i].path)) {
      assert paths[i] == s.base[i].path;
      SnapshotNameAllowed(fold, s.base[i].path);
    }
    forall i | 0 <= i < |s.untracked| ensures NameAllowed(fold, UntrackedName(s.untracked[i].path)) {
      assert paths[|s.base| + i] == s.untracked[i].path;
      SnapshotNameAllowed(fold, s.untracked[i].path);
    }
  }

  /** Every name the writer uses is allowed, if the start archive's name is not too long. */
  lemma WrittenNamesAreAllowed(fold: BundlePaths.Fold, d: Documents, s: Snapshot, r: Runtime, log: Option<Bytes>)
    requires FoldsAscii(fold) && RuntimeValid(r) && PathsValid(fold, FilePaths(s.base) + FilePaths(s.untracked))
    ensures NamesAllowed(fold, WrittenMembers(d, s, r, log)) <==> VersionFits(r)
  {
    hide NamesAllowed, HeadMembers, RuntimeMembers, LogMembers, BaseMembers, UntrackedMembers, ChangeMembers;
    hide FoldsAscii, PathsValid, RuntimeValid, VersionFits;
    SmallPartsAllowed(fold, d, s, r, log);
    SnapshotPartsAllowed(fold, s);
    AllowedOfSum(fold, RuntimeMembers(r), LogMembers(log));
    AllowedOfSum(fold, HeadMembers(d), RuntimeMembers(r) + LogMembers(log));
    AllowedOfSum(fold, ChangeMembers(s), UntrackedMembers(s.untracked));
    AllowedOfSum(fold, BaseMembers(s.base), ChangeMembers(s) + UntrackedMembers(s.untracked));
    AllowedOfSum(fold, FrontMembers(d, r, log),
        BaseMembers(s.base) + (ChangeMembers(s) + UntrackedMembers(s.untracked)));
  }

  // ---------------------------------------------------------------- the tree of all members

  function PathsOf(files: seq<RepositoryFile>): (paths: seq<Path>)
    ensures |paths| == |files| && forall i | 0 <= i < |files| :: paths[i] == Segments(files[i].path)
  {
    seq(|files|, i requires 0 <= i < |files| => Segments(files[i].path))
  }

  /** The files of one half of a snapshot are one tree on every file system. */
  ghost predicate OneTree(fold: BundlePaths.Fold, files: seq<RepositoryFile>) {
    BundlePaths.Acceptable(fold, BundlePaths.FileMembers(PathsOf(files)))
  }

  const TOP := ["manifest.json", "context.json", "CHAT_INSTRUCTIONS.md", "environment.json"]

  function LogFiles(log: Option<Bytes>): seq<string> {
    ["run.json"] + if log.Some? then ["execution.log"] else []
  }

  function RuntimeFiles(r: Runtime): seq<string> {
    ["runtime.json"] + if r.artifact.Some? then [ArtifactFile(r.artifact.value.version)] else []
  }

  const CHANGE_FILES := ["staged.patch", "unstaged.patch"]

  function Half(root: string, files: seq<RepositoryFile>): seq<BundlePaths.Member> {
    Under(root, BundlePaths.FileMembers(PathsOf(files)))
  }

  /** All members, directory by directory. */
  function ByDirectory(s: Snapshot, r: Runtime, log: Option<Bytes>): seq<BundlePaths.Member> {
    Flat(TOP) + (Under("logs", Flat(LogFiles(log))) + (Under("runtime", Flat(RuntimeFiles(r)))
    + (Under("changes", Flat(CHANGE_FILES)) + (Half("base", s.base) + Half("untracked", s.untracked)))))
  }

  lemma TreeOfSum(a: seq<Member>, b: seq<Member>)
    ensures TreeOf(a + b) == TreeOf(a) + TreeOf(b)
  {
    hide PathOf;
  }

  lemma HeadTree(d: Documents)
    ensures TreeOf(HeadMembers(d)) == [File(["manifest.json"]), File(["context.json"]), File(["logs", "run.json"]),
                                       File(["CHAT_INSTRUCTIONS.md"]), File(["environment.json"])]
  {
    hide PathOf;
    TopLevelPaths();
    LogAndChangePaths();
  }

  lemma FlatBelow(root: string, names: seq<string>)
    ensures Under(root, Flat(names)) == seq(|names|, i requires 0 <= i < |names| => File([root, names[i]]))
  {
    forall i | 0 <= i < |names| ensures Under(root, Flat(names))[i] == File([root, names[i]]) {
      assert [root] + [names[i]] == [root, names[i]];
    }
  }

  lemma SmallTrees(s: Snapshot, r: Runtime, log: Option<Bytes>)
    requires RuntimeValid(r)
    ensures Under("logs", Flat(LogFiles(log))) == [File(["logs", "run.json"])] + TreeOf(LogMembers(log))
    ensures Under("runtime", Flat(RuntimeFiles(r))) == TreeOf(RuntimeMembers(r))
    ensures Under("changes", Flat(CHANGE_FILES)) == TreeOf(ChangeMembers(s))
  {
    hide PathOf, RecipeVersion, Flat, Under;
    LogAndChangePaths();
    RuntimeMetadataPath();
    if r.artifact.Some? { RuntimeArtifactPath(r.artifact.value.version); }
    FlatBelow("logs", LogFiles(log));
    FlatBelow("runtime", RuntimeFiles(r));
    FlatBelow("changes", CHANGE_FILES);
  }

  lemma HalfTrees(s: Snapshot)
    ensures Half("base", s.base) == TreeOf(BaseMembers(s.base))
    ensures Half("untracked", s.untracked) == TreeOf(UntrackedMembers(s.untracked))
  {
    hide PathOf, Segments;
    forall i | 0 <= i < |s.base| ensures Half("base", s.base)[i] == TreeOf(BaseMembers(s.base))[i] {
      SnapshotPaths(s.base[i].path);
    }
    forall i | 0 <= i < |s.untracked|
      ensures Half("untracked", s.untracked)[i] == TreeOf(UntrackedMembers(s.untracked))[i]
    {
      SnapshotPaths(s.untracked[i].path);
    }
  }

  lemma WrittenTree(d: Documents, s: Snapshot, r: Runtime, log: Option<Bytes>)
    ensures TreeOf(WrittenMembers(d, s, r, log)) ==
            (TreeOf(HeadMembers(d)) + (TreeOf(RuntimeMembers(r)) + TreeOf(LogMembers(log))))
            + (TreeOf(BaseMembers(s.base)) + (TreeOf(ChangeMembers(s)) + TreeOf(UntrackedMembers(s.untracked))))
  {
    hide TreeOf, HeadMembers, RuntimeMembers, LogMembers, BaseMembers, UntrackedMembers, ChangeMembers;
    TreeOfSum(RuntimeMembers(r), LogMembers(log));
    TreeOfSum(HeadMembers(d), RuntimeMembers(r) + LogMembers(log));
    TreeOfSum(ChangeMembers(s), UntrackedMembers(s.untracked));
    TreeOfSum(BaseMembers(s.base), ChangeMembers(s) + UntrackedMembers(s.untracked));
    TreeOfSum(FrontMembers(d, r, log), BaseMembers(s.base) + (ChangeMembers(s) + UntrackedMembers(s.untracked)));
  }

  lemma BagOfSum(a: seq<BundlePaths.Member>, b: seq<BundlePaths.Member>, m: BundlePaths.Member)
    ensures multiset(a + b)[m] == multiset(a)[m] + multiset(b)[m]
  {
  }

  lemma RegroupedHead(
      x: seq<BundlePaths.Member>, y: seq<BundlePaths.Member>, z: seq<BundlePaths.Member>, rt: seq<BundlePaths.Member>,
      lg: seq<BundlePaths.Member>)
    ensures multiset((x + y + z) + (rt + lg)) == multiset((x + z) + ((y + lg) + rt))
  {
    forall m ensures multiset((x + y + z) + (rt + lg))[m] == multiset((x + z) + ((y + lg) + rt))[m] {
      BagOfSum(x + y + z, rt + lg, m);
      BagOfSum(x + y, z, m);
      BagOfSum(x, y, m);
      BagOfSum(rt, lg, m);
      BagOfSum(x + z, (y + lg) + rt, m);
      BagOfSum(x, z, m);
      BagOfSum(y + lg, rt, m);
      BagOfSum(y, lg, m);
    }
  }

  lemma RegroupedTail(
      front: seq<BundlePaths.Member>, grouped: seq<BundlePaths.Member>, b: seq<BundlePaths.Member>,
      ch: seq<BundlePaths.Member>, u: seq<BundlePaths.Member>)
    requires multiset(front) == multiset(grouped)
    ensures multiset(front + (b + (ch + u))) == multiset(grouped + (ch + (b + u)))
  {
    forall m ensures multiset(front + (b + (ch + u)))[m] == multiset(grouped + (ch + (b + u)))[m] {
      BagOfSum(front, b + (ch + u), m);
      BagOfSum(b, ch + u, m);
      BagOfSum(ch, u, m);
      BagOfSum(grouped, ch + (b + u), m);
      BagOfSum(ch, b + u, m);
      BagOfSum(b, u, m);
    }
  }

  lemma Nested(
      a: seq<BundlePaths.Member>, b: seq<BundlePaths.Member>, c: seq<BundlePaths.Member>, rest: seq<BundlePaths.Member>)
    ensures (a + (b + c)) + rest == a + (b + (c + rest))
  {
  }

  lemma SameMembersByDirectory(d: Documents, s: Snapshot, r: Runtime, log: Option<Bytes>)
    requires RuntimeValid(r)
    ensures multiset(TreeOf(WrittenMembers(d, s, r, log))) == multiset(ByDirectory(s, r, log))
  {
    hide TreeOf, WrittenMembers, Half, LogFiles, RuntimeFiles, Under, RuntimeValid;
    WrittenTree(d, s, r, log);
    HeadTree(d);
    SmallTrees(s, r, log);
    HalfTrees(s);
    var x, y := [File(["manifest.json"]), File(["context.json"])], [File(["logs", "run.json"])];
    var z := [File(["CHAT_INSTRUCTIONS.md"]), File(["environment.json"])];
    var rt, lg := TreeOf(RuntimeMembers(r)), TreeOf(LogMembers(log));
    var b, ch, u := Half("base", s.base), TreeOf(ChangeMembers(s)), Half("untracked", s.untracked);
    assert Flat(TOP) == x + z && TreeOf(HeadMembers(d)) == x + y + z;
    RegroupedHead(x, y, z, rt, lg);
    RegroupedTail((x + y + z) + (rt + lg), (x + z) + ((y + lg) + rt), b, ch, u);
    Nested(x + z, y + lg, rt, ch + (b + u));
  }

  /** Two names known by length and first letter. */
  lemma NamesApart(fold: BundlePaths.Fold, x: string, y: string)
    requires FoldsAscii(fold) && (forall i | 0 <= i < |x| :: SafeChar(x[i]))
             && (forall i | 0 <= i < |y| :: SafeChar(y[i]))
    requires x != "" && y != "" && (|x| != |y| || LowerChar(x[0]) != LowerChar(y[0]))
    ensures fold(x) != fold(y)
  {
    DifferentNamesFoldApart(fold, x, y);
  }

  lemma TopIsDistinct(fold: BundlePaths.Fold)
    requires FoldsAscii(fold)
    ensures FoldDistinct(fold, TOP)
  {
    hide FoldsAscii;
    NamesApart(fold, "manifest.json", "context.json");
    NamesApart(fold, "manifest.json", "CHAT_INSTRUCTIONS.md");
    NamesApart(fold, "manifest.json", "environment.json");
    NamesApart(fold, "context.json", "CHAT_INSTRUCTIONS.md");
    NamesApart(fold, "context.json", "environment.json");
    NamesApart(fold, "CHAT_INSTRUCTIONS.md", "environment.json");
  }

  lemma LogsAndChangesAreDistinct(fold: BundlePaths.Fold, log: Option<Bytes>)
    requires FoldsAscii(fold)
    ensures FoldDistinct(fold, LogFiles(log)) && FoldDistinct(fold, CHANGE_FILES)
  {
    hide FoldsAscii;
    NamesApart(fold, "run.json", "execution.log");
    NamesApart(fold, "staged.patch", "unstaged.patch");
  }

  lemma RuntimeIsDistinct(fold: BundlePaths.Fold, r: Runtime)
    requires FoldsAscii(fold) && RuntimeValid(r)
    ensures FoldDistinct(fold, RuntimeFiles(r))
  {
    hide FoldsAscii;
    if r.artifact.Some? { NamesApart(fold, "runtime.json", ArtifactFile(r.artifact.value.version)); }
  }

  lemma RootsApart(fold: BundlePaths.Fold)
    requires FoldsAscii(fold)
    ensures FoldApart(fold, {"base"}, {"untracked"}) && FoldApart(fold, {"changes"}, {"base", "untracked"})
    ensures FoldApart(fold, {"runtime"}, {"changes", "base", "untracked"})
    ensures FoldApart(fold, {"logs"}, {"runtime", "changes", "base", "untracked"})
  {
    hide FoldsAscii;
    NamesApart(fold, "base", "untracked");
    NamesApart(fold, "changes", "base");
    NamesApart(fold, "changes", "untracked");
    NamesApart(fold, "runtime", "changes");
    NamesApart(fold, "runtime", "base");
    NamesApart(fold, "runtime", "untracked");
    NamesApart(fold, "logs", "runtime");
    NamesApart(fold, "logs", "changes");
    NamesApart(fold, "logs", "base");
    NamesApart(fold, "logs", "untracked");
  }

  const DIRECTORIES := {"logs", "runtime", "changes", "base", "untracked"}

  lemma TopApart(fold: BundlePaths.Fold)
    requires FoldsAscii(fold)
    ensures FoldApart(fold, SetOf(TOP), DIRECTORIES)
  {
    hide FoldsAscii;
    forall x, y | x in SetOf(TOP) && y in DIRECTORIES ensures fold(x) != fold(y) {
      assert x in TOP;
      NamesApart(fold, x, y);
    }
  }

  lemma HalfIsRooted(fold: BundlePaths.Fold, root: string, files: seq<RepositoryFile>)
    ensures BundlePaths.Acceptable(fold, Half(root, files)) <==> OneTree(fold, files)
    ensures RootedIn(Half(root, files), {root})
  {
    hide Segments;
    CommonRootIsNeutral(fold, root, BundlePaths.FileMembers(PathsOf(files)));
  }

  lemma DirectoryIsTree(fold: BundlePaths.Fold, root: string, names: seq<string>)
    requires FoldDistinct(fold, names)
    ensures BundlePaths.Acceptable(fold, Under(root, Flat(names))) && RootedIn(Under(root, Flat(names)), {root})
  {
    FlatIsAcceptable(fold, names);
    CommonRootIsNeutral(fold, root, Flat(names));
  }

  /** All members form one tree exactly if the committed files do and the untracked files do. */
  lemma ByDirectoryIsTree(fold: BundlePaths.Fold, s: Snapshot, r: Runtime, log: Option<Bytes>)
    requires FoldsAscii(fold) && RuntimeValid(r)
    ensures BundlePaths.Acceptable(fold, ByDirectory(s, r, log)) <==>
              OneTree(fold, s.base) && OneTree(fold, s.untracked)
  {
    hide FoldsAscii, RuntimeValid, FoldDistinct, FoldApart, OneTree, Half, Under, Flat, RootedIn, SetOf;
    hide BundlePaths.Acceptable, LogFiles, RuntimeFiles;
    TopIsDistinct(fold);
    LogsAndChangesAreDistinct(fold, log);
    RuntimeIsDistinct(fold, r);
    RootsApart(fold);
    TopApart(fold);
    var base, untracked, changes :=
      Half("base", s.base), Half("untracked", s.untracked), Under("changes", Flat(CHANGE_FILES));
    var runtime, logs := Under("runtime", Flat(RuntimeFiles(r))), Under("logs", Flat(LogFiles(log)));
    HalfIsRooted(fold, "base", s.base);
    HalfIsRooted(fold, "untracked", s.untracked);
    DirectoryIsTree(fold, "changes", CHANGE_FILES);
    DirectoryIsTree(fold, "runtime", RuntimeFiles(r));
    DirectoryIsTree(fold, "logs", LogFiles(log));
    FlatIsAcceptable(fold, TOP);
    ApartListsJoin(fold, base, untracked, {"base"}, {"untracked"});
    assert {"base"} + {"untracked"} == {"base", "untracked"};
    ApartListsJoin(fold, changes, base + untracked, {"changes"}, {"base", "untracked"});
    assert {"changes"} + {"base", "untracked"} == {"changes", "base", "untracked"};
    ApartListsJoin(fold, runtime, changes + (base + untracked), {"runtime"}, {"changes", "base", "untracked"});
    assert {"runtime"} + {"changes", "base", "untracked"} == {"runtime", "changes", "base", "untracked"};
    ApartListsJoin(fold, logs, runtime + (changes + (base + untracked)), {"logs"},
        {"runtime", "changes", "base", "untracked"});
    assert {"logs"} + {"runtime", "changes", "base", "untracked"} == DIRECTORIES;
    ApartListsJoin(fold, Flat(TOP), logs + (runtime + (changes + (base + untracked))), SetOf(TOP), DIRECTORIES);
  }

  /** The tree of what the writer wrote. */
  lemma WrittenTreeIsAcceptable(fold: BundlePaths.Fold, d: Documents, s: Snapshot, r: Runtime, log: Option<Bytes>)
    requires FoldsAscii(fold) && RuntimeValid(r)
    ensures BundlePaths.Acceptable(fold, TreeOf(WrittenMembers(d, s, r, log))) <==>
              OneTree(fold, s.base) && OneTree(fold, s.untracked)
  {
    hide FoldsAscii, RuntimeValid, TreeOf, WrittenMembers, ByDirectory, OneTree;
    SameMembersByDirectory(d, s, r, log);
    ReorderedIsAlike(fold, TreeOf(WrittenMembers(d, s, r, log)), ByDirectory(s, r, log));
    ByDirectoryIsTree(fold, s, r, log);
  }

  // ---------------------------------------------------------------- the reader and the writer

  /**
   What a caller can check before writing: both halves of the snapshot are trees, and the artifact's name is
   short.
   */
  ghost predicate Archivable(fold: BundlePaths.Fold, s: Snapshot, r: Runtime) {
    OneTree(fold, s.base) && OneTree(fold, s.untracked) && VersionFits(r)
  }

  /**
   For every captured snapshot within the file limit: the reader accepts what the writer wrote exactly when the
   producer's budget test passes and the snapshot is archivable. The capture does not make sure of the latter.
   */
  lemma ReaderAcceptsTheWriter(
      rules: Rules, d: Documents, s: Snapshot, r: Runtime, log: Option<Bytes>, warnings: seq<string>, policy: Policy)
    requires FoldsAscii(rules.fold) && SnapshotValid(rules, s) && |s.base| + |s.untracked| <= MAX_RESULT_FILES
    requires RuntimeValid(r)
    ensures ReaderAccepts(rules, ManifestOf(rules, s, r, log.Some?, warnings), WrittenMembers(d, s, r, log),
                InnerBytes(r), policy)
            <==> RuntimeFits(d, s, r, log, policy) && Archivable(rules.fold, s, r)
  {
    hide FoldsAscii, WrittenMembers, NamesAllowed, OneTree, VersionFits, ManifestOf, RuntimeFits, TreeOf;
    WrittenNamesAreAllowed(rules.fold, d, s, r, log);
    WrittenTreeIsAcceptable(rules.fold, d, s, r, log);
    AccountingMatchesTheBudget(rules, d, s, r, log, warnings, policy);
    hide OuterBudget;
    if AccountingHolds(rules, ManifestOf(rules, s, r, log.Some?, warnings), WrittenMembers(d, s, r, log), InnerBytes(r),
        policy) {
      AccountingHasBudget(rules, ManifestOf(rules, s, r, log.Some?, warnings), WrittenMembers(d, s, r, log),
          InnerBytes(r), policy);
    }
  }

  lemma AccountingHasBudget(rules: Rules, m: Manifest, files: seq<Member>, innerBytes: nat, policy: Policy)
    requires AccountingHolds(rules, m, files, innerBytes, policy)
    ensures OuterBudget(files, policy)
  {
  }

  /**
   Embed the runtime if everything fits, and otherwise publish without it. `documents` depend on the runtime
   they describe.
   */
  function ChosenRuntime(
      documents: Runtime -> Documents, s: Snapshot, r: Runtime, unavailable: Runtime, log: Option<Bytes>): Runtime
  {
    if r.artifact.Some? && !RuntimeFits(documents(r), s, r, log, DEFAULT_POLICY) then unavailable else r
  }

  /**
   The Result chosen for publication passes its verification exactly if the snapshot is archivable and, without an
   embedded runtime, the rest fits. An embedded runtime is chosen exactly if it fits.
   */
  lemma PublishedResultsAreReadable(
      rules: Rules, documents: Runtime -> Documents, s: Snapshot, r: Runtime, unavailable: Runtime, log: Option<Bytes>,
      warnings: seq<string>)
    requires FoldsAscii(rules.fold) && SnapshotValid(rules, s) && |s.base| + |s.untracked| <= MAX_RESULT_FILES
    requires unavailable.artifact.None? && RuntimeValid(r)
    ensures var chosen := ChosenRuntime(documents, s, r, unavailable, log);
            ReaderAccepts(rules, ManifestOf(rules, s, chosen, log.Some?, warnings),
                          WrittenMembers(documents(chosen), s, chosen, log), InnerBytes(chosen), DEFAULT_POLICY)
            <==> Archivable(rules.fold, s, chosen)
                 && (chosen.artifact.Some? || RuntimeFits(documents(chosen), s, chosen, log, DEFAULT_POLICY))
    ensures ChosenRuntime(documents, s, r, unavailable, log) ==
            if r.artifact.None? || RuntimeFits(documents(r), s, r, log, DEFAULT_POLICY) then r else unavailable
  {
    hide ReaderAccepts, RuntimeFits, Archivable, FoldsAscii, SnapshotValid;
    var chosen := ChosenRuntime(documents, s, r, unavailable, log);
    ReaderAcceptsTheWriter(rules, documents(chosen), s, chosen, log, warnings, DEFAULT_POLICY);
  }

  // ---------------------------------------------------------------- what the capture does not see

  /** No directory of these files folds like another directory, another file, or a file of its own name. */
  ghost predicate DirectoriesAgree(fold: BundlePaths.Fold, names: seq<Path>) {
    forall i, n: nat, q | 0 <= i < |names| && 1 <= n < |names[i]| && BundlePaths.InTree(BundlePaths.FileMembers(names),
        q)
                          && BundlePaths.Folded(fold, names[i][..n]) == BundlePaths.Folded(fold, q) ::
      q == names[i][..n] && q !in names
  }

  lemma EqualSegmentsEqualTexts(a: string, b: string)
    requires Segments(a) == Segments(b)
    ensures a == b
  {
    hide Segments;
    SegmentsJoin(a);
    SegmentsJoin(b);
  }

  lemma NodeIsFileOrDirectory(names: seq<Path>, p: Path) returns (i: nat, n: nat)
    requires BundlePaths.InTree(BundlePaths.FileMembers(names), p)
    ensures i < |names| && 1 <= n <= |names[i]| && p == names[i][..n]
  {
    i :| 0 <= i < |names| && p != [] && p <= BundlePaths.FileMembers(names)[i].path;
    n := |p|;
  }

  lemma TreeHasAgreeingDirectories(fold: BundlePaths.Fold, names: seq<Path>)
    requires BundlePaths.Acceptable(fold, BundlePaths.FileMembers(names))
    ensures DirectoriesAgree(fold, names)
  {
    var members := BundlePaths.FileMembers(names);
    forall i, n: nat, q | 0 <= i < |names| && 1 <= n < |names[i]| && BundlePaths.InTree(members, q)
                          && BundlePaths.Folded(fold, names[i][..n]) == BundlePaths.Folded(fold, q)
      ensures q == names[i][..n] && q !in names
    {
      assert names[i][..n] <= members[i].path;
      assert BundlePaths.InTree(members, names[i][..n]);
      forall k | 0 <= k < |names| ensures names[k] != q {
        assert !(members[k].path < members[i].path);
      }
    }
  }

  lemma AgreeingDirectoriesMakeOneCase(fold: BundlePaths.Fold, files: seq<RepositoryFile>)
    requires PathsValid(fold, FilePaths(files)) && DirectoriesAgree(fold, PathsOf(files))
    ensures BundlePaths.NoneDifferOnlyByCase(fold, BundlePaths.FileMembers(PathsOf(files)))
  {
    hide Segments, PortablePath;
    var names := PathsOf(files);
    var members := BundlePaths.FileMembers(names);
    forall p, q | BundlePaths.InTree(members, p) && BundlePaths.InTree(members, q)
                  && BundlePaths.Folded(fold, p) == BundlePaths.Folded(fold, q)
      ensures p == q
    {
      var i, n := NodeIsFileOrDirectory(names, p);
      var j, l := NodeIsFileOrDirectory(names, q);
      if n == |names[i]| && l == |names[j]| {
        assert p == names[i] && q == names[j];
        assert FilePaths(files)[i] == files[i].path && FilePaths(files)[j] == files[j].path;
        assert CollisionKey(fold, files[i].path) == CollisionKey(fold, files[j].path);
      }
    }
  }

  /** Of captured files only the directories can keep them from being one tree. */
  lemma OnlyDirectoriesDecide(fold: BundlePaths.Fold, files: seq<RepositoryFile>)
    requires DistinctFiles(files) && PathsValid(fold, FilePaths(files))
    ensures OneTree(fold, files) <==> DirectoriesAgree(fold, PathsOf(files))
  {
    hide Segments, PathsValid;
    var names := PathsOf(files);
    var members := BundlePaths.FileMembers(names);
    if OneTree(fold, files) { TreeHasAgreeingDirectories(fold, names); }
    if DirectoriesAgree(fold, names) {
      AgreeingDirectoriesMakeOneCase(fold, files);
      forall i, j | 0 <= i < j < |files| ensures members[i].path != members[j].path {
        if Segments(files[i].path) == Segments(files[j].path) { EqualSegmentsEqualTexts(files[i].path, files[j].path); }
      }
      forall i, j | 0 <= i < |members| && 0 <= j < |members| ensures !(members[i].path < members[j].path) {
        if members[i].path != [] && members[i].path < members[j].path { FileIsNoDirectory(fold, names, i, j); }
      }
    }
  }

  lemma FileIsNoDirectory(fold: BundlePaths.Fold, names: seq<Path>, i: nat, j: nat)
    requires DirectoriesAgree(fold, names) && i < |names| && j < |names| && names[i] != []
    ensures !(names[i] < names[j])
  {
    assert BundlePaths.FileMembers(names)[i].path == names[i] && names[i] in names;
    assert BundlePaths.InTree(BundlePaths.FileMembers(names), names[i]);
    var n := |names[i]|;
    if n < |names[j]| { assert names[j][..n] != names[i]; }
  }

  predicate Letters(s: string) {
    s != "" && forall i | 0 <= i < |s| :: 'A' <= s[i] <= 'Z' || 'a' <= s[i] <= 'z'
  }

  predicate NoDeviceLetter(s: string) { |s| < 3 || LowerChar(s[0]) !in {'a', 'c', 'l', 'n', 'p'} }

  lemma NoDevice(s: string)
    requires Letters(s) && NoDeviceLetter(s)
    ensures Lower(s) !in DEVICES
  {
    assert |s| >= 3 ==> Lower(s)[0] == LowerChar(s[0]);
  }

  lemma LettersStem(s: string)
    requires Letters(s)
    ensures Stem(Lower(s)) == Lower(s) && Lower(s) !in INTERNAL
  {
    assert forall i | 0 <= i < |s| :: Lower(s)[i] != '.';
    IndexIs(Lower(s), '.', |s|);
  }

  lemma LettersAreNoDots(s: string)
    requires Letters(s)
    ensures Ascii(s) && s !in {"", ".", ".."} && s[|s| - 1] !in {'.', ' '}
  {
    assert s[0] != '.';
  }

  lemma LetterIsPortable(c: char)
    requires 'A' <= c <= 'Z' || 'a' <= c <= 'z'
    ensures PortableChar(c) && c != '/'
  {
  }

  lemma LettersArePortable(fold: BundlePaths.Fold, s: string)
    requires FoldsAscii(fold) && Letters(s) && NoDeviceLetter(s)
    ensures PortableSegment(fold, s) && '/' !in s
  {
    hide DEVICES, INTERNAL, Lower, Stem, NoDeviceLetter;
    LettersAreNoDots(s);
    forall i | 0 <= i < |s| ensures PortableChar(s[i]) && s[i] != '/' { LetterIsPortable(s[i]); }
    NoDevice(s);
    LettersStem(s);
  }

  lemma TwoLettersPath(fold: BundlePaths.Fold, directory: string, name: string)
    requires FoldsAscii(fold) && Letters(directory) && Letters(name)
    requires NoDeviceLetter(directory) && NoDeviceLetter(name)
    ensures Segments(directory + "/" + name) == [directory, name] && PortablePath(fold, directory + "/" + name)
  {
    hide PortableSegment, Segments, FoldsAscii;
    LettersArePortable(fold, directory);
    LettersArePortable(fold, name);
    TwoSegments(directory, name);
  }

  /** Committed files only. */
  function Committed(files: seq<RepositoryFile>): Snapshot { Snapshot(files, [], [], []) }

  lemma CommittedIsRefused(
      rules: Rules, files: seq<RepositoryFile>, d: Documents, r: Runtime, log: Option<Bytes>, policy: Policy)
    requires FoldsAscii(rules.fold) && RuntimeValid(r)
    requires DistinctFiles(files) && PathsValid(rules.fold, FilePaths(files)) && !OneTree(rules.fold, files)
    ensures SnapshotValid(rules, Committed(files))
    ensures !ArchiveAccepts(rules, WrittenMembers(d, Committed(files), r, log), policy)
  {
    hide FoldsAscii, RuntimeValid, OneTree, PathsValid, TreeOf, WrittenMembers;
    assert FilePaths(files) + FilePaths([]) == FilePaths(files);
    WrittenTreeIsAcceptable(rules.fold, d, Committed(files), r, log);
  }

  function CaseTwins(x: Bytes, y: Bytes): seq<RepositoryFile> {
    [RepositoryFile("Foo/a", false, x), RepositoryFile("foo/b", false, y)]
  }

  function FileTwins(x: Bytes, y: Bytes): seq<RepositoryFile> {
    [RepositoryFile("Foo", false, x), RepositoryFile("foo/bar", false, y)]
  }

  /**
   Two snapshots that the capture takes and the writer writes, and that every reader refuses, whatever their
   contents.
   */
  lemma CollidingDirectoriesAreRefused(
      rules: Rules, x: Bytes, y: Bytes, d: Documents, r: Runtime, log: Option<Bytes>, policy: Policy)
    requires FoldsAscii(rules.fold) && RuntimeValid(r)
    ensures SnapshotValid(rules, Committed(CaseTwins(x, y))) && SnapshotValid(rules, Committed(FileTwins(x, y)))
    ensures !ArchiveAccepts(rules, WrittenMembers(d, Committed(CaseTwins(x, y)), r, log), policy)
    ensures !ArchiveAccepts(rules, WrittenMembers(d, Committed(FileTwins(x, y)), r, log), policy)
  {
    hide FoldsAscii, RuntimeValid, CaseTwins, FileTwins, ArchiveAccepts, SnapshotValid, OneTree, PathsValid;
    hide DistinctFiles;
    DirectoriesThatCollide(rules.fold, x, y);
    FileAndDirectoryThatCollide(rules.fold, x, y);
    CommittedIsRefused(rules, CaseTwins(x, y), d, r, log, policy);
    CommittedIsRefused(rules, FileTwins(x, y), d, r, log, policy);
  }

  lemma FoldsAlike(fold: BundlePaths.Fold)
    requires FoldsAscii(fold)
    ensures fold("Foo") == fold("foo") && fold("a") != fold("b")
  {
    assert Ascii("Foo") && Ascii("foo") && Ascii("a") && Ascii("b");
    assert Lower("Foo") == Lower("foo");
    DifferentNamesFoldApart(fold, "a", "b");
  }

  lemma DirectoriesThatCollide(fold: BundlePaths.Fold, x: Bytes, y: Bytes)
    requires FoldsAscii(fold)
    ensures var files := CaseTwins(x, y);
            DistinctFiles(files) && PathsValid(fold, FilePaths(files)) && !OneTree(fold, files)
  {
    hide Segments, PortablePath, FoldsAscii;
    var files := CaseTwins(x, y);
    assert "Foo/a" == "Foo" + "/" + "a" && "foo/b" == "foo" + "/" + "b";
    TwoLettersPath(fold, "Foo", "a");
    TwoLettersPath(fold, "foo", "b");
    FoldsAlike(fold);
    var members := BundlePaths.FileMembers(PathsOf(files));
    assert members[0].path == ["Foo", "a"] && members[1].path == ["foo", "b"];
    assert CollisionKey(fold, "Foo/a")[1] != CollisionKey(fold, "foo/b")[1];
    assert ["Foo"] <= members[0].path && ["foo"] <= members[1].path;
    assert BundlePaths.InTree(members, ["Foo"]) && BundlePaths.InTree(members, ["foo"]);
    assert BundlePaths.Folded(fold, ["Foo"]) == BundlePaths.Folded(fold, ["foo"]) && ["Foo"][0] != ["foo"][0];
  }

  lemma FileAndDirectoryThatCollide(fold: BundlePaths.Fold, x: Bytes, y: Bytes)
    requires FoldsAscii(fold)
    ensures var files := FileTwins(x, y);
            DistinctFiles(files) && PathsValid(fold, FilePaths(files)) && !OneTree(fold, files)
  {
    hide Segments, FoldsAscii, PortableSegment;
    var files := FileTwins(x, y);
    assert "foo/bar" == "foo" + "/" + "bar";
    LettersArePortable(fold, "Foo");
    NoSlashOneSegment("Foo");
    TwoLettersPath(fold, "foo", "bar");
    FoldsAlike(fold);
    var members := BundlePaths.FileMembers(PathsOf(files));
    assert members[0].path == ["Foo"] && members[1].path == ["foo", "bar"];
    assert |CollisionKey(fold, "Foo")| != |CollisionKey(fold, "foo/bar")|;
    assert ["Foo"] <= members[0].path && ["foo"] <= members[1].path;
    assert BundlePaths.InTree(members, ["Foo"]) && BundlePaths.InTree(members, ["foo"]);
    assert BundlePaths.Folded(fold, ["Foo"]) == BundlePaths.Folded(fold, ["foo"]) && ["Foo"][0] != ["foo"][0];
  }
}
