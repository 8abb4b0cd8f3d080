/**
 Registration of repositories: one local identity per repository directory, one central id/path map,
 and a commit over both that rolls back to the exact previous bytes.
 File contents are strings of byte-valued characters.
 */
module Registration {
  import opened Prelude
  import opened Bindings

  type Text = string

  /** The local files of one repository directory; `directory` is the internal `.patchharbor` directory. */
  datatype Local = Local(directory: bool, id: Option<Text>, exclude: Option<Text>, config: Option<Text>)

  type Registry = map<string, string>

  /** The registry file keeps its exact text; `meaning` is what that text parses to. */
  datatype RegistryFile = RegistryFile(text: Text, meaning: Registry)

  predicate LocalValid(l: Local) { l.id.Some? || l.config.Some? ==> l.directory }

  // ---------------------------------------------------------------- the exclude entry

  const EXCLUDE_ENTRY := ".patchharbor/"

  predicate IsBreak(c: char) { c == '\n' || c == '\r' }

  function FirstBreak(s: Text): (n: nat)
    ensures n <= |s| && (n < |s| ==> IsBreak(s[n])) && forall i | 0 <= i < n :: !IsBreak(s[i])
  {
    if s == "" || IsBreak(s[0]) then 0 else 1 + FirstBreak(s[1..])
  }

  function BreakWidth(s: Text, n: nat): nat
    requires n < |s|
  {
    if s[n] == '\r' && n + 1 < |s| && s[n + 1] == '\n' then 2 else 1
  }

  /** Lines without their LF, CR or CRLF endings; a final ending adds no empty line. */
  function Lines(s: Text): seq<Text>
    decreases |s|
  {
    if s == "" then []
    else
      var n := FirstBreak(s);
      if n == |s| then [s] else [s[..n]] + Lines(s[n + BreakWidth(s, n)..])
  }

  predicate EndsWithNewline(s: Text) { s != "" && s[|s| - 1] == '\n' }

  function Excluded(exclude: Option<Text>): Option<Text> {
    var existing := exclude.GetOr("");
    if EXCLUDE_ENTRY in Lines(existing) then exclude
    else Some(existing + (if existing == "" || EndsWithNewline(existing) then "" else "\n") + EXCLUDE_ENTRY + "\n")
  }

  lemma {:induction false} FirstBreakIs(s: Text, n: nat)
    requires n <= |s| && (n < |s| ==> IsBreak(s[n])) && forall i | 0 <= i < n :: !IsBreak(s[i])
    ensures FirstBreak(s) == n
  {
    if n > 0 { FirstBreakIs(s[1..], n - 1); }
  }

  /** Text after a complete first line does not change that line. */
  lemma FirstLineOfSum(a: Text, b: Text)
    requires FirstBreak(a) < |a| && (a[FirstBreak(a)] == '\r' ==> FirstBreak(a) + 1 < |a|)
    ensures var n := FirstBreak(a);
            FirstBreak(a + b) == n && BreakWidth(a + b, n) == BreakWidth(a, n) && (a + b)[..n] == a[..n]
            && (a + b)[n + BreakWidth(a, n)..] == a[n + BreakWidth(a, n)..] + b
  {
    FirstBreakIs(a + b, FirstBreak(a));
  }

  lemma LinesOf(s: Text, n: nat, w: nat)
    requires n < |s| && FirstBreak(s) == n && BreakWidth(s, n) == w
    ensures Lines(s) == [s[..n]] + Lines(s[n + w..])
  {
  }

  lemma {:induction false} TerminatedTextSplits(a: Text, b: Text)
    requires a == "" || EndsWithNewline(a)
    ensures Lines(a + b) == Lines(a) + Lines(b)
    decreases |a|
  {
    if a == "" {
      assert a + b == b;
    } else {
      var n := FirstBreak(a);
      var w := BreakWidth(a, n);
      FirstLineOfSum(a, b);
      LinesOf(a, n, w);
      LinesOf(a + b, n, w);
      TerminatedTextSplits(a[n + w..], b);
      Joined([a[..n]], Lines(a[n + w..]), Lines(b));
    }
  }

  lemma Joined(x: seq<Text>, y: seq<Text>, z: seq<Text>)
    ensures x + (y + z) == (x + y) + z
  {
  }

  lemma ClosingCarriageReturn(a: Text)
    requires a != "" && a[|a| - 1] == '\r' && FirstBreak(a) == |a| - 1
    ensures Lines(a + "\n") == Lines(a)
  {
    hide Lines;
    var n := FirstBreak(a);
    FirstBreakIs(a + "\n", n);
    LinesOf(a, n, 1);
    LinesOf(a + "\n", n, 2);
    assert (a + "\n")[n + 2..] == "" == a[n + 1..] && (a + "\n")[..n] == a[..n];
  }

  lemma ClosingAfterTheFirstLine(a: Text)
    requires FirstBreak(a) + 1 < |a|
    requires var rest := a[FirstBreak(a) + BreakWidth(a, FirstBreak(a))..]; Lines(rest + "\n") == Lines(rest)
    ensures Lines(a + "\n") == Lines(a)
  {
    hide Lines;
    var n := FirstBreak(a);
    FirstLineOfSum(a, "\n");
    LinesOf(a, n, BreakWidth(a, n));
    LinesOf(a + "\n", n, BreakWidth(a, n));
  }

  lemma {:induction false} ClosingTheLastLine(a: Text)
    requires a != "" && !EndsWithNewline(a)
    ensures Lines(a + "\n") == Lines(a)
    decreases |a|
  {
    var n := FirstBreak(a);
    if n == |a| {
      OneLine(a);
    } else if n + 1 == |a| {
      ClosingCarriageReturn(a);
    } else {
      ClosingTheLastLine(a[n + BreakWidth(a, n)..]);
      ClosingAfterTheFirstLine(a);
    }
  }

  lemma OneLine(line: Text)
    requires line != "" && forall i | 0 <= i < |line| :: !IsBreak(line[i])
    ensures Lines(line + "\n") == [line]
  {
    FirstBreakIs(line + "\n", |line|);
    assert (line + "\n")[..|line|] == line;
  }

  /**
   How a text falls into lines, from its first line on: LF, CR and CRLF end a line, CR before LF being one end, and a
   last line needs none.
   */
  lemma LinesFromTheFirst(line: Text, rest: Text)
    requires forall i | 0 <= i < |line| :: line[i] != '\n' && line[i] != '\r'
    ensures Lines(line) == if line == "" then [] else [line]
    ensures Lines(line + ("\n" + rest)) == [line] + Lines(rest)
    ensures Lines(line + ("\r\n" + rest)) == [line] + Lines(rest)
    ensures rest == "" || rest[0] != '\n' ==> Lines(line + ("\r" + rest)) == [line] + Lines(rest)
  {
    FirstBreakIs(line, |line|);
    FirstBreakIs(line + ("\n" + rest), |line|);
    FirstBreakIs(line + ("\r\n" + rest), |line|);
    FirstBreakIs(line + ("\r" + rest), |line|);
    hide Lines;
    assert Lines(line) == if line == "" then [] else [line] by { UnendedLine(line); }
    CutFirst(line, "\n", rest);
    CutFirst(line, "\r\n", rest);
    if rest == "" || rest[0] != '\n' { CutFirst(line, "\r", rest); }
  }

  lemma UnendedLine(line: Text)
    requires FirstBreak(line) == |line|
    ensures Lines(line) == if line == "" then [] else [line]
  {
  }

  lemma CutFirst(line: Text, end: Text, rest: Text)
    requires end == "\n" || end == "\r\n" || (end == "\r" && (rest == "" || rest[0] != '\n'))
    requires FirstBreak(line + (end + rest)) == |line|
    ensures Lines(line + (end + rest)) == [line] + Lines(rest)
  {
    hide Lines;
    var text := line + (end + rest);
    assert text[|line|] == end[0] && text[..|line|] == line && text[|line| + |end|..] == rest;
    assert |line| + 1 < |text| ==> text[|line| + 1] == (end + rest)[1];
    LinesOf(text, |line|, |end|);
  }

  /** The entry is added once, as a line of its own, and every other line stays. */
  lemma ExcludeGainsOneLine(exclude: Option<Text>)
    ensures var before := Lines(exclude.GetOr(""));
            Excluded(exclude).GetOr("") != "" ==>
            Lines(Excluded(exclude).GetOr("")) == if EXCLUDE_ENTRY in before then before else before + [EXCLUDE_ENTRY]
    ensures EXCLUDE_ENTRY in Lines(Excluded(exclude).GetOr("")) && Excluded(Excluded(exclude)) == Excluded(exclude)
  {
    var existing := exclude.GetOr("");
    OneLine(EXCLUDE_ENTRY);
    assert Lines("") == [];
    hide Lines;
    if EXCLUDE_ENTRY !in Lines(existing) {
      var closed := existing + (if existing == "" || EndsWithNewline(existing) then "" else "\n");
      if existing != "" && !EndsWithNewline(existing) {
        ClosingTheLastLine(existing);
      } else {
        assert closed == existing;
      }
      TerminatedTextSplits(closed, EXCLUDE_ENTRY + "\n");
      assert closed + (EXCLUDE_ENTRY + "\n") == Excluded(exclude).value;
    }
  }

  // ---------------------------------------------------------------- identity files

  /** The identity an id file states: one canonical id and one newline. */
  function IdOf(content: Text): Option<string> {
    if |content| == 37 && content[36] == '\n' && IsCanonicalUuid4(content[..36]) then Some(content[..36]) else None
  }

  function Applied(before: Local, id: string, defaults: Text): Local {
    Local(true, Some(id + "\n"), Excluded(before.exclude), if before.id.None? then Some(defaults) else before.config)
  }

  function ReplaceMapping(registry: Registry, id: string, path: string): Registry {
    (map k | k in registry && registry[k] != path :: registry[k])[id := path]
  }

  predicate Injective(registry: Registry) {
    forall a, b | a in registry && b in registry && registry[a] == registry[b] :: a == b
  }

  // ---------------------------------------------------------------- one commit

  /** One file-system request of a commit or of its rollback. */
  datatype Request =
    | MakeDirectory | InspectDirectory | WriteExclude | InspectId | WriteId
    | RequireIdentity | InspectConfig | WriteConfig | InspectRegistry | WriteRegistry
    | RestoreConfig | RestoreId | RestoreExclude | RemoveDirectory | InspectForRestore | RestoreRegistry

  /** A request may also fail after it took effect, as when the process is interrupted. */
  datatype Fate = Works | FailsBefore | FailsAfter

  type Os = Request -> Fate

  ghost predicate RestoresWork(os: Os) {
    && os(RestoreConfig) == os(RestoreId) == os(RestoreExclude) == os(RemoveDirectory) == Works
    && os(InspectForRestore) == os(RestoreRegistry) == Works
  }

  datatype Outcome = Committed | RolledBack | Inconsistent

  class IdentityFiles {
    const defaults: Text
    const encode: Registry -> Text
    var local: Local
    var registry: Option<RegistryFile>

    constructor (defaults: Text, encode: Registry -> Text, local: Local, registry: Option<RegistryFile>)
      ensures this.defaults == defaults && this.encode == encode && this.local == local && this.registry == registry
    {
      this.defaults := defaults;
      this.encode := encode;
      this.local := local;
      this.registry := registry;
    }

    /** The directory, the exclude entry and the identity, in this order. */
    method ApplyLocal(os: Os, before: Local, id: string) returns (ok: bool)
      requires local == before && LocalValid(before)
      modifies `local
      ensures LocalValid(local) && (before.directory ==> local.directory) && local.config == before.config
      ensures local.id in {before.id, Some(id + "\n")} && local.exclude in {before.exclude, Excluded(before.exclude)}
      ensures local.id != before.id ==> local.directory && local.exclude == Excluded(before.exclude)
      ensures local.exclude != before.exclude ==> local.directory
      ensures ok ==> local == Local(true, Some(id + "\n"), Excluded(before.exclude), before.config)
      ensures (forall q :: os(q) == Works) ==> ok
    {
      if !before.directory {
        if os(MakeDirectory) == FailsBefore { return false; }
        local := local.(directory := true);
        if os(MakeDirectory) == FailsAfter { return false; }
      }
      if os(InspectDirectory) != Works { return false; }
      if EXCLUDE_ENTRY !in Lines(before.exclude.GetOr("")) {
        if os(WriteExclude) == FailsBefore { return false; }
        local := local.(exclude := Excluded(before.exclude));
        if os(WriteExclude) == FailsAfter { return false; }
      }
      if os(InspectId) != Works || os(WriteId) == FailsBefore { return false; }
      local := local.(id := Some(id + "\n"));
      return os(WriteId) == Works;
    }

    /** Defaults for a new identity; an existing configuration is never overwritten. */
    method InitializeConfiguration(os: Os) returns (ok: bool)
      requires LocalValid(local) && local.directory
      modifies `local
      ensures LocalValid(local) && local == old(local).(config := local.config)
      ensures ok ==> old(local).config.None? && local.config == Some(defaults)
      ensures (forall q :: os(q) == Works) && old(local).config.None? ==> ok
    {
      if os(RequireIdentity) != Works || os(InspectConfig) != Works || local.config.Some? { return false; }
      if os(WriteConfig) == FailsBefore { return false; }
      local := local.(config := Some(defaults));
      return os(WriteConfig) == Works;
    }

    method WriteRegistryFile(os: Os, next: Registry) returns (ok: bool)
      modifies `registry
      ensures ok ==> registry == Some(RegistryFile(encode(next), next))
      ensures !ok ==>
                registry == old(registry)
                  || (os(WriteRegistry) == FailsAfter && registry == Some(RegistryFile(encode(next), next)))
      ensures (forall q :: os(q) == Works) ==> ok
    {
      if os(InspectRegistry) != Works || os(WriteRegistry) == FailsBefore { return false; }
      registry := Some(RegistryFile(encode(next), next));
      return os(WriteRegistry) == Works;
    }

    /** Put every local file back, whatever state it is in; go on after a failure. */
    method RestoreLocal(os: Os, before: Local) returns (ok: bool)
      requires LocalValid(before) && LocalValid(local) && (before.directory ==> local.directory)
      modifies `local
      ensures os(RestoreConfig) != FailsBefore ==> local.config == before.config
      ensures os(RestoreId) != FailsBefore ==> local.id == before.id
      ensures os(RestoreExclude) != FailsBefore ==> local.exclude == before.exclude
      ensures before.directory || (os(RemoveDirectory) != FailsBefore && local.id.None? && local.config.None?) ==>
                local.directory == before.directory
      ensures ok ==> local == before
      ensures RestoresWork(os) ==> ok
    {
      ok := true;
      if os(RestoreConfig) == FailsBefore { ok := false; } else { local := local.(config := before.config); }
      if os(RestoreId) == FailsBefore { ok := false; } else { local := local.(id := before.id); }
      if os(RestoreExclude) == FailsBefore { ok := false; } else { local := local.(exclude := before.exclude); }
      ok := ok && os(RestoreConfig) == os(RestoreId) == os(RestoreExclude) == Works;
      if !before.directory && local.directory {
        if os(RemoveDirectory) == FailsBefore || local.id.Some? || local.config.Some? {
          ok := false;
        } else {
          local := local.(directory := false);
          ok := ok && os(RemoveDirectory) == Works;
        }
      }
    }

    method RestoreRegistryFile(os: Os, before: Option<RegistryFile>) returns (ok: bool)
      modifies `registry
      ensures ok ==> registry == before
      ensures RestoresWork(os) ==> ok
    {
      if os(InspectForRestore) != Works { return false; }
      if before.None? && registry.None? { return true; }
      if os(RestoreRegistry) == FailsBefore { return false; }
      registry := before;
      return os(RestoreRegistry) == Works;
    }

    /** All of the new state, or exactly the old one; anything else only after a failed restore, and reported. */
    method Commit(os: Os, id: string, next: Registry) returns (outcome: Outcome)
      requires LocalValid(local) && (local.id.None? ==> local.config.None?)
      modifies `local, `registry
      ensures outcome == Committed ==>
                local == Applied(old(local), id, defaults) && registry == Some(RegistryFile(encode(next), next))
      ensures outcome == Committed ==>
                && local.directory && local.id == Some(id + "\n") && local.exclude == Excluded(old(local).exclude)
                && local.config == (if old(local).id.None? then Some(defaults) else old(local).config)
      ensures outcome == RolledBack ==> local == old(local) && registry == old(registry)
      ensures outcome == Inconsistent ==> !RestoresWork(os)
      ensures (forall q :: os(q) == Works) ==> outcome == Committed
    {
      var before, registryBefore := local, registry;
      var ok := ApplyLocal(os, before, id);
      if ok && before.id.None? { ok := InitializeConfiguration(os); }
      if ok { ok := WriteRegistryFile(os, next); }
      if ok { return Committed; }
      var localBack := RestoreLocal(os, before);
      var registryBack := RestoreRegistryFile(os, registryBefore);
      return if localBack && registryBack then RolledBack else Inconsistent;
    }
  }

  // ---------------------------------------------------------------- choosing the identity

  datatype World = World(registry: Registry, places: map<string, Local>)

  datatype RegistryStatus = Matching | Missing | Conflict

  function StatusOf(places: map<string, Local>, path: string, id: string): RegistryStatus {
    if path !in places then Missing
    else if places[path].directory && places[path].id.Some? && IdOf(places[path].id.value) == Some(id) then Matching
    else Conflict
  }

  datatype IdentityState = LocalIdMissing | IdUnmapped | RegisteredHere | RegisteredPathMissing | RegisteredElsewhere

  function IdentityStateOf(w: World, path: string, localId: Option<string>): IdentityState {
    match localId
    case None => LocalIdMissing
    case Some(id) =>
      if id !in w.registry then IdUnmapped
      else if w.registry[id] == path then RegisteredHere
      else if StatusOf(w.places, w.registry[id], id) == Missing then RegisteredPathMissing
      else RegisteredElsewhere
  }

  datatype Error =
    | NotARepository | BadIdFile | IdentityMissing | ConfigurationMissing | ConfigurationUnreadable | OverlapsExchange
    | RegisteredToExistingPath | NotRegistered | IdentityChanged

  /** What a configuration says about the exchange directory. */
  datatype Configured = Unreadable | NoExchange | Exchange(directory: string)

  /** Default configuration, configuration parser, and whether a repository path and an exchange directory overlap. */
  datatype Site = Site(defaults: Text, parse: Text -> Configured, overlaps: (string, string) -> bool)

  /** Why a configuration forbids a repository at `path`, if it does. */
  function Objection(config: Option<Text>, path: string, site: Site): Option<Error> {
    if config.None? then Some(ConfigurationMissing)
    else
      match site.parse(config.value)
      case Unreadable => Some(ConfigurationUnreadable)
      case NoExchange => None
      case Exchange(directory) => if site.overlaps(path, directory) then Some(OverlapsExchange) else None
  }

  /** The other registered repositories, as far as their directories still carry their id. */
  function Others(w: World, path: string): set<string> {
    set id | id in w.registry && w.registry[id] != path && StatusOf(w.places, w.registry[id], id) == Matching
  }

  function ObjectionOf(w: World, id: string, path: string, site: Site): Option<Error>
    requires id in w.registry && w.registry[id] in w.places
  {
    Objection(w.places[w.registry[id]].config, path, site)
  }

  /** Some objection of another repository; which one is met first depends on the order of the registry. */
  ghost function OthersObject(w: World, path: string, site: Site): (r: Option<Error>)
    ensures r.None? <==> forall id | id in Others(w, path) :: ObjectionOf(w, id, path, site).None?
  {
    if exists id :: id in Others(w, path) && ObjectionOf(w, id, path, site).Some? then
      var id :| id in Others(w, path) && ObjectionOf(w, id, path, site).Some?;
      ObjectionOf(w, id, path, site)
    else None
  }

  /** The identity a registration selects; `candidate` is a new random id. */
  function SelectedId(
      w: World, path: string, localId: Option<string>, replaceId: bool, candidate: string): Result<string, Error>
  {
    var state := IdentityStateOf(w, path, localId);
    if replaceId || state == LocalIdMissing then Ok(candidate)
    else if state == RegisteredElsewhere then Err(RegisteredToExistingPath)
    else Ok(localId.value)
  }

  function LocalIdOf(l: Local): Option<string> {
    if l.directory && l.id.Some? then IdOf(l.id.value) else None
  }

  /** One registration whose commit succeeds; a failed commit that is rolled back leaves the world as it was. */
  ghost function Register(w: World, path: string, replaceId: bool, candidate: string, site: Site): Result<World, Error>
  {
    if path !in w.places then Err(NotARepository)
    else
      var local := w.places[path];
      if local.id.Some? && IdOf(local.id.value).None? then Err(BadIdFile)
      else if local.id.None? && (local.config.Some? || path in w.registry.Values) then Err(IdentityMissing)
      else if local.id.Some? && Objection(local.config, path, site).Some?
        then Err(Objection(local.config, path, site).value)
      else if OthersObject(w, path, site).Some? then Err(OthersObject(w, path, site).value)
      else
        match SelectedId(w, path, LocalIdOf(local), replaceId, candidate)
        case Err(e) => Err(e)
        case Ok(id) => Ok(World(ReplaceMapping(w.registry, id, path),
              w.places[path := Applied(local, id, site.defaults)]))
  }

  /** Remove one mapping; the local files stay. A path that exists must still carry the id. */
  function Unregister(w: World, id: string): Result<World, Error> {
    if id !in w.registry then Err(NotRegistered)
    else if StatusOf(w.places, w.registry[id], id) == Conflict then Err(IdentityChanged)
    else Ok(w.(registry := w.registry - {id}))
  }

  datatype Step =
    | DoRegister(path: string, replaceId: bool, candidate: string) | DoUnregister(id: string)
    | Outside(places: map<string, Local>)

  predicate PlacesValid(places: map<string, Local>) { forall p | p in places :: LocalValid(places[p]) }

  /** One action; `None` when it is refused. Random ids are canonical and unused. */
  ghost function Next(w: World, step: Step, site: Site): Option<World> {
    match step
    case DoRegister(path, replaceId, candidate) =>
      if !IsCanonicalUuid4(candidate) || candidate in w.registry then None
      else (match Register(w, path, replaceId, candidate, site) case Ok(v) => Some(v) case Err(_) => None)
    case DoUnregister(id) => (match Unregister(w, id) case Ok(v) => Some(v) case Err(_) => None)
    case Outside(places) => if PlacesValid(places) then Some(w.(places := places)) else None
  }

  ghost function Run(w: World, steps: seq<Step>, site: Site): World
    decreases |steps|
  {
    if steps == [] then w
    else Run(Next(w, steps[0], site).GetOr(w), steps[1..], site)
  }

  ghost predicate WorldValid(w: World) { Injective(w.registry) && PlacesValid(w.places) }

  /** The directory is there and its id file states exactly this id. */
  predicate Carries(places: map<string, Local>, path: string, id: string) {
    path in places && places[path].directory && places[path].id == Some(id + "\n") && IsCanonicalUuid4(id)
  }

  /** The configuration is there, readable, and names no exchange directory that overlaps `path`. */
  predicate Permits(config: Option<Text>, path: string, site: Site) {
    && config.Some? && !site.parse(config.value).Unreadable?
    && (site.parse(config.value).Exchange? ==> !site.overlaps(path, site.parse(config.value).directory))
  }

  lemma IdOfMeans(content: Text, id: string)
    ensures IdOf(content) == Some(id) <==> content == id + "\n" && IsCanonicalUuid4(id)
  {
    assert |content| == 37 && content[36] == '\n' ==> content == content[..36] + "\n";
    assert (id + "\n")[..|id|] == id;
  }

  lemma StatusMeans(places: map<string, Local>, path: string, id: string)
    ensures StatusOf(places, path, id) == Matching <==> Carries(places, path, id)
    ensures StatusOf(places, path, id) == Missing <==> path !in places
  {
    if path in places && places[path].id.Some? { IdOfMeans(places[path].id.value, id); }
  }

  lemma ObjectionMeans(config: Option<Text>, path: string, site: Site)
    ensures Objection(config, path, site).None? <==> Permits(config, path, site)
  {
  }

  /** The id the local files state, if they are in order. */
  predicate States(l: Local, id: string) { l.id == Some(id + "\n") && IsCanonicalUuid4(id) }

  lemma StepKeepsTheMapInjective(w: World, step: Step, site: Site)
    requires WorldValid(w) && Next(w, step, site).Some?
    ensures WorldValid(Next(w, step, site).value)
  {
  }

  /** From an empty registry, every sequence of registrations, removals and outside changes keeps the map injective. */
  lemma {:induction false} EveryRunKeepsTheMapInjective(w: World, steps: seq<Step>, site: Site)
    requires WorldValid(w)
    ensures WorldValid(Run(w, steps, site))
    decreases |steps|
  {
    if steps != [] {
      if Next(w, steps[0], site).Some? { StepKeepsTheMapInjective(w, steps[0], site); }
      EveryRunKeepsTheMapInjective(Next(w, steps[0], site).GetOr(w), steps[1..], site);
    }
  }

  /** An id moves to another path only when its old path is gone and the new one carries that very id. */
  lemma NoExistingPathIsAbandoned(w: World, step: Step, site: Site, id: string)
    requires WorldValid(w) && Next(w, step, site).Some? && id in w.registry
    ensures var next := Next(w, step, site).value;
            id in next.registry && next.registry[id] != w.registry[id] ==>
              && step.DoRegister? && !step.replaceId && next.registry[id] == step.path
              && w.registry[id] !in w.places
              && step.path in w.places && States(w.places[step.path], id)
    ensures var next := Next(w, step, site).value;
            id !in next.registry ==> (step.DoUnregister? && step.id == id)
                                     || (step.DoRegister? && w.registry[id] == step.path)
  {
    if step.DoRegister? && step.path in w.places && w.places[step.path].id.Some? {
      IdOfMeans(w.places[step.path].id.value, id);
    }
    hide OthersObject, Objection, Excluded, IdOf;
  }

  /** After a registration exactly one id names the path, and the directory carries that id. */
  lemma RegistrationAgreesWithTheDirectory(w: World, path: string, replaceId: bool, candidate: string, site: Site)
    requires WorldValid(w) && IsCanonicalUuid4(candidate) && candidate !in w.registry
    requires Register(w, path, replaceId, candidate, site).Ok?
    ensures var next := Register(w, path, replaceId, candidate, site).value;
            exists id :: id in next.registry && next.registry[id] == path && Carries(next.places, path, id)
                         && forall other | other in next.registry && next.registry[other] == path :: other == id
  {
    var id := SelectedId(w, path, LocalIdOf(w.places[path]), replaceId, candidate).value;
    assert (id + "\n")[..36] == id;
    var next := Register(w, path, replaceId, candidate, site).value;
    StatusMeans(next.places, path, id);
    assert next.registry[id] == path && Carries(next.places, path, id);
  }

  /** A registered directory is excluded from Git and configured, and no other directory is touched. */
  lemma RegistrationPreparesOnlyItsDirectory(w: World, path: string, replaceId: bool, candidate: string, site: Site)
    requires PlacesValid(w.places) && Register(w, path, replaceId, candidate, site).Ok?
    ensures var next := Register(w, path, replaceId, candidate, site).value;
            path in next.places && EXCLUDE_ENTRY in Lines(next.places[path].exclude.GetOr(""))
              && next.places[path].config.Some?
            && next.places.Keys == w.places.Keys
            && forall p | p in w.places && p != path :: next.places[p] == w.places[p]
  {
    ExcludeGainsOneLine(w.places[path].exclude);
  }

  /** All other registered repositories whose directories still carry their id permit a repository at `path`. */
  predicate OthersPermit(w: World, path: string, site: Site) {
    forall id | id in w.registry && w.registry[id] != path && Carries(w.places, w.registry[id], id) ::
      Permits(w.places[w.registry[id]].config, path, site)
  }

  lemma OthersObjectMeans(w: World, path: string, site: Site)
    ensures OthersObject(w, path, site).None? <==> OthersPermit(w, path, site)
  {
    hide Objection, StatusOf, Carries, Permits, OthersObject;
    forall id | id in w.registry
      ensures StatusOf(w.places, w.registry[id], id) == Matching <==> Carries(w.places, w.registry[id], id)
    {
      StatusMeans(w.places, w.registry[id], id);
    }
    forall id | id in Others(w, path)
      ensures w.registry[id] in w.places
      ensures ObjectionOf(w, id, path, site).None? <==> Permits(w.places[w.registry[id]].config, path, site)
    {
      MatchingIsThere(w, id);
      ObjectionMeans(w.places[w.registry[id]].config, path, site);
    }
  }

  lemma MatchingIsThere(w: World, id: string)
    requires id in w.registry && StatusOf(w.places, w.registry[id], id) == Matching
    ensures w.registry[id] in w.places
  {
  }

  /**
   A registration is accepted exactly in these cases: a directory that was never registered gets a new id; one that
   carries an id and permits itself keeps that id, or gets a new one on request, unless the id is registered for
   another existing path.
   */
  lemma RegistrationIsRefusedExactlyWhen(w: World, path: string, replaceId: bool, candidate: string, site: Site)
    requires WorldValid(w) && IsCanonicalUuid4(candidate) && candidate !in w.registry
    ensures Register(w, path, replaceId, candidate, site).Ok? <==>
              && path in w.places && OthersPermit(w, path, site)
              && var l := w.places[path];
                || (l.id.None? && l.config.None? && forall id | id in w.registry :: w.registry[id] != path)
                || (&& Permits(l.config, path, site)
                    && exists id ::
                         States(l, id) && (replaceId || id !in w.registry || w.registry[id] == path
                                           || w.registry[id] !in w.places))
  {
    hide OthersObject, Others, Objection, OthersPermit, Permits, IdOf, StatusOf;
    OthersObjectMeans(w, path, site);
    if path in w.places {
      var l := w.places[path];
      assert l.id.Some? ==> l.directory;
      ObjectionMeans(l.config, path, site);
      if l.id.Some? {
        forall id ensures States(l, id) <==> IdOf(l.id.value) == Some(id) { IdOfMeans(l.id.value, id); }
        if IdOf(l.id.value).Some? {
          var id := IdOf(l.id.value).value;
          assert States(l, id);
          if id in w.registry { StatusMeans(w.places, w.registry[id], id); }
        }
      }
    }
  }

  /** What an accepted registration leaves: one entry for the path, the others as they were, and the prepared files. */
  lemma RegistrationWrites(w: World, path: string, replaceId: bool, candidate: string, site: Site, next: World)
    returns (id: string)
    requires WorldValid(w) && IsCanonicalUuid4(candidate) && candidate !in w.registry
    requires Register(w, path, replaceId, candidate, site) == Ok(next)
    ensures path in w.places
    ensures if replaceId || w.places[path].id.None? then id == candidate else States(w.places[path], id)
    ensures forall other ::
              other in next.registry <==> other == id || (other in w.registry && w.registry[other] != path)
    ensures forall other | other in next.registry ::
              next.registry[other] == if other == id then path else w.registry[other]
    ensures var l := w.places[path];
            next.places == w.places[path := Local(true, Some(id + "\n"), Excluded(l.exclude),
                                                  if l.id.None? then Some(site.defaults) else l.config)]
  {
    hide OthersObject, Others, Objection, StatusOf, Excluded, IdOf;
    var l := w.places[path];
    id := SelectedId(w, path, LocalIdOf(l), replaceId, candidate).value;
    assert l.id.Some? ==> l.directory;
    if l.id.Some? && !replaceId { IdOfMeans(l.id.value, id); }
  }

  /** A removal is refused exactly if the id is not registered, or its path exists and does not carry it any more. */
  lemma RemovalIsRefusedExactlyWhen(w: World, id: string)
    ensures Unregister(w, id).Ok? <==>
              id in w.registry && (w.registry[id] !in w.places || Carries(w.places, w.registry[id], id))
    ensures Unregister(w, id).Ok? ==> Unregister(w, id).value == World(w.registry - {id}, w.places)
  {
    if id in w.registry { StatusMeans(w.places, w.registry[id], id); }
  }

  // ---------------------------------------------------------------- separation from exchange directories

  /** The repository of `b` lies apart from the exchange directory of `a`. */
  predicate Apart(w: World, a: string, b: string, site: Site)
    requires a in w.registry && b in w.registry && w.registry[a] in w.places
  {
    var config := w.places[w.registry[a]].config;
    config.Some? && site.parse(config.value).Exchange? ==>
      !site.overlaps(w.registry[b], site.parse(config.value).directory)
  }

  predicate InPlace(w: World, id: string) { id in w.registry && StatusOf(w.places, w.registry[id], id) == Matching }

  /** No registered repository overlaps an exchange directory of a registered repository. */
  ghost predicate Separated(w: World, site: Site) {
    forall a, b | InPlace(w, a) && InPlace(w, b) :: Apart(w, a, b, site)
  }

  /** What a registration does to everything else: the path has one id, and the other repositories stay as they were. */
  lemma RegistrationEffect(w: World, path: string, replaceId: bool, candidate: string, site: Site, next: World)
    returns (id: string)
    requires WorldValid(w) && IsCanonicalUuid4(candidate) && candidate !in w.registry
    requires Register(w, path, replaceId, candidate, site) == Ok(next)
    ensures InPlace(next, id) && next.registry[id] == path && path in w.places
    ensures next.places[path].config == if w.places[path].id.None? then Some(site.defaults) else w.places[path].config
    ensures forall b :: InPlace(next, b) <==> b == id || b in Others(w, path)
    ensures forall b | b in Others(w, path) ::
              InPlace(w, b) && b != id && next.registry[b] == w.registry[b]
                && next.places[w.registry[b]] == w.places[w.registry[b]]
    ensures forall b | b in Others(w, path) :: ObjectionOf(w, b, path, site).None?
    ensures w.places[path].id.Some? ==> Objection(w.places[path].config, path, site).None?
  {
    hide OthersObject, Objection;
    id := SelectedId(w, path, LocalIdOf(w.places[path]), replaceId, candidate).value;
    assert (id + "\n")[..36] == id;
  }

  /** The exchange directory a repository brings along, if it has been registered before. */
  function Brings(w: World, path: string, site: Site): Configured
    requires path in w.places
  {
    var l := w.places[path];
    if l.id.Some? && l.config.Some? then site.parse(l.config.value) else NoExchange
  }

  /**
   Registration keeps the separation of all registered repositories exactly if no other registered repository
   overlaps the exchange directory that the registered one brings along: this direction is not checked.
   */
  lemma SeparationIsKeptExactlyWhen(w: World, path: string, replaceId: bool, candidate: string, site: Site)
    requires WorldValid(w) && Separated(w, site) && site.parse(site.defaults) == NoExchange
    requires IsCanonicalUuid4(candidate) && candidate !in w.registry
             && Register(w, path, replaceId, candidate, site).Ok?
    ensures path in w.places
    ensures Separated(Register(w, path, replaceId, candidate, site).value, site) <==>
              (Brings(w, path, site).Exchange? ==>
                 forall b | b in Others(w, path) :: !site.overlaps(w.registry[b], Brings(w, path, site).directory))
  {
    hide Register, ReplaceMapping, Others, WorldValid, LocalIdOf;
    var next := Register(w, path, replaceId, candidate, site).value;
    var id := RegistrationEffect(w, path, replaceId, candidate, site, next);
    var brought := Brings(w, path, site);
    if Separated(next, site) && brought.Exchange? {
      forall b | b in Others(w, path)
        ensures !site.overlaps(w.registry[b], brought.directory)
      {
        assert Apart(next, id, b, site);
      }
    }
    if brought.Exchange? ==> forall b | b in Others(w, path) :: !site.overlaps(w.registry[b], brought.directory) {
      forall a, b | InPlace(next, a) && InPlace(next, b) ensures Apart(next, a, b, site) {
        if a != id && b != id {
          assert Apart(w, a, b, site);
        } else if a != id {
          assert ObjectionOf(w, a, path, site).None?;
        }
      }
    }
  }

  /** A repository that is unregistered, and comes back after another was registered inside its exchange directory. */
  lemma ReturningRepositoryLosesSeparation(a: string, b: string, candidate: string)
    requires IsCanonicalUuid4(a) && IsCanonicalUuid4(b) && IsCanonicalUuid4(candidate) && candidate != b && a != b
    ensures var site := Site("{}", text => if text == "{x}" then Exchange("/x") else NoExchange,
                (path, directory) => path == "/x/b");
            var w := World(map[b := "/x/b"], map["/a" := Local(true, Some(a + "\n"), None, Some("{x}")),
                                                "/x/b" := Local(true, Some(b + "\n"), None, Some("{}"))]);
            && WorldValid(w) && Separated(w, site) && Register(w, "/a", false, candidate, site).Ok?
            && !Separated(Register(w, "/a", false, candidate, site).value, site)
  {
    var site := Site("{}", text => if text == "{x}" then Exchange("/x") else NoExchange,
        (path, directory) => path == "/x/b");
    var w := World(map[b := "/x/b"], map["/a" := Local(true, Some(a + "\n"), None, Some("{x}")),
                                        "/x/b" := Local(true, Some(b + "\n"), None, Some("{}"))]);
    assert (a + "\n")[..36] == a && (b + "\n")[..36] == b;
    assert "/a" != "/x/b" && "{x}" != "{}";
    assert b in Others(w, "/a");
    SeparationIsKeptExactlyWhen(w, "/a", false, candidate, site);
  }
}
