/**
 Paths as texts: the rule for repository paths, the rule for archive member names, and how a Result
 archive combines the two. `fold` is the caseless form of one segment, as in `BundlePaths`.
 */
module RepositoryPaths {
  import opened BundlePaths

  // ---------------------------------------------------------------- segments

  function IndexOf(text: string, c: char): (n: nat)
    ensures n <= |text| && (n < |text| ==> text[n] == c) && forall i | 0 <= i < n :: text[i] != c
  {
    if text == "" || text[0] == c then 0 else 1 + IndexOf(text[1..], c)
  }

  /** The parts between slashes, empty ones included. */
  function Segments(text: string): (segments: Path)
    ensures segments != []
    decreases |text|
  {
    var n := IndexOf(text, '/');
    if n == |text| then [text] else [text[..n]] + Segments(text[n + 1..])
  }

  function JoinedBySlash(p: Path): string
    requires p != []
  {
    if |p| == 1 then p[0] else p[0] + "/" + JoinedBySlash(p[1..])
  }

  lemma SegmentsUnfold(text: string, n: nat)
    requires IndexOf(text, '/') == n < |text|
    ensures Segments(text) == [text[..n]] + Segments(text[n + 1..])
  {
    hide IndexOf;
  }

  /** Segments lose nothing and hold no slash. */
  lemma {:induction false} SegmentsJoin(text: string)
    ensures JoinedBySlash(Segments(text)) == text && forall x | x in Segments(text) :: '/' !in x
    decreases |text|
  {
    var n := IndexOf(text, '/');
    if n < |text| {
      SegmentsUnfold(text, n);
      SegmentsJoin(text[n + 1..]);
      assert Segments(text)[1..] == Segments(text[n + 1..]);
      assert text == text[..n] + "/" + text[n + 1..];
    }
  }

  lemma {:induction false} IndexIs(text: string, c: char, n: nat)
    requires n <= |text| && (n < |text| ==> text[n] == c) && forall i | 0 <= i < n :: text[i] != c
    ensures IndexOf(text, c) == n
  {
    if n > 0 { IndexIs(text[1..], c, n - 1); }
  }

  lemma NoSlashOneSegment(text: string)
    requires '/' !in text
    ensures Segments(text) == [text]
  {
    IndexIs(text, '/', |text|);
  }

  /** A directory in front becomes the first segment. */
  lemma DirectoryInFront(directory: string, text: string)
    requires '/' !in directory
    ensures Segments(directory + "/" + text) == [directory] + Segments(text)
  {
    var whole := directory + "/" + text;
    assert whole[|directory|] == '/';
    IndexIs(whole, '/', |directory|);
    SegmentsUnfold(whole, |directory|);
    assert whole[..|directory|] == directory && whole[|directory| + 1..] == text;
  }

  // ---------------------------------------------------------------- ASCII and case

  predicate Ascii(s: string) { forall i | 0 <= i < |s| :: s[i] < 128 as char }

  function LowerChar(c: char): char { if 'A' <= c <= 'Z' then (c as int + 32) as char else c }

  function UpperChar(c: char): char { if 'a' <= c <= 'z' then (c as int - 32) as char else c }

  function Lower(s: string): (t: string)
    ensures |t| == |s| && forall i | 0 <= i < |s| :: t[i] == LowerChar(s[i])
  {
    seq(|s|, i requires 0 <= i < |s| => LowerChar(s[i]))
  }

  function Upper(s: string): (t: string)
    ensures |t| == |s| && forall i | 0 <= i < |s| :: t[i] == UpperChar(s[i])
  {
    seq(|s|, i requires 0 <= i < |s| => UpperChar(s[i]))
  }

  /** Caseless comparison of ASCII texts is comparison in lower case. */
  ghost predicate FoldsAscii(fold: Fold) { forall s: string | Ascii(s) :: fold(s) == Lower(s) }

  /** What precedes the first dot. */
  function Stem(s: string): (t: string)
    ensures |t| <= |s| && t == s[..|t|] && '.' !in t && (|t| < |s| ==> s[|t|] == '.')
  {
    s[..IndexOf(s, '.')]
  }

  // ---------------------------------------------------------------- repository paths

  const INTERNAL := {".git", ".patchharbor"}

  const DEVICES := {"con", "prn", "aux", "nul", "conin$", "conout$", "clock$",
                    "com1", "com2", "com3", "com4", "com5", "com6", "com7", "com8", "com9",
                    "lpt1", "lpt2", "lpt3", "lpt4", "lpt5", "lpt6", "lpt7", "lpt8", "lpt9"}

  predicate PortableChar(c: char) {
    0x1F as char < c && c != 0x7F as char && c !in {'<', '>', ':', '"', '\\', '|', '?', '*'}
  }

  predicate PortableSegment(fold: Fold, s: string) {
    && s !in {"", ".", ".."} && (forall i | 0 <= i < |s| :: PortableChar(s[i]))
    && s[|s| - 1] !in {'.', ' '} && fold(s) !in INTERNAL && Stem(fold(s)) !in DEVICES
  }

  predicate AllPortable(fold: Fold, segments: Path) {
    forall i | 0 <= i < |segments| :: PortableSegment(fold, segments[i])
  }

  predicate PortablePath(fold: Fold, path: string) { AllPortable(fold, Segments(path)) }

  function CollisionKey(fold: Fold, path: string): Path { Folded(fold, Segments(path)) }

  /** Every path is portable and no two different paths differ only by case. */
  predicate PathsValid(fold: Fold, paths: seq<string>) {
    && (forall i | 0 <= i < |paths| :: PortablePath(fold, paths[i]))
    && forall i, j | 0 <= i < |paths| && 0 <= j < |paths| && CollisionKey(fold, paths[i]) == CollisionKey(fold,
           paths[j]) ::
         paths[i] == paths[j]
  }

  /** The first spelling of each caseless path decides; repeats are allowed, other spellings are not. */
  method ValidateRepositoryPaths(fold: Fold, paths: seq<string>) returns (ok: bool)
    ensures ok <==> PathsValid(fold, paths)
  {
    hide PortablePath, CollisionKey;
    var firstSpelling: map<Path, string> := map[];
    for i := 0 to |paths|
      invariant PathsValid(fold, paths[..i])
      invariant forall k | k in firstSpelling ::
                  exists j :: 0 <= j < i && paths[j] == firstSpelling[k] && CollisionKey(fold, paths[j]) == k
      invariant forall j | 0 <= j < i ::
                  CollisionKey(fold, paths[j]) in firstSpelling
                    && firstSpelling[CollisionKey(fold, paths[j])] == paths[j]
    {
      assert paths[..i + 1][i] == paths[i] && paths[..i + 1][..i] == paths[..i];
      if !PortablePath(fold, paths[i]) { return false; }
      var key := CollisionKey(fold, paths[i]);
      if key !in firstSpelling { firstSpelling := firstSpelling[key := paths[i]]; }
      if firstSpelling[key] != paths[i] { return false; }
    }
    assert paths[..|paths|] == paths;
    return true;
  }

  // ---------------------------------------------------------------- archive member names

  const MAX_PATH := 512
  const MAX_SEGMENT := 128

  const RESERVED := {"CON", "PRN", "AUX", "NUL",
                     "COM1", "COM2", "COM3", "COM4", "COM5", "COM6", "COM7", "COM8", "COM9",
                     "LPT1", "LPT2", "LPT3", "LPT4", "LPT5", "LPT6", "LPT7", "LPT8", "LPT9"}

  predicate SafeChar(c: char) {
    'A' <= c <= 'Z' || 'a' <= c <= 'z' || '0' <= c <= '9' || c == '.' || c == '_' || c == '-'
  }

  predicate SafeSegment(s: string) {
    && 1 <= |s| <= MAX_SEGMENT && (forall i | 0 <= i < |s| :: SafeChar(s[i]))
    && s[|s| - 1] != '.' && Upper(Stem(s)) !in RESERVED
  }

  /** The name of a file in a package. */
  predicate PackagePath(fold: Fold, text: string) {
    && |text| <= MAX_PATH
    && forall i | 0 <= i < |Segments(text)| :: SafeSegment(Segments(text)[i]) && fold(Segments(text)[i]) !in INTERNAL
  }

  /** The name of a file in a Result: snapshot paths follow the repository rule, all others the package rule. */
  predicate ResultPath(fold: Fold, text: string) {
    var segments := Segments(text);
    if segments[0] in {"base", "untracked"} && |segments| > 1 && segments != [segments[0], ""]
    then AllPortable(fold, segments[1..]) else PackagePath(fold, text)
  }

  // ---------------------------------------------------------------- the rules, name by name

  /** `text` is the device's name, bare or with an extension. */
  predicate NamesDevice(text: string, device: string) { text == device || device + "." <= text }

  lemma StemIsTheDevice(text: string, device: string)
    requires '.' !in device
    ensures Stem(text) == device <==> NamesDevice(text, device)
  {
    var n := IndexOf(text, '.');
    if NamesDevice(text, device) {
      assert device == text[..|device|];
      assert |device| < |text| ==> text[|device|] == (device + ".")[|device|];
      IndexIs(text, '.', |device|);
    }
    if Stem(text) == device && n < |text| { assert text[..n + 1] == device + "."; }
  }

  lemma DevicesHaveNoDot(d: string)
    requires d in DEVICES
    ensures '.' !in d
  {
  }

  lemma StemsOfDevices(text: string)
    ensures Stem(text) in DEVICES <==> exists d :: d in DEVICES && NamesDevice(text, d)
  {
    hide Stem, NamesDevice, DEVICES;
    if d :| d in DEVICES && NamesDevice(text, d) {
      DevicesHaveNoDot(d);
      StemIsTheDevice(text, d);
    }
    if Stem(text) in DEVICES { StemIsTheDevice(text, Stem(text)); }
  }

  /**
   A portable segment: no empty or relative name, no control or reserved character, no trailing dot or space, and
   caselessly neither an internal directory nor a device, with or without an extension.
   */
  lemma PortableSegmentMeans(fold: Fold, s: string)
    ensures PortableSegment(fold, s) <==>
              && s != "" && s != "." && s != ".." && s[|s| - 1] != '.' && s[|s| - 1] != ' '
              && (forall c | c in s ::
                    0x20 <= c as int != 0x7F && c != '<' && c != '>' && c != ':' && c != '"' && c != '\\' && c != '|'
                    && c != '?' && c != '*')
              && fold(s) != ".git" && fold(s) != ".patchharbor"
              && forall d | d in DEVICES :: !NamesDevice(fold(s), d)
  {
    hide Stem, NamesDevice, DEVICES;
    StemsOfDevices(fold(s));
    PortableChars(s);
  }

  lemma PortableChars(s: string)
    ensures (forall i | 0 <= i < |s| :: PortableChar(s[i])) <==>
              forall c | c in s ::
                0x20 <= c as int != 0x7F && c != '<' && c != '>' && c != ':' && c != '"' && c != '\\' && c != '|'
                && c != '?' && c != '*'
  {
    if forall i | 0 <= i < |s| :: PortableChar(s[i]) {
      forall c | c in s ensures PortableChar(c) {
        var i :| 0 <= i < |s| && s[i] == c;
      }
    } else {
      var i :| 0 <= i < |s| && !PortableChar(s[i]);
      assert s[i] in s;
    }
  }

  lemma UpperKeepsTheStem(s: string)
    ensures Stem(Upper(s)) == Upper(Stem(s))
  {
    var n := IndexOf(s, '.');
    IndexIs(Upper(s), '.', n);
    assert Upper(s)[..n] == Upper(s[..n]);
  }

  lemma ReservedHaveNoDot(d: string)
    requires d in RESERVED
    ensures '.' !in d
  {
  }

  lemma StemsOfReserved(text: string)
    ensures Stem(text) in RESERVED <==> exists d :: d in RESERVED && NamesDevice(text, d)
  {
    hide Stem, NamesDevice, RESERVED;
    if d :| d in RESERVED && NamesDevice(text, d) {
      ReservedHaveNoDot(d);
      StemIsTheDevice(text, d);
    }
    if Stem(text) in RESERVED { StemIsTheDevice(text, Stem(text)); }
  }

  /** A safe segment: 1 to 128 letters, digits, dots, underscores and dashes, no trailing dot, and no device name. */
  lemma SafeSegmentMeans(s: string)
    ensures SafeSegment(s) <==>
              && 1 <= |s| <= 128 && s[|s| - 1] != '.' && (forall i | 0 <= i < |s| :: SafeChar(s[i]))
              && forall d | d in RESERVED :: !NamesDevice(Upper(s), d)
  {
    hide Stem, NamesDevice, RESERVED, SafeChar, Upper;
    UpperKeepsTheStem(s);
    StemsOfReserved(Upper(s));
  }

  lemma BelowADirectory(fold: Fold, directory: string, text: string)
    requires directory in {"base", "untracked"}
    ensures ResultPath(fold, directory + "/" + text) <==> PortablePath(fold, text)
  {
    hide Segments, SafeSegment;
    DirectoryInFront(directory, text);
    var whole := Segments(directory + "/" + text);
    assert whole[0] == directory && whole[1..] == Segments(text);
    if whole == [directory, ""] {
      assert Segments(text) == [""] && whole[1] == "";
      SafeSegmentMeans(whole[1]);
      assert !PortableSegment(fold, Segments(text)[0]);
    }
  }

  /** A path whose first of several segments is the directory starts with the directory and a slash. */
  lemma FirstSegment(text: string, directory: string)
    requires '/' !in directory
    ensures directory + "/" <= text <==> |Segments(text)| > 1 && Segments(text)[0] == directory
  {
    var n := IndexOf(text, '/');
    if directory + "/" <= text {
      assert text[..|directory|] == directory && text[|directory|] == '/';
      IndexIs(text, '/', |directory|);
    }
    if n < |text| && text[..n] == directory { assert text[..n + 1] == directory + "/"; }
  }

  lemma OtherPathsArePackagePaths(fold: Fold, text: string)
    requires !("base/" <= text) && !("untracked/" <= text)
    ensures ResultPath(fold, text) <==> PackagePath(fold, text)
  {
    hide Segments, SafeSegment, PortableSegment, PackagePath;
    assert "base/" == "base" + "/" && "untracked/" == "untracked" + "/";
    FirstSegment(text, "base");
    FirstSegment(text, "untracked");
  }

  lemma PackagePathMeans(fold: Fold, text: string)
    ensures PackagePath(fold, text) <==>
              && |text| <= 512 && forall x | x in Segments(text) ::
                   SafeSegment(x) && fold(x) != ".git" && fold(x) != ".patchharbor"
  {
    hide Segments, SafeSegment;
    assert forall i | 0 <= i < |Segments(text)| :: Segments(text)[i] in Segments(text);
  }

  /**
   A Result member below `base/` or `untracked/` needs a portable rest; any other is at most 512 characters long and
   made of safe segments outside the internal directories.
   */
  lemma ResultPathMeans(fold: Fold, text: string)
    ensures ResultPath(fold, "base/" + text) <==> PortablePath(fold, text)
    ensures ResultPath(fold, "untracked/" + text) <==> PortablePath(fold, text)
    ensures !("base/" <= text) && !("untracked/" <= text) ==>
              (ResultPath(fold, text) <==>
                 && |text| <= 512 && forall x | x in Segments(text) ::
                      SafeSegment(x) && fold(x) != ".git" && fold(x) != ".patchharbor")
  {
    hide ResultPath, PackagePath, PortablePath;
    assert "base/" + text == "base" + "/" + text && "untracked/" + text == "untracked" + "/" + text;
    BelowADirectory(fold, "base", text);
    BelowADirectory(fold, "untracked", text);
    PackagePathMeans(fold, text);
    if !("base/" <= text) && !("untracked/" <= text) { OtherPathsArePackagePaths(fold, text); }
  }

  /** A short text of safe characters whose stem has more than four of them is no device name. */
  lemma LongStemIsSafe(s: string)
    requires 5 <= |s| <= MAX_SEGMENT && (forall i | 0 <= i < |s| :: SafeChar(s[i])) && s[|s| - 1] != '.'
    requires forall i | 0 <= i < 5 :: s[i] != '.'
    ensures SafeSegment(s)
  {
    assert |Upper(Stem(s))| >= 5;
  }

  /** Texts of safe characters that start with a letter are never an internal directory. */
  lemma LetterFirstIsNotInternal(fold: Fold, s: string)
    requires FoldsAscii(fold) && s != "" && (forall i | 0 <= i < |s| :: SafeChar(s[i])) && s[0] != '.'
    ensures fold(s) == Lower(s) && fold(s) !in INTERNAL
  {
    assert Ascii(s);
    assert fold(s)[0] != '.';
  }

  /** ASCII names of different length or different first letter never fold alike. */
  lemma DifferentNamesFoldApart(fold: Fold, x: string, y: string)
    requires FoldsAscii(fold) && Ascii(x) && Ascii(y) && x != "" && y != ""
    requires |x| != |y| || LowerChar(x[0]) != LowerChar(y[0])
    ensures fold(x) != fold(y)
  {
    assert |fold(x)| == |x| && |fold(y)| == |y| && fold(x)[0] == LowerChar(x[0]) && fold(y)[0] == LowerChar(y[0]);
  }
}
