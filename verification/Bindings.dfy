/** Values that name a repository state: commits, manifest bindings, captured contexts. */
module Bindings {
  import opened Prelude

  datatype ObjectFormat = Sha1 | Sha256 {
    function HexLength(): nat { if Sha1? then 40 else 64 }
  }

  datatype CommitId = CommitId(hex: string, format: ObjectFormat)

  /** The manifest fields that bind one package to one repository state. */
  datatype Selection = Selection(repoId: string, baseCommit: CommitId, fingerprint: string, algorithm: string)

  /** One captured description of a registered repository. */
  datatype Context = Context(
    repoId: string, repositoryPath: string, baseCommit: CommitId, dirty: bool,
    fingerprint: string, algorithm: string)

  datatype Kind = Other | PatchPackage | ResultBundle

  datatype TreeEntry = TreeEntry(path: string, mode: string, blob: string)

  /** What a Result says about the Apply run that produced it. */
  datatype Receipt = Receipt(patchSha: string, runId: string, expected: Selection, completedCommit: CommitId)

  /** Validated manifest binding of one bundle; only Results carry an inventory or a receipt. */
  datatype Evidence = Evidence(
    kind: Kind, selection: Selection, baseEntries: seq<TreeEntry>, receipt: Option<Receipt>)

  predicate IsLowerHexDigit(c: char) { '0' <= c <= '9' || 'a' <= c <= 'f' }

  predicate IsLowerHex(s: string, length: nat) {
    |s| == length && forall i | 0 <= i < |s| :: IsLowerHexDigit(s[i])
  }

  predicate IsSha256(s: string) { IsLowerHex(s, 64) }

  predicate IsDash(i: nat) { i == 8 || i == 13 || i == 18 || i == 23 }

  /** The canonical text of a version-4 UUID. */
  predicate IsCanonicalUuid4(s: string) {
    && |s| == 36
    && (forall i: nat | i < 36 :: if IsDash(i) then s[i] == '-' else IsLowerHexDigit(s[i]))
    && s[14] == '4'
    && s[19] in {'8', '9', 'a', 'b'}
  }

  predicate ValidCommit(c: CommitId) { IsLowerHex(c.hex, c.format.HexLength()) }

  const FINGERPRINT_ALGORITHM := "patchharbor-state-v1"

  predicate ValidSelection(s: Selection) {
    && IsCanonicalUuid4(s.repoId)
    && ValidCommit(s.baseCommit)
    && IsLowerHex(s.fingerprint, 16)
    && s.algorithm == FINGERPRINT_ALGORITHM
  }

  predicate MatchesContext(s: Selection, c: Context) {
    && s.repoId == c.repoId && s.baseCommit == c.baseCommit
    && s.fingerprint == c.fingerprint && s.algorithm == c.algorithm
  }
}
