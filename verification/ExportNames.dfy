/**
 Names in the export directory: which entries the reconciler may touch, and why an obsolete
 attempt can never name another attempt's archive.
 */
module ExportNames {
  import opened Text

  predicate SafeJobChar(c: char) {
    'A' <= c <= 'Z' || 'a' <= c <= 'z' || '0' <= c <= '9' || c == '_' || c == '-'
  }

  predicate SafeJobId(s: string) { 8 <= |s| <= 160 && forall c <- s :: SafeJobChar(c) }

  predicate SafeDigest(s: string) { |s| == 32 && AllHex(s) }

  /** The final path element equals the name: for a name that ends in ".zip" this says that it
      holds no separator. */
  predicate SinglePathElement(s: string) { '/' !in s }

  function ArtifactName(jobId: string, digest: string): string { jobId + "-" + digest + ".zip" }

  /** Index of the last '-', or -1. */
  method LastDash(s: string) returns (at: int)
    ensures -1 <= at < |s|
    ensures 0 <= at ==> s[at] == '-' && '-' !in s[at + 1..]
    ensures at == -1 ==> '-' !in s
  {
    at := |s| - 1;
    while 0 <= at && s[at] != '-'
      invariant -1 <= at < |s|
      invariant '-' !in s[at + 1..]
    {
      at := at - 1;
    }
  }

  /** The entry is an archive name: some safe job and digest produce exactly it. */
  ghost predicate IsArtifactName(name: string) {
    exists jobId: string, digest: string :: SafeJobId(jobId) && SafeDigest(digest) && name == ArtifactName(jobId, digest)
  }

  lemma InTail(s: string, i: nat, j: nat)
    requires i < j < |s|
    ensures s[j] in s[i + 1..]
  {
    assert s[i + 1..][j - i - 1] == s[j];
  }

  lemma LastDashUnique(s: string, i: nat, j: nat)
    requires i < |s| && j < |s| && s[i] == '-' && s[j] == '-' && '-' !in s[i + 1..] && '-' !in s[j + 1..]
    ensures i == j
  {
    if i < j {
      InTail(s, i, j);
    } else if j < i {
      InTail(s, j, i);
    }
  }

  lemma ArtifactNameParts(jobId: string, digest: string)
    requires SafeDigest(digest)
    ensures var name := ArtifactName(jobId, digest);
            HasSuffix(name, ".zip") && name[..|name| - 4] == jobId + "-" + digest
            && (jobId + "-" + digest)[|jobId|] == '-' && '-' !in (jobId + "-" + digest)[|jobId| + 1..]
  {
    var base := jobId + "-" + digest;
    assert ArtifactName(jobId, digest) == base + ".zip";
    assert base[|jobId| + 1..] == digest;
  }

  lemma SplitAtLastDash(base: string, dash: nat, jobId: string, digest: string)
    requires SafeDigest(digest) && base == jobId + "-" + digest
    requires dash < |base| && base[dash] == '-' && '-' !in base[dash + 1..]
    ensures base[..dash] == jobId && base[dash + 1..] == digest
  {
    ArtifactNameParts(jobId, digest);
    LastDashUnique(base, dash, |jobId|);
  }

  /** The check accepts exactly the names the publisher produces, splitting at the last dash
      although job identifiers may contain dashes themselves. */
  method ValidArtifactName(name: string) returns (ok: bool)
    ensures ok <==> IsArtifactName(name)
  {
    if !HasSuffix(name, ".zip") || !SinglePathElement(name) {
      InsideDirectory(name);
      return false;
    }
    var base := name[..|name| - 4];
    assert name == base + ".zip";
    var dash := LastDash(base);
    if dash < 0 {
      DashNeeded(name);
      return false;
    }
    ok := SafeJobId(base[..dash]) && SafeDigest(base[dash + 1..]);
    assert base == base[..dash] + "-" + base[dash + 1..];
    if ok {
      assert name == ArtifactName(base[..dash], base[dash + 1..]);
    } else {
      forall jobId: string, digest: string | SafeJobId(jobId) && SafeDigest(digest) ensures name != ArtifactName(jobId, digest) {
        if name == ArtifactName(jobId, digest) {
          ArtifactNameParts(jobId, digest);
          SplitAtLastDash(base, dash, jobId, digest);
        }
      }
    }
  }

  lemma InsideDirectory(name: string)
    ensures IsArtifactName(name) ==> HasSuffix(name, ".zip") && SinglePathElement(name)
  {
    if IsArtifactName(name) {
      var jobId: string, digest: string :| SafeJobId(jobId) && SafeDigest(digest) && name == ArtifactName(jobId, digest);
      ArtifactNameParts(jobId, digest);
      assert forall c <- name :: c in jobId || c in digest || c in "-" || c in ".zip";
    }
  }

  lemma DashNeeded(name: string)
    requires HasSuffix(name, ".zip")
    ensures IsArtifactName(name) ==> '-' in name[..|name| - 4]
  {
    if IsArtifactName(name) {
      var jobId: string, digest: string :| SafeJobId(jobId) && SafeDigest(digest) && name == ArtifactName(jobId, digest);
      ArtifactNameParts(jobId, digest);
    }
  }

  /** Two attempts never share an archive name: job and token digest are both recoverable. */
  lemma ArtifactNameInjective(j1: string, d1: string, j2: string, d2: string)
    requires SafeDigest(d1) && SafeDigest(d2) && ArtifactName(j1, d1) == ArtifactName(j2, d2)
    ensures j1 == j2 && d1 == d2
  {
    ArtifactNameParts(j1, d1);
    ArtifactNameParts(j2, d2);
    SplitAtLastDash(j1 + "-" + d1, |j1|, j1, d1);
    SplitAtLastDash(j1 + "-" + d1, |j1|, j2, d2);
  }

  /** A temporary file is never mistaken for an archive. */
  lemma TemporaryIsNoArtifact(name: string)
    requires HasSuffix(name, ".tmp")
    ensures !IsArtifactName(name)
  {
    assert ".tmp"[1] != ".zip"[1];
    InsideDirectory(name);
  }

  /** The identifiers the service draws, a prefix of letters and 32 hexadecimal digits, are safe. */
  lemma DrawnIdsAreSafe(prefix: string, digits: string)
    requires 1 <= |prefix| <= 20 && forall i :: 0 <= i < |prefix| ==> 'a' <= prefix[i] <= 'z'
    requires |digits| == 32 && forall i :: 0 <= i < |digits| ==> '0' <= digits[i] <= '9' || 'a' <= digits[i] <= 'f'
    ensures SafeJobId(prefix + "_" + digits)
  {
    var s := prefix + "_" + digits;
    forall i | 0 <= i < |s| ensures SafeJobChar(s[i]) {
    }
  }

  /** A safe identifier has 8 to 160 characters: letters and digits of ASCII, underscores and dashes;
      nothing that separates directories or stands for one. */
  lemma SafeJobIdIff(s: string)
    ensures SafeJobId(s) <==>
              8 <= |s| <= 160 && forall i :: 0 <= i < |s| ==>
                48 <= s[i] as int <= 57 || 65 <= s[i] as int <= 90 || 97 <= s[i] as int <= 122 || s[i] == '_' || s[i] == '-'
  {
    if SafeJobId(s) {
      forall i | 0 <= i < |s| ensures SafeJobChar(s[i]) {
        assert s[i] in s;
      }
    }
  }
}
