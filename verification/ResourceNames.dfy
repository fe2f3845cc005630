/**
 Release revisions and versioned resource names: every name of a revision is a DNS label of at most
 63 characters (RFC 1123 section 2.1, RFC 1035 section 2.3.4) that ends in the revision.
 */
module ResourceNames {
  import opened Common

  datatype Error = ReleaseInvalid | NameInvalid

  predicate Hex(ch: char) {
    '0' <= ch <= '9' || 'a' <= ch <= 'f'
  }

  predicate AllHex(s: string) {
    forall i | 0 <= i < |s| :: Hex(s[i])
  }

  /** A release id, split at its last colon into the algorithm and the git digest. */
  datatype ReleaseId = ReleaseId(algorithm: string, digest: string)

  predicate ValidReleaseId(r: ReleaseId) {
    && AllHex(r.digest)
    && ((r.algorithm == "git:sha1" && |r.digest| == 40) || (r.algorithm == "git:sha256" && |r.digest| == 64))
  }

  predicate ValidDigest(s: string) {
    |s| == 64 && AllHex(s)
  }

  function ReleaseRevision(release: ReleaseId, digest: string): Result<string, Error> {
    if !ValidReleaseId(release) || !ValidDigest(digest) then Err(ReleaseInvalid)
    else Ok("r-" + release.digest[..12] + "-" + digest[..8])
  }

  predicate Alphanumeric(ch: char) {
    'a' <= ch <= 'z' || '0' <= ch <= '9'
  }

  predicate DnsLabel(s: string) {
    && 1 <= |s| <= 63
    && Alphanumeric(s[0]) && Alphanumeric(s[|s| - 1])
    && forall i | 0 <= i < |s| :: Alphanumeric(s[i]) || s[i] == '-'
  }

  /** `rstrip("-")` */
  function StripDashes(s: string): (t: string)
    ensures t <= s
    ensures t == "" || t[|t| - 1] != '-'
    ensures forall i | |t| <= i < |s| :: s[i] == '-'
  {
    if s == "" || s[|s| - 1] != '-' then s else StripDashes(s[..|s| - 1])
  }

  function Base(name: string, revision: string): string
    requires |revision| < 62
  {
    StripDashes(if |name| <= 62 - |revision| then name else name[..62 - |revision|])
  }

  function VersionedName(name: string, revision: string): Result<string, Error>
    requires |revision| < 62
  {
    if !DnsLabel(name) then Err(NameInvalid)
    else
      var base := Base(name, revision);
      var value := base + "-" + revision;
      if base == "" || !DnsLabel(value) then Err(NameInvalid) else Ok(value)
  }

  // ---------- revisions ----------

  /** The form of every revision: 23 characters that may end a DNS label. */
  predicate Revision(s: string) {
    && |s| == 23 && Alphanumeric(s[0]) && Alphanumeric(s[22])
    && forall i | 0 <= i < |s| :: Alphanumeric(s[i]) || s[i] == '-'
  }

  /** Two releases have the same revision exactly when the first 12 digits of their git digests and the
      first 8 of their release digests agree. */
  lemma RevisionsAgree(a: ReleaseId, d: string, b: ReleaseId, e: string)
    requires ReleaseRevision(a, d).Ok? && ReleaseRevision(b, e).Ok?
    ensures Revision(ReleaseRevision(a, d).value)
    ensures ReleaseRevision(a, d) == ReleaseRevision(b, e) <==> a.digest[..12] == b.digest[..12] && d[..8] == e[..8]
  {
    var r, s := ReleaseRevision(a, d).value, ReleaseRevision(b, e).value;
    assert r[2..14] == a.digest[..12] && s[2..14] == b.digest[..12];
    assert r[15..] == d[..8] && s[15..] == e[..8];
    forall i | 0 <= i < |r|
      ensures Alphanumeric(r[i]) || r[i] == '-'
    {
      if 2 <= i < 14 {
        assert r[i] == a.digest[i - 2];
      } else if i >= 15 {
        assert r[i] == d[i - 15];
      }
    }
    assert r[22] == d[7];
  }

  // ---------- names ----------

  lemma BaseOfLabel(name: string, revision: string)
    requires DnsLabel(name) && Revision(revision)
    ensures var base := Base(name, revision);
      && 1 <= |base| <= 39 && Alphanumeric(base[0]) && forall i | 0 <= i < |base| :: base[i] == name[i]
  {
    var base := Base(name, revision);
    var cut := if |name| <= 39 then name else name[..39];
    assert cut[0] == name[0] != '-';
    if base == "" {
      assert false;
    }
  }

  /** Versioning succeeds exactly on DNS labels, and the new name is a DNS label that ends in the
      revision and begins like the old one. */
  lemma VersionedIsLabel(name: string, revision: string)
    requires Revision(revision)
    ensures VersionedName(name, revision).Ok? <==> DnsLabel(name)
    ensures VersionedName(name, revision).Ok? ==> var value := VersionedName(name, revision).value;
      DnsLabel(value) && value == Base(name, revision) + "-" + revision
  {
    if DnsLabel(name) {
      BaseOfLabel(name, revision);
      var base := Base(name, revision);
      var value := base + "-" + revision;
      forall i | 0 <= i < |value|
        ensures Alphanumeric(value[i]) || value[i] == '-'
      {
        if i < |base| {
          assert value[i] == name[i];
        } else if i > |base| {
          assert value[i] == revision[i - |base| - 1];
        }
      }
      assert value[0] == base[0] && value[|value| - 1] == revision[22];
    }
  }

  /** Names of different revisions never coincide, whatever they were versions of. */
  lemma RevisionsSeparateNames(a: string, r: string, b: string, s: string)
    requires Revision(r) && Revision(s) && r != s
    requires VersionedName(a, r).Ok? && VersionedName(b, s).Ok?
    ensures VersionedName(a, r) != VersionedName(b, s)
  {
    var x, y := VersionedName(a, r).value, VersionedName(b, s).value;
    assert x[|x| - 23..] == r && y[|y| - 23..] == s;
  }

  /** Names of up to 39 characters never collide; longer ones collide exactly when they agree up to
      trailing dashes on their first 39. */
  lemma CollisionIff(a: string, b: string, revision: string)
    requires Revision(revision) && DnsLabel(a) && DnsLabel(b)
    ensures VersionedName(a, revision) == VersionedName(b, revision) <==> Base(a, revision) == Base(b, revision)
    ensures |a| <= 39 && |b| <= 39 && a != b ==> VersionedName(a, revision) != VersionedName(b, revision)
  {
    VersionedIsLabel(a, revision);
    VersionedIsLabel(b, revision);
    var x, y := Base(a, revision), Base(b, revision);
    assert (x + "-" + revision)[..|x|] == x && (y + "-" + revision)[..|y|] == y;
    if |a| <= 39 && |b| <= 39 {
      assert x == a && y == b;
    }
  }
}
