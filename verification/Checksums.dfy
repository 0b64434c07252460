/** What an announced checksum means: "<algorithm> <digest>" of the received bytes, for three algorithms. */
module Checksums {
  import opened Base
  import opened Lifecycle
  import opened Scalars
  import opened Text

  /** The names clients announce the algorithms by. */
  predicate Names(name: string, alg: Algorithm) {
    || (name == "sha1" && alg == Sha1)
    || (name == "md5" && alg == Md5)
    || (name == "adler32" && alg == Adler32)
  }

  /** Nothing was announced, or the digest of the body under one of the algorithms. */
  predicate Matches(cfg: Config, announced: string, body: Bytes) {
    || announced == ""
    || announced == "sha1" + " " + cfg.digest(Sha1, body)
    || announced == "md5" + " " + cfg.digest(Md5, body)
    || announced == "adler32" + " " + cfg.digest(Adler32, body)
  }

  /** An announced digest is accepted exactly when it is the digest of the body, and is a mismatch otherwise. */
  lemma AnnouncedDigest(cfg: Config, name: string, alg: Algorithm, digest: string, body: Bytes)
    requires Names(name, alg)
    ensures ChecksumError(cfg, name + " " + digest, body) == if digest == cfg.digest(alg, body) then None else Some(ChecksumMismatch)
  {
    assert ' ' !in name;
    SplitN2Join(name, ' ', digest);
  }

  /** Any other text is a bad request. */
  lemma AnnouncedNonsense(cfg: Config, announced: string, body: Bytes)
    requires announced != ""
    requires forall name, alg, digest :: Names(name, alg) ==> announced != name + " " + digest
    ensures ChecksumError(cfg, announced, body) == Some(BadRequest)
  {
    var parts := SplitN2(announced, ' ');
    assert parts.tail.Some? ==> announced == parts.head + " " + parts.tail.value;
    assert AlgorithmOf(parts.head).Some? ==> Names(parts.head, AlgorithmOf(parts.head).value);
  }

  lemma MatchingIsAccepted(cfg: Config, announced: string, body: Bytes)
    requires Matches(cfg, announced, body)
    ensures ChecksumError(cfg, announced, body).None?
  {
    AnnouncedDigest(cfg, "sha1", Sha1, cfg.digest(Sha1, body), body);
    AnnouncedDigest(cfg, "md5", Md5, cfg.digest(Md5, body), body);
    AnnouncedDigest(cfg, "adler32", Adler32, cfg.digest(Adler32, body), body);
  }

  lemma AcceptedIsMatching(cfg: Config, announced: string, body: Bytes)
    requires ChecksumError(cfg, announced, body).None?
    ensures Matches(cfg, announced, body)
  {
    var parts := SplitN2(announced, ' ');
    assert parts.tail.Some? ==> announced == parts.head + " " + parts.tail.value;
  }

  /** So a body passes exactly when it matches what was announced. */
  lemma AcceptedExactlyWhen(cfg: Config, announced: string, body: Bytes)
    ensures ChecksumError(cfg, announced, body).None? <==> Matches(cfg, announced, body)
  {
    if Matches(cfg, announced, body) {
      MatchingIsAccepted(cfg, announced, body);
    } else if ChecksumError(cfg, announced, body).None? {
      AcceptedIsMatching(cfg, announced, body);
    }
  }

  /** What can be refused before the driver is called, spelled out. */
  lemma RefusedExactlyWhen(cfg: Config, info: Info, body: Bytes, a: Answers)
    ensures
      RefusalOf(cfg, info, body, a).None? <==>
      && a.readable && Matches(cfg, info.checksum, body)
      && (info.mtime == "" || MTimeToTime(info.mtime).ok) && !info.sinceMalformed
    ensures !a.readable ==> RefusalOf(cfg, info, body, a) == Some(Other(0))
    ensures a.readable && !Matches(cfg, info.checksum, body) ==>
      RefusalOf(cfg, info, body, a) == ChecksumError(cfg, info.checksum, body)
    ensures a.readable && Matches(cfg, info.checksum, body) && RefusalOf(cfg, info, body, a).Some? ==>
      RefusalOf(cfg, info, body, a) == Some(BadRequest)
  {
    AcceptedExactlyWhen(cfg, info.checksum, body);
  }
}
