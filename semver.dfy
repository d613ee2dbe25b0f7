/**
 * Already-parsed semantic versions and the tilde requirement `~X.Y.Z`
 * (Cargo's semver: at least X.Y.Z and below X.(Y+1).0).
 * Pre-release and build metadata are not modelled.
 */
module Semver {
  datatype Version = Version(major: nat, minor: nat, patch: nat)

  /** Precedence order of versions: `a` sorts strictly before `b`. */
  predicate Before(a: Version, b: Version) {
    a.major < b.major
    || (a.major == b.major && a.minor < b.minor)
    || (a.major == b.major && a.minor == b.minor && a.patch < b.patch)
  }

  /** Whether `v` satisfies `~req`. The contract is the range the requirement
      stands for; the body is the comparison the matcher performs. */
  function TildeMatches(req: Version, v: Version): (r: bool)
    ensures r <==> !Before(v, req) && Before(v, Version(req.major, req.minor + 1, 0))
  {
    v.major == req.major && v.minor == req.minor && v.patch >= req.patch
  }

  /** A version always satisfies its own tilde requirement, and a version with
      another major or minor number never does. */
  lemma TildeNeedsSameMinor(req: Version, v: Version)
    ensures TildeMatches(req, req)
    ensures (v.major != req.major || v.minor != req.minor) ==> !TildeMatches(req, v)
  {
  }
}
