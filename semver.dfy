/** The semantic-versioning library the chart lookups rely on (blang/semver):
  * the parsed version record, and parsing, rendering, ranges and precedence
  * as functions the caller supplies. */
module Semver {
  import opened Wrappers

  /** A parsed version: the fields the selection rules read. */
  datatype Version = Version(major: nat, minor: nat, patch: nat, pre: seq<string>, build: seq<string>)

  /** `len(v.Pre) > 0` */
  predicate IsPreRelease(v: Version)
  {
    |v.pre| > 0
  }

  /** The library's entry points. `parseTolerant` accepts a leading "v" and
    * missing minor or patch numbers, `parse` is the strict parser, `render`
    * is `Version.String`, `parseRange` yields the range as a predicate,
    * `sort` is `semver.Sort` and `leq` is precedence order. */
  datatype Lib = Lib(
    parseTolerant: string -> Result<Version>,
    parse: string -> Result<Version>,
    render: Version -> string,
    parseRange: string -> Result<Version -> bool>,
    sort: seq<Version> -> seq<Version>,
    leq: (Version, Version) -> bool)

  predicate Ascending(lib: Lib, vs: seq<Version>)
  {
    forall i, j :: 0 <= i < j < |vs| ==> lib.leq(vs[i], vs[j])
  }

  /** What the code relies on `semver.Sort` for: the same versions, in
    * ascending precedence. */
  predicate SortsCorrectly(lib: Lib, vs: seq<Version>)
  {
    multiset(lib.sort(vs)) == multiset(vs) && Ascending(lib, lib.sort(vs))
  }
}
