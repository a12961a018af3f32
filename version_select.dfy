/** The version-selection loops shared by pkg/helm/chart.go and
  * pkg/helm/chart_version.go: parse the candidates, drop pre-releases, keep
  * those a predicate accepts, and render them (with an optional "v"). */
module VersionSelect {
  import opened Wrappers
  import opened Semver

  /** The candidates that parse (tolerantly), in order; the others are skipped. */
  function Parsed(lib: Lib, tags: seq<string>): seq<Version>
    decreases |tags|
  {
    if tags == [] then []
    else
      var rest := Parsed(lib, tags[..|tags| - 1]);
      var p := lib.parseTolerant(tags[|tags| - 1]);
      if p.Ok? then rest + [p.value] else rest
  }

  /** `v.String()`, with "v" in front when the requested version had one. */
  function Label(lib: Lib, v: Version, prefixV: bool): string
  {
    if prefixV then "v" + lib.render(v) else lib.render(v)
  }

  /** A version the filter keeps: a release the predicate accepts. */
  predicate Kept(accept: Version -> bool, v: Version)
  {
    !IsPreRelease(v) && accept(v)
  }

  /** The kept versions, rendered, in input order. */
  function InRange(lib: Lib, accept: Version -> bool, prefixV: bool, vs: seq<Version>): seq<string>
    decreases |vs|
  {
    if vs == [] then []
    else
      var rest := InRange(lib, accept, prefixV, vs[..|vs| - 1]);
      var v := vs[|vs| - 1];
      if Kept(accept, v) then rest + [Label(lib, v, prefixV)] else rest
  }

  /** The first kept version, if any. */
  function FirstAccepted(accept: Version -> bool, vs: seq<Version>): Option<Version>
  {
    if vs == [] then None
    else if Kept(accept, vs[0]) then Some(vs[0])
    else FirstAccepted(accept, vs[1..])
  }

  /** `LatestVersion` over index entries: the first entry that is not strict
    * semver (verbatim) or is a release (rendered); "Not Found" when every
    * entry is a pre-release. */
  function Latest(lib: Lib, versions: seq<string>): string
  {
    if versions == [] then "Not Found"
    else
      var sv := lib.parse(versions[0]);
      if sv.Err? then versions[0]
      else if !IsPreRelease(sv.value) then lib.render(sv.value)
      else Latest(lib, versions[1..])
  }

  /** An entry at which the `LatestVersion` loop breaks. */
  predicate Stops(lib: Lib, v: string)
  {
    lib.parse(v).Err? || !IsPreRelease(lib.parse(v).value)
  }

  /** What the loop yields at a stopping entry. */
  function StopText(lib: Lib, v: string): string
  {
    if lib.parse(v).Err? then v else lib.render(lib.parse(v).value)
  }

  // ---------------------------------------------------------------------
  // The loops
  // ---------------------------------------------------------------------

  /** The tag callback: `ParseTolerant` each tag, skip the ones that fail. */
  method ParseTags(lib: Lib, tags: seq<string>) returns (vs: seq<Version>)
    ensures vs == Parsed(lib, tags)
  {
    vs := [];
    for i := 0 to |tags|
      invariant vs == Parsed(lib, tags[..i])
    {
      assert tags[..i + 1][..i] == tags[..i];
      var s := lib.parseTolerant(tags[i]);
      if s.Err? {
        continue;
      }
      vs := vs + [s.value];
    }
    assert tags[..|tags|] == tags;
  }

  /** The loop over sorted versions: skip pre-releases, keep accepted ones. */
  method FilterVersions(lib: Lib, accept: Version -> bool, prefixV: bool, vs: seq<Version>)
    returns (res: seq<string>)
    ensures res == InRange(lib, accept, prefixV, vs)
  {
    res := [];
    for i := 0 to |vs|
      invariant res == InRange(lib, accept, prefixV, vs[..i])
    {
      assert vs[..i + 1][..i] == vs[..i];
      var v := vs[i];
      if IsPreRelease(v) {
        continue;
      }
      if accept(v) {
        var s := lib.render(v);
        if prefixV {
          s := "v" + s;
        }
        res := res + [s];
      }
    }
    assert vs[..|vs|] == vs;
  }

  /** The loop over index entries: parse, skip failures and pre-releases,
    * keep accepted ones. */
  method FilterIndex(lib: Lib, accept: Version -> bool, prefixV: bool, versions: seq<string>)
    returns (res: seq<string>)
    ensures res == InRange(lib, accept, prefixV, Parsed(lib, versions))
  {
    res := [];
    for i := 0 to |versions|
      invariant res == InRange(lib, accept, prefixV, Parsed(lib, versions[..i]))
    {
      assert versions[..i + 1][..i] == versions[..i];
      var sv := lib.parseTolerant(versions[i]);
      if sv.Err? {
        continue;
      }
      var p := Parsed(lib, versions[..i]);
      assert Parsed(lib, versions[..i + 1]) == p + [sv.value];
      assert (p + [sv.value])[..|p|] == p;
      if IsPreRelease(sv.value) {
        continue;
      }
      if accept(sv.value) {
        var s := lib.render(sv.value);
        if prefixV {
          s := "v" + s;
        }
        res := res + [s];
      }
    }
    assert versions[..|versions|] == versions;
  }

  /** The early-return loop over sorted versions. */
  method FirstTag(accept: Version -> bool, vs: seq<Version>) returns (found: Option<Version>)
    ensures found == FirstAccepted(accept, vs)
  {
    for i := 0 to |vs|
      invariant FirstAccepted(accept, vs) == FirstAccepted(accept, vs[i..])
    {
      assert vs[i..][1..] == vs[i + 1..];
      if IsPreRelease(vs[i]) {
        continue;
      }
      if accept(vs[i]) {
        return Some(vs[i]);
      }
    }
    return None;
  }

  /** The early-return loop over index entries. */
  method FirstInIndex(lib: Lib, accept: Version -> bool, versions: seq<string>)
    returns (found: Option<Version>)
    ensures found == FirstAccepted(accept, Parsed(lib, versions))
  {
    for i := 0 to |versions|
      invariant FirstAccepted(accept, Parsed(lib, versions)) == FirstAccepted(accept, Parsed(lib, versions[i..]))
    {
      assert versions[i..] == [versions[i]] + versions[i + 1..];
      ParsedAppend(lib, [versions[i]], versions[i + 1..]);
      assert [versions[i]][..0] == [];
      var rest := Parsed(lib, versions[i + 1..]);
      var sv := lib.parseTolerant(versions[i]);
      if sv.Err? {
        assert Parsed(lib, versions[i..]) == rest;
        continue;
      }
      assert Parsed(lib, versions[i..]) == [sv.value] + rest;
      assert ([sv.value] + rest)[1..] == rest;
      if IsPreRelease(sv.value) {
        continue;
      }
      if accept(sv.value) {
        return Some(sv.value);
      }
    }
    return None;
  }

  /** The `LatestVersion` loop: `res` starts as "Not Found" and the loop
    * breaks at the first entry that is not strict semver or is a release. */
  method LatestInIndex(lib: Lib, versions: seq<string>) returns (res: string)
    ensures res == Latest(lib, versions)
  {
    res := "Not Found";
    var i := 0;
    while i < |versions|
      invariant 0 <= i <= |versions|
      invariant Latest(lib, versions) == Latest(lib, versions[i..])
    {
      assert versions[i..][1..] == versions[i + 1..];
      var sv := lib.parse(versions[i]);
      if sv.Err? {
        res := versions[i];
        break;
      }
      if !IsPreRelease(sv.value) {
        res := lib.render(sv.value);
        break;
      }
      i := i + 1;
    }
  }

  // ---------------------------------------------------------------------
  // Properties
  // ---------------------------------------------------------------------

  /** Parsing distributes over concatenation: input order is kept. */
  lemma {:induction false} ParsedAppend(lib: Lib, a: seq<string>, b: seq<string>)
    ensures Parsed(lib, a + b) == Parsed(lib, a) + Parsed(lib, b)
    decreases |b|
  {
    if b == [] {
      assert a + b == a;
    } else {
      var b' := b[..|b| - 1];
      assert (a + b)[..|a + b| - 1] == a + b';
      ParsedAppend(lib, a, b');
    }
  }

  /** Filtering distributes over concatenation: the kept versions stay in
    * input order. */
  lemma {:induction false} InRangeAppend(lib: Lib, accept: Version -> bool, prefixV: bool, a: seq<Version>, b: seq<Version>)
    ensures InRange(lib, accept, prefixV, a + b) == InRange(lib, accept, prefixV, a) + InRange(lib, accept, prefixV, b)
    decreases |b|
  {
    if b == [] {
      assert a + b == a;
    } else {
      var b' := b[..|b| - 1];
      assert (a + b)[..|a + b| - 1] == a + b';
      InRangeAppend(lib, accept, prefixV, a, b');
    }
  }

  /** A version is among the parsed ones iff some candidate parses to it. */
  lemma {:induction false} ParsedMembers(lib: Lib, tags: seq<string>, v: Version)
    ensures v in Parsed(lib, tags) <==> exists j :: 0 <= j < |tags| && lib.parseTolerant(tags[j]) == Ok(v)
    decreases |tags|
  {
    if tags != [] {
      var t' := tags[..|tags| - 1];
      ParsedMembers(lib, t', v);
      if exists j :: 0 <= j < |t'| && lib.parseTolerant(t'[j]) == Ok(v) {
        var j :| 0 <= j < |t'| && lib.parseTolerant(t'[j]) == Ok(v);
        assert tags[j] == t'[j];
      }
      if exists j :: 0 <= j < |tags| && lib.parseTolerant(tags[j]) == Ok(v) {
        var j :| 0 <= j < |tags| && lib.parseTolerant(tags[j]) == Ok(v);
        if j < |t'| {
          assert t'[j] == tags[j];
        }
      }
    }
  }

  /** A text is in the filter's output iff it is the label of some kept
    * version. */
  lemma {:induction false} InRangeMembers(lib: Lib, accept: Version -> bool, prefixV: bool, vs: seq<Version>, s: string)
    ensures s in InRange(lib, accept, prefixV, vs) <==>
              exists j :: 0 <= j < |vs| && Kept(accept, vs[j]) && s == Label(lib, vs[j], prefixV)
    decreases |vs|
  {
    if vs != [] {
      var v' := vs[..|vs| - 1];
      InRangeMembers(lib, accept, prefixV, v', s);
      if exists j :: 0 <= j < |v'| && Kept(accept, v'[j]) && s == Label(lib, v'[j], prefixV) {
        var j :| 0 <= j < |v'| && Kept(accept, v'[j]) && s == Label(lib, v'[j], prefixV);
        assert vs[j] == v'[j];
      }
      if exists j :: 0 <= j < |vs| && Kept(accept, vs[j]) && s == Label(lib, vs[j], prefixV) {
        var j :| 0 <= j < |vs| && Kept(accept, vs[j]) && s == Label(lib, vs[j], prefixV);
        if j < |v'| {
          assert v'[j] == vs[j];
        }
      }
    }
  }

  /** The "v" prefix changes each entry and nothing else: same length, and
    * each prefixed entry is "v" before the unprefixed one. */
  lemma {:induction false} InRangePrefix(lib: Lib, accept: Version -> bool, vs: seq<Version>)
    ensures |InRange(lib, accept, true, vs)| == |InRange(lib, accept, false, vs)|
    ensures forall k :: 0 <= k < |InRange(lib, accept, true, vs)| ==>
              InRange(lib, accept, true, vs)[k] == "v" + InRange(lib, accept, false, vs)[k]
    decreases |vs|
  {
    if vs != [] {
      InRangePrefix(lib, accept, vs[..|vs| - 1]);
    }
  }

  /** The early-return search finds exactly the head of the filter's output:
    * nothing iff the filter keeps nothing, else the first kept version. */
  lemma {:induction false} FirstAcceptedHeadsInRange(lib: Lib, accept: Version -> bool, vs: seq<Version>)
    ensures FirstAccepted(accept, vs).None? <==> InRange(lib, accept, false, vs) == []
    ensures FirstAccepted(accept, vs).Some? ==>
              lib.render(FirstAccepted(accept, vs).value) == InRange(lib, accept, false, vs)[0]
  {
    if vs != [] {
      assert vs == [vs[0]] + vs[1..];
      InRangeAppend(lib, accept, false, [vs[0]], vs[1..]);
      assert [vs[0]][..0] == [];
      FirstAcceptedHeadsInRange(lib, accept, vs[1..]);
    }
  }

  /** When every entry is a strict-semver pre-release, `LatestVersion` yields
    * "Not Found". */
  lemma {:induction false} LatestNoneStops(lib: Lib, versions: seq<string>)
    requires forall k :: 0 <= k < |versions| ==> !Stops(lib, versions[k])
    ensures Latest(lib, versions) == "Not Found"
  {
    if versions != [] {
      LatestNoneStops(lib, versions[1..]);
    }
  }

  /** Otherwise it yields the first stopping entry: verbatim when it is not
    * strict semver, rendered when it is a release. */
  lemma {:induction false} LatestFirstStop(lib: Lib, versions: seq<string>, j: nat)
    requires j < |versions| && Stops(lib, versions[j])
    requires forall k :: 0 <= k < j ==> !Stops(lib, versions[k])
    ensures Latest(lib, versions) == StopText(lib, versions[j])
  {
    if j > 0 {
      LatestFirstStop(lib, versions[1..], j - 1);
    }
  }

  /** With a sort that does what the code relies on, the last sorted version
    * is at least every parsed tag. */
  lemma LastSortedIsGreatest(lib: Lib, vs: seq<Version>)
    requires SortsCorrectly(lib, vs) && |lib.sort(vs)| > 0
    ensures lib.sort(vs)[|lib.sort(vs)| - 1] in vs
    ensures forall w :: w in vs ==> lib.leq(w, lib.sort(vs)[|lib.sort(vs)| - 1]) || w == lib.sort(vs)[|lib.sort(vs)| - 1]
  {
    var s := lib.sort(vs);
    var n := |s| - 1;
    assert s[n] in multiset(s);
    forall w | w in vs
      ensures lib.leq(w, s[n]) || w == s[n]
    {
      assert w in multiset(vs);
      assert w in multiset(s);
      var i :| 0 <= i < |s| && s[i] == w;
      if i < n {
        assert lib.leq(s[i], s[n]);
      }
    }
  }
}
