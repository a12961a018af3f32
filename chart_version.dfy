/** pkg/helm/chart_version.go: the version lookups of the later revision,
  * where the chart carries its own registry client and index loader, and a
  * Helm repository is added (and the repositories updated) before its index is
  * read. Adding the repository and updating are given as their outcomes. */
module ChartVersion {
  import opened Wrappers
  import opened Strs
  import opened Semver
  import opened VersionSelect
  import opened Charts

  /** The outcome of `addToHelmRepositoryFile` (whether the file gained the
    * repository) and of `updateRepositories` (its error, if any). */
  datatype RepoSetup = RepoSetup(added: Result<bool>, updated: Option<string>)

  /** The error, if any, of getting the repository ready before its index is
    * read: updating runs only when the repository was just added. */
  function SetupError(setup: RepoSetup): Option<string>
  {
    if setup.added.Err? then Some(setup.added.error)
    else if setup.added.value && setup.updated.Some? then setup.updated
    else None
  }

  // ---------------------------------------------------------------------
  // VersionsInRange (chart_version.go:18-46)
  // ---------------------------------------------------------------------

  /** The index entries in index order, dropping those that do not parse and
    * pre-releases, keeping those in range, with the "v" rule. */
  function VersionsInRangeOf(lib: Lib, env: Env, r: Version -> bool, c: Chart): Result<seq<string>>
  {
    var index := env.loadIndex(IndexPath(env, c));
    if index.Err? then Err(index.error)
    else Ok(InRange(lib, r, WantsV(c), Parsed(lib, Entries(index.value, c.name))))
  }

  method VersionsInRange(lib: Lib, env: Env, r: Version -> bool, c: Chart) returns (res: Result<seq<string>>)
    ensures res == VersionsInRangeOf(lib, env, r, c)
  {
    var prefixV := Contains(c.version, "v");
    var index := env.loadIndex(IndexPath(env, c));
    if index.Err? {
      return Err(index.error);
    }
    var kept := FilterIndex(lib, r, prefixV, Entries(index.value, c.name));
    return Ok(kept);
  }

  /** An index listing the same versions in another order lists the results
    * in that order too: results follow the index, split at any point. */
  lemma VersionsInRangeFollowsIndex(lib: Lib, r: Version -> bool, prefixV: bool, before: seq<string>, after: seq<string>)
    ensures InRange(lib, r, prefixV, Parsed(lib, before + after))
         == InRange(lib, r, prefixV, Parsed(lib, before)) + InRange(lib, r, prefixV, Parsed(lib, after))
  {
    ParsedAppend(lib, before, after);
    InRangeAppend(lib, r, prefixV, Parsed(lib, before), Parsed(lib, after));
  }

  /** The case the code's test pins down: entries 1.1.0 then 1.0.0 (the index
    * sorted newest first), both releases in range, give both in that order. */
  lemma VersionsInRangeTwoReleases(lib: Lib, r: Version -> bool, newer: string, older: string, a: Version, b: Version)
    requires lib.parseTolerant(newer) == Ok(a) && lib.parseTolerant(older) == Ok(b)
    requires Kept(r, a) && Kept(r, b)
    ensures InRange(lib, r, false, Parsed(lib, [newer, older])) == [lib.render(a), lib.render(b)]
  {
    var none: seq<string> := [];
    assert [newer, older][..1] == [newer];
    assert [newer][..0] == none;
    assert Parsed(lib, [newer]) == Parsed(lib, none) + [a] == [a];
    assert Parsed(lib, [newer, older]) == [a, b];
    var no: seq<Version> := [];
    assert [a, b][..1] == [a];
    assert [a][..0] == no;
    assert InRange(lib, r, false, [a]) == InRange(lib, r, false, no) + [lib.render(a)] == [lib.render(a)];
  }

  // ---------------------------------------------------------------------
  // ResolveVersions (chart_version.go:48-76)
  // ---------------------------------------------------------------------

  /** `ResolveVersions`: every "v" is removed and the range parsed; an OCI
    * registry's tags come back as listed, unfiltered; a Helm repository is
    * set up and then filtered by `VersionsInRange`. */
  function ResolvedVersions(lib: Lib, env: Env, c: Chart, setup: RepoSetup): Result<seq<string>>
  {
    var r := lib.parseRange(ReplaceChar(c.version, 'v', ""));
    if r.Err? then Err(r.error)
    else if IsOci(c) then env.tags(OciRef(c))
    else if SetupError(setup).Some? then Err(SetupError(setup).value)
    else VersionsInRangeOf(lib, env, r.value, c)
  }

  method ResolveVersions(lib: Lib, env: Env, c: Chart, setup: RepoSetup) returns (res: Result<seq<string>>)
    ensures res == ResolvedVersions(lib, env, c, setup)
  {
    var version := ReplaceChar(c.version, 'v', "");
    var r := lib.parseRange(version);
    if r.Err? {
      return Err(r.error);
    }
    if HasPrefix(c.repo.url, "oci://") {
      var tags := env.tags(OciRef(c));
      if tags.Err? {
        return Err(tags.error);
      }
      return Ok(tags.value);
    }
    var update := setup.added;
    if update.Err? {
      return Err(update.error);
    }
    if update.value {
      if setup.updated.Some? {
        return Err(setup.updated.value);
      }
    }
    res := VersionsInRange(lib, env, r.value, c);
  }

  /** For OCI the tags are not filtered at all: whatever the range, every tag
    * is returned, in the registry's order. */
  lemma OciVersionsUnfiltered(lib: Lib, env: Env, c: Chart, setup: RepoSetup)
    requires IsOci(c) && lib.parseRange(ReplaceChar(c.version, 'v', "")).Ok?
    ensures ResolvedVersions(lib, env, c, setup) == env.tags(OciRef(c))
  {
  }

  /** The range is read with no "v" left in it. */
  lemma RangeTextHasNoV(version: string)
    ensures !Contains(ReplaceChar(version, 'v', ""), "v")
  {
    NotContainsChar(ReplaceChar(version, 'v', ""), 'v');
  }

  // ---------------------------------------------------------------------
  // ResolveVersion (chart_version.go:78-131)
  // ---------------------------------------------------------------------

  /** `ResolveVersion`: every "*" becomes "x" and the range is parsed; for OCI
    * the last listed tag ("Not found" when there is none); for a Helm
    * repository the first index entry that is a release in range ("Not Found"
    * when there is none). */
  function ResolvedVersion(lib: Lib, env: Env, c: Chart, setup: RepoSetup): Result<string>
  {
    var r := lib.parseRange(ReplaceChar(c.version, '*', "x"));
    if r.Err? then Err(r.error)
    else if IsOci(c) then
      var tags := env.tags(OciRef(c));
      if tags.Err? then Err(tags.error)
      else if |tags.value| > 0 then Ok(tags.value[|tags.value| - 1])
      else Err("Not found")
    else if SetupError(setup).Some? then Err(SetupError(setup).value)
    else
      var index := env.loadIndex(IndexPath(env, c));
      if index.Err? then Err(index.error)
      else
        var found := FirstAccepted(r.value, Parsed(lib, Entries(index.value, c.name)));
        if found.Some? then Ok(lib.render(found.value)) else Err("Not Found")
  }

  method ResolveVersion(lib: Lib, env: Env, c: Chart, setup: RepoSetup) returns (res: Result<string>)
    ensures res == ResolvedVersion(lib, env, c, setup)
  {
    var v := ReplaceChar(c.version, '*', "x");
    var r := lib.parseRange(v);
    if r.Err? {
      return Err(r.error);
    }
    if HasPrefix(c.repo.url, "oci://") {
      var vs := env.tags(OciRef(c));
      if vs.Err? {
        return Err(vs.error);
      }
      if |vs.value| > 0 {
        return Ok(vs.value[|vs.value| - 1]);
      }
      return Err("Not found");
    }
    var update := setup.added;
    if update.Err? {
      return Err(update.error);
    }
    if update.value {
      if setup.updated.Some? {
        return Err(setup.updated.value);
      }
    }
    var index := env.loadIndex(IndexPath(env, c));
    if index.Err? {
      return Err(index.error);
    }
    var found := FirstInIndex(lib, r.value, Entries(index.value, c.name));
    if found.Some? {
      return Ok(lib.render(found.value));
    }
    return Err("Not Found");
  }

  /** For a Helm repository, `ResolveVersion` picks the first version
    * `VersionsInRange` would list for the same range, and fails exactly when
    * that list is empty. */
  lemma ResolveVersionHeadsVersionsInRange(lib: Lib, env: Env, c: Chart, setup: RepoSetup)
    requires !IsOci(c) && SetupError(setup).None?
    requires lib.parseRange(ReplaceChar(c.version, '*', "x")).Ok?
    requires env.loadIndex(IndexPath(env, c)).Ok?
    ensures var r := lib.parseRange(ReplaceChar(c.version, '*', "x")).value;
            var listed := InRange(lib, r, false, Parsed(lib, Entries(env.loadIndex(IndexPath(env, c)).value, c.name)));
            (ResolvedVersion(lib, env, c, setup) == Err("Not Found") <==> listed == [])
            && (ResolvedVersion(lib, env, c, setup).Ok? ==> ResolvedVersion(lib, env, c, setup).value == listed[0])
  {
    var r := lib.parseRange(ReplaceChar(c.version, '*', "x")).value;
    FirstAcceptedHeadsInRange(lib, r, Parsed(lib, Entries(env.loadIndex(IndexPath(env, c)).value, c.name)));
  }

  /** For OCI, `ResolveVersion` is the last tag `ResolveVersions` lists, when
    * both ranges parse. */
  lemma OciResolveVersionIsLastListed(lib: Lib, env: Env, c: Chart, setup: RepoSetup)
    requires IsOci(c)
    requires lib.parseRange(ReplaceChar(c.version, '*', "x")).Ok?
    requires lib.parseRange(ReplaceChar(c.version, 'v', "")).Ok?
    requires ResolvedVersions(lib, env, c, setup).Ok? && |ResolvedVersions(lib, env, c, setup).value| > 0
    ensures var listed := ResolvedVersions(lib, env, c, setup).value;
            ResolvedVersion(lib, env, c, setup) == Ok(listed[|listed| - 1])
  {
    OciVersionsUnfiltered(lib, env, c, setup);
  }

  // ---------------------------------------------------------------------
  // LatestVersion (chart_version.go:133-188)
  // ---------------------------------------------------------------------

  /** `LatestVersion`: for OCI the last listed tag, "v"-prefixed when the
    * requested version has a "v" (an empty list panics); for a Helm
    * repository the first entry that is not strict semver or is a release,
    * "Not Found" without error when there is none. */
  function LatestVersionOf(lib: Lib, env: Env, c: Chart): Result<string>
  {
    if IsOci(c) then
      if env.connect(OciRef(c)).Some? then Err(env.connect(OciRef(c)).value)
      else
        var vs := env.tags(OciRef(c));
        if vs.Err? then Err(vs.error)
        else if |vs.value| == 0 then Err(PanicIndex)
        else Ok(if WantsV(c) then "v" + vs.value[|vs.value| - 1] else vs.value[|vs.value| - 1])
    else
      var index := env.loadIndex(IndexPath(env, c));
      if index.Err? then Err(index.error)
      else Ok(Latest(lib, Entries(index.value, c.name)))
  }

  method LatestVersion(lib: Lib, env: Env, c: Chart) returns (res: Result<string>)
    ensures res == LatestVersionOf(lib, env, c)
  {
    if HasPrefix(c.repo.url, "oci://") {
      var ref := OciRef(c);
      var failed := env.connect(ref);
      if failed.Some? {
        return Err(failed.value);
      }
      var vPrefix := Contains(c.version, "v");
      var vs := env.tags(ref);
      if vs.Err? {
        return Err(vs.error);
      }
      if |vs.value| == 0 {
        return Err(PanicIndex);
      }
      var l := vs.value[|vs.value| - 1];
      if vPrefix {
        l := "v" + l;
      }
      return Ok(l);
    }
    var index := env.loadIndex(IndexPath(env, c));
    if index.Err? {
      return Err(index.error);
    }
    var l := LatestInIndex(lib, Entries(index.value, c.name));
    return Ok(l);
  }

  /** The index `LatestVersion` never fails once the index is read: when
    * every entry is a pre-release it answers "Not Found" as a value. */
  lemma LatestVersionNotFoundIsNoError(lib: Lib, env: Env, c: Chart)
    requires !IsOci(c) && env.loadIndex(IndexPath(env, c)).Ok?
    requires var vs := Entries(env.loadIndex(IndexPath(env, c)).value, c.name);
             forall k :: 0 <= k < |vs| ==> !Stops(lib, vs[k])
    ensures LatestVersionOf(lib, env, c) == Ok("Not Found")
  {
    LatestNoneStops(lib, Entries(env.loadIndex(IndexPath(env, c)).value, c.name));
  }

  /** Otherwise it answers the first entry at which the loop stops. */
  lemma LatestVersionIsFirstStop(lib: Lib, env: Env, c: Chart, j: nat)
    requires !IsOci(c) && env.loadIndex(IndexPath(env, c)).Ok?
    requires var vs := Entries(env.loadIndex(IndexPath(env, c)).value, c.name);
             j < |vs| && Stops(lib, vs[j]) && forall k :: 0 <= k < j ==> !Stops(lib, vs[k])
    ensures LatestVersionOf(lib, env, c) == Ok(StopText(lib, Entries(env.loadIndex(IndexPath(env, c)).value, c.name)[j]))
  {
    LatestFirstStop(lib, Entries(env.loadIndex(IndexPath(env, c)).value, c.name), j);
  }
}
