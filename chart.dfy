/** pkg/helm/chart.go: a chart to mirror, the repository file it is added to,
  * and the version lookups against an OCI registry or a Helm repository
  * index. Every network and file access is a field of `Env`. */
module Charts {
  import opened Wrappers
  import opened Strs
  import opened Semver
  import opened VersionSelect

  /** `repo.Entry`, reduced to the fields the rules below read. */
  datatype RepoEntry = RepoEntry(name: string, url: string)

  datatype Chart = Chart(name: string, version: string, valuesFilePath: string, repo: RepoEntry,
                         plainHTTP: bool, depsCount: int)

  /** The outside world of a version lookup.
    * `repositoryCache` is Helm's cache directory; `loadIndex` reads the index
    * file at a path and gives, per chart name, the version strings after
    * `SortEntries`; `connect` is the error, if any, of preparing an OCI client
    * (repository and credential store) for a reference; `tags` lists all of
    * a reference's tags (what the registry answers when no `last` is sent);
    * `tagPageSize` is how many tags the registry sends per page of that list,
    * 0 when it sends them all at once. */
  datatype Env = Env(
    repositoryCache: string,
    loadIndex: string -> Result<map<string, seq<string>>>,
    connect: string -> Option<string>,
    tags: string -> Result<seq<string>>,
    tagPageSize: nat)

  predicate IsOci(c: Chart)
  {
    HasPrefix(c.repo.url, "oci://")
  }

  /** The reference of an OCI chart: URL without a trailing "/", then "/" and
    * the chart name, without the "oci://" scheme. */
  function OciRef(c: Chart): string
  {
    TrimPrefix(CutSuffix(c.repo.url, "/").0 + "/" + c.name, "oci://")
  }

  /** For "oci://host/path" the reference is "host/path/name". */
  lemma OciRefStripsScheme(c: Chart, location: string)
    requires c.repo.url == "oci://" + location && !HasSuffix(c.repo.url, "/")
    ensures OciRef(c) == location + "/" + c.name
  {
    var joined := c.repo.url + "/" + c.name;
    assert joined == "oci://" + (location + "/" + c.name);
    assert HasPrefix(joined, "oci://");
  }

  /** Byte-wise lexical order, the order the registry's tag list uses. */
  predicate LexLess(a: string, b: string)
  {
    if a == [] then b != []
    else b != [] && (a[0] < b[0] || (a[0] == b[0] && LexLess(a[1..], b[1..])))
  }

  /** The tags of `all` lexically after `last`, in the order listed. */
  function TagsAfter(all: seq<string>, last: string): seq<string>
  {
    if all == [] then []
    else
      var rest := TagsAfter(all[..|all| - 1], last);
      if LexLess(last, all[|all| - 1]) then rest + [all[|all| - 1]] else rest
  }

  /** `repo.Tags(ctx, last, ...)`: every tag when `last` is empty; otherwise
    * the registry pages on from `last` and lists only the tags after it. */
  function ListedTags(env: Env, ref: string, last: string): Result<seq<string>>
  {
    var all := env.tags(ref);
    if all.Err? then all
    else if last == "" then all
    else Ok(TagsAfter(all.value, last))
  }

  /** A tag is listed exactly when the registry has it and, with a non-empty
    * `last`, it comes after `last`. */
  lemma {:induction false} ListedTagsMembers(env: Env, ref: string, last: string, t: string)
    requires env.tags(ref).Ok?
    ensures ListedTags(env, ref, last).Ok?
    ensures t in ListedTags(env, ref, last).value <==> t in env.tags(ref).value && (last == "" || LexLess(last, t))
  {
    if last != "" {
      TagsAfterMembers(env.tags(ref).value, last, t);
    }
  }

  lemma {:induction false} TagsAfterMembers(all: seq<string>, last: string, t: string)
    ensures t in TagsAfter(all, last) <==> t in all && LexLess(last, t)
    decreases |all|
  {
    if all != [] {
      var init := all[..|all| - 1];
      TagsAfterMembers(init, last, t);
      assert all == init + [all[|all| - 1]];
    }
  }

  /** `<cache>/<repo name>-index.yaml` */
  function IndexPath(env: Env, c: Chart): string
  {
    env.repositoryCache + "/" + c.repo.name + "-index.yaml"
  }

  /** `index.Entries[c.Name]`: no entries for a chart the index lacks. */
  function Entries(index: map<string, seq<string>>, name: string): seq<string>
  {
    if name in index then index[name] else []
  }

  /** Whether the requested version asks for a "v" in front of the results. */
  predicate WantsV(c: Chart)
  {
    Contains(c.version, "v")
  }

  // ---------------------------------------------------------------------
  // AddToHelmRepositoryFile (chart.go:59-78)
  // ---------------------------------------------------------------------

  predicate Has(file: seq<RepoEntry>, name: string)
  {
    exists i :: 0 <= i < |file| && file[i].name == name
  }

  /** The repository file after the rule: the entry is appended when no entry
    * has its name; otherwise the file stays as it is, and is not written. */
  function AddEntry(file: seq<RepoEntry>, e: RepoEntry): (r: (seq<RepoEntry>, bool))
    ensures r.1 <==> !Has(file, e.name)
    ensures r.1 ==> r.0 == file + [e]
    ensures !r.1 ==> r.0 == file
    ensures Has(r.0, e.name)
  {
    if Has(file, e.name) then (file, false)
    else
      assert (file + [e])[|file|] == e;
      (file + [e], true)
  }

  /** Adding twice writes once: the second call finds the name. */
  lemma AddEntryIdempotent(file: seq<RepoEntry>, e: RepoEntry)
    ensures AddEntry(AddEntry(file, e).0, e) == (AddEntry(file, e).0, false)
  {
  }

  /** `AddToHelmRepositoryFile`: load the file when it exists (else start
    * empty), and write it back only when the entry was added. The outcome is
    * the file as written, `None` when nothing was written, or the error. */
  function AddToHelmRepositoryFile(c: Chart, fileExists: bool, load: Result<seq<RepoEntry>>,
                                   write: Option<string>): (r: Result<Option<seq<RepoEntry>>>)
    ensures fileExists && load.Err? ==> r == Err(load.error)
    ensures r.Ok? && r.value.Some? ==> write.None?
    ensures r.Ok? ==>
              var file := if fileExists then load.value else [];
              (r.value.None? <==> Has(file, c.repo.name))
              && (r.value.Some? ==> r.value.value == file + [c.repo])
  {
    if fileExists && load.Err? then Err(load.error)
    else
      var file := if fileExists then load.value else [];
      var (updated, added) := AddEntry(file, c.repo);
      if !added then Ok(None)
      else if write.Some? then Err(write.value)
      else Ok(Some(updated))
  }

  // ---------------------------------------------------------------------
  // ResolveVersions (chart.go:80-185)
  // ---------------------------------------------------------------------

  /** The OCI branch: the semver tags, sorted, filtered to releases in range. */
  function OciVersionsInRange(lib: Lib, env: Env, c: Chart, r: Version -> bool): Result<seq<string>>
  {
    if env.connect(OciRef(c)).Some? then Err(env.connect(OciRef(c)).value)
    else if env.tags(OciRef(c)).Err? then Err(env.tags(OciRef(c)).error)
    else Ok(InRange(lib, r, WantsV(c), lib.sort(Parsed(lib, env.tags(OciRef(c)).value))))
  }

  /** The index branch: the index entries in index order, filtered the same
    * way. */
  function IndexVersionsInRange(lib: Lib, env: Env, c: Chart, r: Version -> bool): Result<seq<string>>
  {
    var index := env.loadIndex(IndexPath(env, c));
    if index.Err? then Err(index.error)
    else Ok(InRange(lib, r, WantsV(c), Parsed(lib, Entries(index.value, c.name))))
  }

  /** `ResolveVersions`: every "v" is removed before the range is parsed. */
  function ResolvedVersions(lib: Lib, env: Env, c: Chart): Result<seq<string>>
  {
    var r := lib.parseRange(ReplaceChar(c.version, 'v', ""));
    if r.Err? then Err(r.error)
    else if IsOci(c) then OciVersionsInRange(lib, env, c, r.value)
    else IndexVersionsInRange(lib, env, c, r.value)
  }

  method ResolveVersions(lib: Lib, env: Env, c: Chart) returns (res: Result<seq<string>>)
    ensures res == ResolvedVersions(lib, env, c)
  {
    var prefixV := Contains(c.version, "v");
    var r := lib.parseRange(ReplaceChar(c.version, 'v', ""));
    if r.Err? {
      return Err(r.error);
    }
    if HasPrefix(c.repo.url, "oci://") {
      var ref := OciRef(c);
      var failed := env.connect(ref);
      if failed.Some? {
        return Err(failed.value);
      }
      var tags := env.tags(ref);
      if tags.Err? {
        return Err(tags.error);
      }
      var vs := ParseTags(lib, tags.value);
      vs := lib.sort(vs);
      var kept := FilterVersions(lib, r.value, prefixV, vs);
      return Ok(kept);
    }
    var index := env.loadIndex(IndexPath(env, c));
    if index.Err? {
      return Err(index.error);
    }
    var kept := FilterIndex(lib, r.value, prefixV, Entries(index.value, c.name));
    return Ok(kept);
  }

  /** The releases `ResolveVersions` filters: the sorted tags for OCI, the
    * index entries in index order otherwise. */
  function Candidates(lib: Lib, env: Env, c: Chart): seq<Version>
    requires IsOci(c) ==> env.tags(OciRef(c)).Ok?
    requires !IsOci(c) ==> env.loadIndex(IndexPath(env, c)).Ok?
  {
    if IsOci(c) then lib.sort(Parsed(lib, env.tags(OciRef(c)).value))
    else Parsed(lib, Entries(env.loadIndex(IndexPath(env, c)).value, c.name))
  }

  /** What `ResolveVersions` lists: exactly the parsed releases the range
    * accepts, each rendered with the "v" rule. */
  lemma ResolvedVersionsMembers(lib: Lib, env: Env, c: Chart, s: string)
    requires ResolvedVersions(lib, env, c).Ok?
    ensures var r := lib.parseRange(ReplaceChar(c.version, 'v', "")).value;
            var candidates := Candidates(lib, env, c);
            s in ResolvedVersions(lib, env, c).value <==>
              exists j :: 0 <= j < |candidates| && Kept(r, candidates[j]) && s == Label(lib, candidates[j], WantsV(c))
  {
    var r := lib.parseRange(ReplaceChar(c.version, 'v', "")).value;
    var candidates := Candidates(lib, env, c);
    assert ResolvedVersions(lib, env, c).value == InRange(lib, r, WantsV(c), candidates) by {
      if IsOci(c) {
        assert env.connect(OciRef(c)).None? && env.tags(OciRef(c)).Ok?;
      }
    }
    InRangeMembers(lib, r, WantsV(c), candidates, s);
  }

  // ---------------------------------------------------------------------
  // ResolveVersion (chart.go:187-277)
  // ---------------------------------------------------------------------

  /** Same major and minor number as the requested version. */
  function SameMinor(want: Version): Version -> bool
  {
    (v: Version) => v.major == want.major && v.minor == want.minor
  }

  /** `ResolveVersion`: every "*" becomes "0", the result is parsed
    * tolerantly, and the first release with the same major.minor is chosen:
    * among the sorted tags listed after the requested version string for
    * OCI ("Not found" otherwise), among the index entries in index order
    * otherwise ("Not Found" otherwise). */
  function ResolvedVersion(lib: Lib, env: Env, c: Chart): Result<string>
  {
    var want := lib.parseTolerant(ReplaceChar(c.version, '*', "0"));
    if want.Err? then Err(want.error)
    else if IsOci(c) then
      if env.connect(OciRef(c)).Some? then Err(env.connect(OciRef(c)).value)
      else if ListedTags(env, OciRef(c), c.version).Err? then Err(ListedTags(env, OciRef(c), c.version).error)
      else
        var found := FirstAccepted(SameMinor(want.value), lib.sort(Parsed(lib, ListedTags(env, OciRef(c), c.version).value)));
        if found.Some? then Ok(lib.render(found.value)) else Err("Not found")
    else
      var index := env.loadIndex(IndexPath(env, c));
      if index.Err? then Err(index.error)
      else
        var found := FirstAccepted(SameMinor(want.value), Parsed(lib, Entries(index.value, c.name)));
        if found.Some? then Ok(lib.render(found.value)) else Err("Not Found")
  }

  method ResolveVersion(lib: Lib, env: Env, c: Chart) returns (res: Result<string>)
    ensures res == ResolvedVersion(lib, env, c)
  {
    var s := lib.parseTolerant(ReplaceChar(c.version, '*', "0"));
    if s.Err? {
      return Err(s.error);
    }
    var accept := SameMinor(s.value);
    if HasPrefix(c.repo.url, "oci://") {
      var ref := OciRef(c);
      var failed := env.connect(ref);
      if failed.Some? {
        return Err(failed.value);
      }
      var tags := ListedTags(env, ref, c.version);
      if tags.Err? {
        return Err(tags.error);
      }
      var vs := ParseTags(lib, tags.value);
      vs := lib.sort(vs);
      var found := FirstTag(accept, vs);
      if found.Some? {
        return Ok(lib.render(found.value));
      }
      return Err("Not found");
    }
    var index := env.loadIndex(IndexPath(env, c));
    if index.Err? {
      return Err(index.error);
    }
    var found := FirstInIndex(lib, accept, Entries(index.value, c.name));
    if found.Some? {
      return Ok(lib.render(found.value));
    }
    return Err("Not Found");
  }

  /** What `ResolveVersion` picks is a release with the requested major and
    * minor, and every candidate before it is a pre-release or has another
    * major.minor; it fails only when no candidate qualifies. */
  lemma ResolvedVersionIsFirstMatch(lib: Lib, env: Env, c: Chart)
    requires lib.parseTolerant(ReplaceChar(c.version, '*', "0")).Ok?
    requires IsOci(c) ==> env.connect(OciRef(c)).None? && env.tags(OciRef(c)).Ok?
    requires !IsOci(c) ==> env.loadIndex(IndexPath(env, c)).Ok?
    ensures var want := lib.parseTolerant(ReplaceChar(c.version, '*', "0")).value;
            var candidates := if IsOci(c) then lib.sort(Parsed(lib, ListedTags(env, OciRef(c), c.version).value))
                              else Parsed(lib, Entries(env.loadIndex(IndexPath(env, c)).value, c.name));
            (ResolvedVersion(lib, env, c).Err? <==>
               forall j :: 0 <= j < |candidates| ==> !Kept(SameMinor(want), candidates[j]))
            && (ResolvedVersion(lib, env, c).Ok? ==>
               exists j :: 0 <= j < |candidates| && Kept(SameMinor(want), candidates[j])
                           && ResolvedVersion(lib, env, c).value == lib.render(candidates[j])
                           && candidates[j].major == want.major && candidates[j].minor == want.minor
                           && forall k :: 0 <= k < j ==> !Kept(SameMinor(want), candidates[k]))
  {
    var want := lib.parseTolerant(ReplaceChar(c.version, '*', "0")).value;
    var candidates := if IsOci(c) then lib.sort(Parsed(lib, ListedTags(env, OciRef(c), c.version).value))
                      else Parsed(lib, Entries(env.loadIndex(IndexPath(env, c)).value, c.name));
    FirstAcceptedIsFirst(SameMinor(want), candidates);
  }

  /** The OCI lookup only ever sees tags after the requested version string:
    * the version it reports is parsed from such a tag. */
  lemma ResolvedVersionFromLaterTag(lib: Lib, env: Env, c: Chart) returns (t: string)
    requires IsOci(c) && ResolvedVersion(lib, env, c).Ok?
    requires SortsCorrectly(lib, Parsed(lib, ListedTags(env, OciRef(c), c.version).value))
    ensures t in env.tags(OciRef(c)).value && (c.version == "" || LexLess(c.version, t))
    ensures lib.parseTolerant(t).Ok? && ResolvedVersion(lib, env, c).value == lib.render(lib.parseTolerant(t).value)
  {
    var want := lib.parseTolerant(ReplaceChar(c.version, '*', "0")).value;
    var listed := ListedTags(env, OciRef(c), c.version).value;
    var candidates := lib.sort(Parsed(lib, listed));
    FirstAcceptedIsFirst(SameMinor(want), candidates);
    var v := FirstAccepted(SameMinor(want), candidates).value;
    assert v in multiset(candidates);
    ParsedMembers(lib, listed, v);
    var k :| 0 <= k < |listed| && lib.parseTolerant(listed[k]) == Ok(v);
    t := listed[k];
    ListedTagsMembers(env, OciRef(c), c.version, t);
  }

  /** With "v1.2.*" requested, a registry holding only "1.2.3" yields "Not
    * found": "1.2.3" sorts before "v1.2.*" and is never listed. */
  lemma ResolveVersionMissesEarlierTag(lib: Lib, env: Env, c: Chart)
    requires IsOci(c) && c.version == "v1.2.*"
    requires env.connect(OciRef(c)).None? && env.tags(OciRef(c)) == Ok(["1.2.3"])
    requires lib.parseTolerant("v1.2.0").Ok? && SortsCorrectly(lib, [])
    ensures ResolvedVersion(lib, env, c) == Err("Not found")
  {
    StarBecomesZero();
    NothingAfterV();
    assert ListedTags(env, OciRef(c), c.version) == Ok([]);
    assert Parsed(lib, []) == [];
    assert |multiset(lib.sort([]))| == 0;
  }

  lemma StarBecomesZero()
    ensures ReplaceChar("v1.2.*", '*', "0") == "v1.2.0"
  {
    assert ReplaceChar("*", '*', "0") == "0";
    assert ReplaceChar(".*", '*', "0") == ".0";
    assert ReplaceChar("2.*", '*', "0") == "2.0";
    assert ReplaceChar(".2.*", '*', "0") == ".2.0";
    assert ReplaceChar("1.2.*", '*', "0") == "1.2.0";
  }

  lemma NothingAfterV()
    ensures TagsAfter(["1.2.3"], "v1.2.*") == []
  {
    assert !LexLess("v1.2.*", "1.2.3");
    assert ["1.2.3"][..0] == [];
  }

  /** The search result, characterised without recursion. */
  lemma {:induction false} FirstAcceptedIsFirst(accept: Version -> bool, vs: seq<Version>)
    ensures FirstAccepted(accept, vs).None? <==> forall j :: 0 <= j < |vs| ==> !Kept(accept, vs[j])
    ensures FirstAccepted(accept, vs).Some? ==>
              exists j :: 0 <= j < |vs| && Kept(accept, vs[j]) && FirstAccepted(accept, vs).value == vs[j]
                          && forall k :: 0 <= k < j ==> !Kept(accept, vs[k])
  {
    if vs != [] && !Kept(accept, vs[0]) {
      FirstAcceptedIsFirst(accept, vs[1..]);
      if FirstAccepted(accept, vs[1..]).Some? {
        var j :| 0 <= j < |vs[1..]| && Kept(accept, vs[1..][j]) && FirstAccepted(accept, vs[1..]).value == vs[1..][j]
                 && forall k :: 0 <= k < j ==> !Kept(accept, vs[1..][k]);
        assert Kept(accept, vs[j + 1]);
        forall k | 0 <= k < j + 1
          ensures !Kept(accept, vs[k])
        {
          if k > 0 {
            assert vs[k] == vs[1..][k - 1];
          }
        }
      } else {
        forall j | 0 <= j < |vs|
          ensures !Kept(accept, vs[j])
        {
          if j > 0 {
            assert vs[j] == vs[1..][j - 1];
          }
        }
      }
    } else if vs != [] {
      assert Kept(accept, vs[0]);
    }
  }

  // ---------------------------------------------------------------------
  // LatestVersion (chart.go:279-363)
  // ---------------------------------------------------------------------

  /** The pages in which the registry sends a tag list: `size` tags at a
    * time, the last page holding the rest. `repo.Tags` calls its callback once
    * per page, at least once even for an empty list. */
  function TagPages(all: seq<string>, size: nat): (ps: seq<seq<string>>)
    ensures |ps| >= 1 && Concat(ps) == all
    ensures size == 0 || |all| <= size ==> ps == [all]
    ensures size > 0 && |all| > size ==> ps[0] == all[..size]
    decreases |all|
  {
    if size == 0 || |all| <= size then [all]
    else [all[..size]] + TagPages(all[size..], size)
  }

  function Concat(ps: seq<seq<string>>): seq<string>
  {
    if ps == [] then [] else ps[0] + Concat(ps[1..])
  }

  /** The OCI branch as intended: the last of the sorted semver tags of the
    * whole listing, with the "v" rule; indexing an empty list panics. */
  function OciLatest(lib: Lib, env: Env, c: Chart): Result<string>
  {
    if env.connect(OciRef(c)).Some? then Err(env.connect(OciRef(c)).value)
    else if env.tags(OciRef(c)).Err? then Err(env.tags(OciRef(c)).error)
    else
      var vs := lib.sort(Parsed(lib, env.tags(OciRef(c)).value));
      if |vs| == 0 then Err(PanicIndex)
      else Ok(Label(lib, vs[|vs| - 1], WantsV(c)))
  }

  /** One call of the `repo.Tags` callback: `vs` is declared inside it, so
    * only this page's semver tags are sorted, and a page without one panics. */
  function PageLatest(lib: Lib, page: seq<string>, prefixV: bool): Result<string>
  {
    var vs := lib.sort(Parsed(lib, page));
    if |vs| == 0 then Err(PanicIndex) else Ok(Label(lib, vs[|vs| - 1], prefixV))
  }

  /** The callbacks over the pages in turn, each overwriting `l`; the first
    * panic ends the listing. */
  function PagesLatest(lib: Lib, pages: seq<seq<string>>, l: string, prefixV: bool): Result<string>
    decreases |pages|
  {
    if pages == [] then Ok(l)
    else
      var r := PageLatest(lib, pages[0], prefixV);
      if r.Err? then r else PagesLatest(lib, pages[1..], r.value, prefixV)
  }

  /** The OCI branch as written: `l` holds what the callback for the last
    * page left in it. */
  function OciLatestAsWritten(lib: Lib, env: Env, c: Chart): Result<string>
  {
    if env.connect(OciRef(c)).Some? then Err(env.connect(OciRef(c)).value)
    else if env.tags(OciRef(c)).Err? then Err(env.tags(OciRef(c)).error)
    else PagesLatest(lib, TagPages(env.tags(OciRef(c)).value, env.tagPageSize), c.version, WantsV(c))
  }

  /** `LatestVersion`: for OCI, the code as written; for an index, the first
    * entry that is not strict semver or is a release, "Not Found" without
    * error when there is none. */
  function LatestVersionOf(lib: Lib, env: Env, c: Chart): Result<string>
  {
    if IsOci(c) then OciLatestAsWritten(lib, env, c)
    else
      var index := env.loadIndex(IndexPath(env, c));
      if index.Err? then Err(index.error)
      else Ok(Latest(lib, Entries(index.value, c.name)))
  }

  method LatestVersion(lib: Lib, env: Env, c: Chart) returns (res: Result<string>)
    ensures res == LatestVersionOf(lib, env, c)
  {
    if HasPrefix(c.repo.url, "oci://") {
      var ref := OciRef(c);
      var failed := env.connect(ref);
      if failed.Some? {
        return Err(failed.value);
      }
      var vPrefix := Contains(c.version, "v");
      var l := c.version;
      var tags := env.tags(ref);
      if tags.Err? {
        return Err(tags.error);
      }
      var pages := TagPages(tags.value, env.tagPageSize);
      for k := 0 to |pages|
        invariant PagesLatest(lib, pages, c.version, vPrefix) == PagesLatest(lib, pages[k..], l, vPrefix)
      {
        var vs := ParseTags(lib, pages[k]);
        vs := lib.sort(vs);
        if |vs| == 0 {
          return Err(PanicIndex);
        }
        l := lib.render(vs[|vs| - 1]);
        if vPrefix {
          l := "v" + l;
        }
        assert pages[k..][1..] == pages[k + 1..];
      }
      return Ok(l);
    }
    var index := env.loadIndex(IndexPath(env, c));
    if index.Err? {
      return Err(index.error);
    }
    var l := LatestInIndex(lib, Entries(index.value, c.name));
    return Ok(l);
  }

  /** As written, the answer is that of the last page: a listing that ends
    * normally gives the last page's greatest tag, and a last page without a
    * semver tag panics. */
  lemma {:induction false} PagesLatestReadsLastPage(lib: Lib, pages: seq<seq<string>>, l: string, prefixV: bool)
    requires pages != []
    ensures PagesLatest(lib, pages, l, prefixV).Ok? ==>
              PagesLatest(lib, pages, l, prefixV) == PageLatest(lib, pages[|pages| - 1], prefixV)
    ensures PageLatest(lib, pages[|pages| - 1], prefixV).Err? ==> PagesLatest(lib, pages, l, prefixV).Err?
    decreases |pages|
  {
    var r := PageLatest(lib, pages[0], prefixV);
    if r.Ok? && |pages| > 1 {
      PagesLatestReadsLastPage(lib, pages[1..], r.value, prefixV);
    }
  }

  /** With the whole listing on one page the code as written is the intended
    * lookup. */
  lemma OciLatestAsWrittenOnePage(lib: Lib, env: Env, c: Chart)
    requires env.tagPageSize == 0 || (env.tags(OciRef(c)).Ok? && |env.tags(OciRef(c)).value| <= env.tagPageSize)
    ensures OciLatestAsWritten(lib, env, c) == OciLatest(lib, env, c)
  {
    if env.connect(OciRef(c)).None? && env.tags(OciRef(c)).Ok? {
      var all := env.tags(OciRef(c)).value;
      var r := PageLatest(lib, all, WantsV(c));
      assert TagPages(all, env.tagPageSize) == [all];
      assert [all][1..] == [];
      assert r.Ok? ==> PagesLatest(lib, [all][1..], r.value, WantsV(c)) == r;
    }
  }

  /** A listing sent as two pages `a` and `b`: the tags of `a` are forgotten,
    * and the answer is `b`'s greatest tag or a panic. */
  lemma OciLatestAsWrittenForgetsFirstPage(lib: Lib, env: Env, c: Chart, a: seq<string>, b: seq<string>)
    requires env.connect(OciRef(c)).None? && env.tags(OciRef(c)) == Ok(a + b)
    requires env.tagPageSize == |a| && 0 < |b| <= |a|
    ensures OciLatestAsWritten(lib, env, c)
            == if PageLatest(lib, a, WantsV(c)).Err? then Err(PanicIndex) else PageLatest(lib, b, WantsV(c))
  {
    var pages := TagPages(a + b, |a|);
    assert (a + b)[..|a|] == a && (a + b)[|a|..] == b;
    assert pages == [a, b];
    assert pages[1..] == [b] && pages[1..][1..] == [];
    var ra := PageLatest(lib, a, WantsV(c));
    var rb := PageLatest(lib, b, WantsV(c));
    if ra.Ok? {
      assert PagesLatest(lib, pages, c.version, WantsV(c)) == PagesLatest(lib, [b], ra.value, WantsV(c));
      assert rb.Ok? ==> PagesLatest(lib, [b][1..], rb.value, WantsV(c)) == rb;
    }
  }

  /** The counterexample: a first page with semver tags and a second page
    * with none (only "latest", say). The listing as a whole has a greatest
    * tag, but the code as written panics. */
  lemma OciLatestAsWrittenPanicsOnLastPage(lib: Lib, env: Env, c: Chart, a: seq<string>, b: seq<string>)
    requires env.connect(OciRef(c)).None? && env.tags(OciRef(c)) == Ok(a + b)
    requires env.tagPageSize == |a| && 0 < |b| <= |a|
    requires Parsed(lib, a) != [] && Parsed(lib, b) == []
    requires SortsCorrectly(lib, Parsed(lib, a)) && SortsCorrectly(lib, []) && SortsCorrectly(lib, Parsed(lib, a + b))
    ensures OciLatestAsWritten(lib, env, c) == Err(PanicIndex)
    ensures OciLatest(lib, env, c).Ok?
  {
    OciLatestAsWrittenForgetsFirstPage(lib, env, c, a, b);
    assert |multiset(lib.sort(Parsed(lib, a)))| > 0;
    assert |multiset(lib.sort(Parsed(lib, b)))| == 0;
    ParsedAppend(lib, a, b);
    assert |multiset(lib.sort(Parsed(lib, a + b)))| > 0;
  }

  /** The intended OCI lookup gives the greatest semver tag: when the sort
    * does what the code relies on, the chosen version comes from a tag and
    * every other parsed tag precedes it. */
  lemma OciLatestIsGreatest(lib: Lib, env: Env, c: Chart)
    requires IsOci(c) && OciLatest(lib, env, c).Ok?
    requires SortsCorrectly(lib, Parsed(lib, env.tags(OciRef(c)).value))
    ensures var parsed := Parsed(lib, env.tags(OciRef(c)).value);
            exists v :: v in parsed && OciLatest(lib, env, c).value == Label(lib, v, WantsV(c))
                        && forall w :: w in parsed ==> lib.leq(w, v) || w == v
  {
    var parsed := Parsed(lib, env.tags(OciRef(c)).value);
    LastSortedIsGreatest(lib, parsed);
    var vs := lib.sort(parsed);
    var v := vs[|vs| - 1];
    assert OciLatest(lib, env, c).value == Label(lib, v, WantsV(c));
  }

  /** Without any semver tag the OCI `LatestVersion` panics. */
  lemma OciLatestWithoutTagsPanics(lib: Lib, env: Env, c: Chart)
    requires IsOci(c) && env.connect(OciRef(c)).None? && env.tags(OciRef(c)).Ok?
    requires SortsCorrectly(lib, Parsed(lib, env.tags(OciRef(c)).value))
    requires forall j :: 0 <= j < |env.tags(OciRef(c)).value| ==> lib.parseTolerant(env.tags(OciRef(c)).value[j]).Err?
    ensures LatestVersionOf(lib, env, c) == Err(PanicIndex)
  {
    var tags := env.tags(OciRef(c)).value;
    var first := TagPages(tags, env.tagPageSize)[0];
    assert first == tags[..|first|];
    var parsed := Parsed(lib, first);
    if |parsed| > 0 {
      ParsedMembers(lib, first, parsed[0]);
      assert false;
    }
    if |Parsed(lib, tags)| > 0 {
      ParsedMembers(lib, tags, Parsed(lib, tags)[0]);
      assert false;
    }
    assert |multiset(lib.sort(parsed))| == 0;
  }
}
