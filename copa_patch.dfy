/** pkg/copa/patch.go: the self-contained rules inside Copacetic's patch
  * entry point as helmper vendors it: the name of the patched image, the
  * manifest of the updates that were applied, when a VEX document is
  * written, and the OS family and version read from /etc/os-release. The
  * reference parser, the tag check and the os-release parser are
  * parameters. */
module CopaPatch {
  import opened Wrappers
  import opened Strs

  // ---------------------------------------------------------------------
  // The patched image name (patch.go:84-112)
  // ---------------------------------------------------------------------

  /** A normalised reference as `reference.ParseNormalizedNamed` returns it:
    * the full name and the tag and digest it carries, if any. */
  datatype NamedRef = NamedRef(name: string, tag: Option<string>, digest: Option<string>)

  /** `reference.ParseNormalizedNamed` */
  type ParseNormalized = string -> Result<NamedRef>

  /** `reference.WithTag`: the error of attaching `tag`, if any. */
  type WithTag = (NamedRef, string) -> Option<string>

  const DefaultPatchedTagSuffix: string := "patched"
  const DefaultTag: string := "latest"

  /** `reference.IsNameOnly` followed by `reference.TagNameOnly`. */
  function TagNameOnly(n: NamedRef): (r: NamedRef)
    ensures r.name == n.name && r.digest == n.digest
    ensures n.tag.None? && n.digest.None? ==> r.tag == Some(DefaultTag)
    ensures n.tag.Some? || n.digest.Some? ==> r == n
  {
    if n.tag.None? && n.digest.None? then n.(tag := Some(DefaultTag)) else n
  }

  /** The patched tag: the one asked for, or else the image's tag with
    * "-patched" appended, or "patched" alone for an empty tag. */
  function PatchedTag(tag: string, patchedTag: string): (r: string)
  {
    if patchedTag != "" then patchedTag
    else if tag == "" then DefaultPatchedTagSuffix
    else tag + "-" + DefaultPatchedTagSuffix
  }

  /** The start of `patchWithContext`: parse the image, give a name-only
    * reference the tag "latest", refuse a reference that is still not
    * tagged (one with a digest only), default the patched tag, check it, and
    * name the patched image. The result is the patched tag and the patched
    * image name. */
  function PatchTarget(image: string, patchedTag: string, parse: ParseNormalized, withTag: WithTag): (r: Result<(string, string)>)
  {
    match parse(image)
    case Err(e) => Err(e)
    case Ok(n0) =>
      var n := TagNameOnly(n0);
      if n.tag.None? then Err("unexpected: TagNameOnly did not create Tagged ref")
      else
        var pt := PatchedTag(n.tag.value, patchedTag);
        match withTag(n, pt)
        case Some(e) => Err(e + " with patched tag " + pt)
        case None => Ok((pt, n.name + ":" + pt))
  }

  /** Every way `PatchTarget` can end: the parse error, the digest-only
    * reference, the rejected tag, or the patched name built from the
    * reference's name and the defaulted tag. */
  lemma PatchTargetCases(image: string, patchedTag: string, parse: ParseNormalized, withTag: WithTag)
    ensures var r := PatchTarget(image, patchedTag, parse, withTag);
            (parse(image).Err? ==> r == Err(parse(image).error))
            && (parse(image).Ok? && parse(image).value.tag.None? && parse(image).value.digest.Some? ==>
                  r == Err("unexpected: TagNameOnly did not create Tagged ref"))
            && (parse(image).Ok? && (parse(image).value.tag.Some? || parse(image).value.digest.None?) ==>
                  var n := parse(image).value;
                  var tag := if n.tag.Some? then n.tag.value else DefaultTag;
                  var pt := PatchedTag(tag, patchedTag);
                  var n1 := n.(tag := Some(tag));
                  (withTag(n1, pt).Some? ==> r == Err(withTag(n1, pt).value + " with patched tag " + pt))
                  && (withTag(n1, pt).None? ==> r == Ok((pt, n.name + ":" + pt))))
  {
    if parse(image).Ok? {
      var n := parse(image).value;
      if n.tag.Some? {
        assert TagNameOnly(n) == n.(tag := Some(n.tag.value));
      }
    }
  }

  /** A name-only image is patched under "latest-patched" unless a tag is
    * asked for; a tagged one under its tag with "-patched"; an explicit
    * patched tag is always kept. */
  lemma PatchedTagDefaults(tag: string, patchedTag: string)
    ensures patchedTag != "" ==> PatchedTag(tag, patchedTag) == patchedTag
    ensures patchedTag == "" && tag != "" ==> PatchedTag(tag, patchedTag) == tag + "-patched"
    ensures patchedTag == "" && tag == "" ==> PatchedTag(tag, patchedTag) == "patched"
    ensures PatchedTag(tag, patchedTag) != ""
  {
  }

  /** Splits `s` at its last `c`: the text before it and the text after. */
  function SplitLast(s: string, c: char): (r: Option<(string, string)>)
    ensures r.Some? ==> r.value.0 + [c] + r.value.1 == s && c !in r.value.1
    ensures r.None? ==> c !in s
    decreases |s|
  {
    if s == [] then None
    else if s[|s| - 1] == c then Some((s[..|s| - 1], ""))
    else
      match SplitLast(s[..|s| - 1], c)
      case None => None
      case Some(parts) => Some((parts.0, parts.1 + [s[|s| - 1]]))
  }

  /** The text after the last `c` is recovered whatever comes before it. */
  lemma {:induction false} SplitLastAppend(a: string, c: char, t: string)
    requires c !in t
    ensures SplitLast(a + [c] + t, c) == Some((a, t))
    decreases |t|
  {
    var s := a + [c] + t;
    if t == [] {
      assert s[..|s| - 1] == a;
    } else {
      var t' := t[..|t| - 1];
      assert s[..|s| - 1] == a + [c] + t';
      assert c !in t' by {
        assert forall k :: 0 <= k < |t'| ==> t'[k] == t[k];
      }
      SplitLastAppend(a, c, t');
      assert t' + [t[|t| - 1]] == t;
    }
  }

  /** The patched image name splits back, at its last ':', into the
    * reference's name and the patched tag, whenever the tag has no ':' (a
    * tag `reference.WithTag` accepts never has one). */
  lemma PatchedNameRoundTrip(image: string, patchedTag: string, parse: ParseNormalized, withTag: WithTag)
    requires PatchTarget(image, patchedTag, parse, withTag).Ok?
    requires ':' !in PatchTarget(image, patchedTag, parse, withTag).value.0
    ensures var r := PatchTarget(image, patchedTag, parse, withTag).value;
            SplitLast(r.1, ':') == Some((parse(image).value.name, r.0))
  {
    var r := PatchTarget(image, patchedTag, parse, withTag).value;
    var n := TagNameOnly(parse(image).value);
    assert r.1 == n.name + [':'] + r.0;
    SplitLastAppend(n.name, ':', r.0);
  }

  // ---------------------------------------------------------------------
  // The validated manifest and the VEX document (patch.go:255-282)
  // ---------------------------------------------------------------------

  /** `unversioned.UpdatePackage` */
  datatype UpdatePackage = UpdatePackage(name: string, installedVersion: string, fixedVersion: string, vulnerabilityID: string)

  /** The OS and architecture metadata of an update manifest. */
  datatype Metadata = Metadata(osType: string, osVersion: string, arch: string)

  /** `unversioned.UpdateManifest` */
  datatype UpdateManifest = UpdateManifest(metadata: Metadata, updates: seq<UpdatePackage>)

  /** The updates whose package did not fail to install, in order. */
  function NotErrored(us: seq<UpdatePackage>, errPkgs: seq<string>): (r: seq<UpdatePackage>)
    ensures |r| <= |us|
    decreases |us|
  {
    if us == [] then []
    else
      var rest := NotErrored(us[..|us| - 1], errPkgs);
      if us[|us| - 1].name in errPkgs then rest else rest + [us[|us| - 1]]
  }

  /** The loop that builds `validatedManifest`: the metadata is copied and
    * every update whose name is not among `errPkgs` is appended. */
  method ValidatedManifest(updates: UpdateManifest, errPkgs: seq<string>) returns (m: UpdateManifest)
    ensures m.metadata == updates.metadata
    ensures m.updates == NotErrored(updates.updates, errPkgs)
  {
    m := UpdateManifest(updates.metadata, []);
    var us := updates.updates;
    for k := 0 to |us|
      invariant m.metadata == updates.metadata
      invariant m.updates == NotErrored(us[..k], errPkgs)
    {
      assert us[..k + 1][..k] == us[..k];
      if us[k].name !in errPkgs {
        m := m.(updates := m.updates + [us[k]]);
      }
    }
    assert us[..|us|] == us;
  }

  /** An update is validated iff it is one of the updates and its package
    * installed without error. */
  lemma {:induction false} NotErroredMember(us: seq<UpdatePackage>, errPkgs: seq<string>, u: UpdatePackage)
    ensures u in NotErrored(us, errPkgs) <==> u in us && u.name !in errPkgs
    decreases |us|
  {
    if us != [] {
      var init := us[..|us| - 1];
      NotErroredMember(init, errPkgs, u);
      assert us == init + [us[|us| - 1]];
    }
  }

  /** Filtering keeps the order of the updates: it distributes over
    * concatenation. */
  lemma {:induction false} NotErroredAppend(a: seq<UpdatePackage>, b: seq<UpdatePackage>, errPkgs: seq<string>)
    ensures NotErrored(a + b, errPkgs) == NotErrored(a, errPkgs) + NotErrored(b, errPkgs)
    decreases |b|
  {
    if b == [] {
      assert a + b == a;
    } else {
      var b' := b[..|b| - 1];
      assert (a + b)[..|a + b| - 1] == a + b';
      NotErroredAppend(a, b', errPkgs);
    }
  }

  /** With no failed package, every update is validated. */
  lemma {:induction false} NotErroredNone(us: seq<UpdatePackage>)
    ensures NotErrored(us, []) == us
    decreases |us|
  {
    if us != [] {
      NotErroredNone(us[..|us| - 1]);
    }
  }

  /** A VEX document is written only when there is a report file, an
    * output path, and at least one validated update. */
  predicate WritesVex(reportFile: string, output: string, validated: UpdateManifest)
  {
    reportFile != "" && output != "" && |validated.updates| > 0
  }

  /** With a report, the VEX document is written iff an output path is given
    * and some update's package installed without error. */
  lemma WritesVexIff(reportFile: string, output: string, updates: UpdateManifest, errPkgs: seq<string>)
    ensures WritesVex(reportFile, output, UpdateManifest(updates.metadata, NotErrored(updates.updates, errPkgs)))
            <==> reportFile != "" && output != ""
                 && exists k :: 0 <= k < |updates.updates| && updates.updates[k].name !in errPkgs
  {
    var v := NotErrored(updates.updates, errPkgs);
    if |v| > 0 {
      NotErroredMember(updates.updates, errPkgs, v[0]);
      var k :| 0 <= k < |updates.updates| && updates.updates[k] == v[0];
      assert updates.updates[k].name !in errPkgs;
    }
    if exists k :: 0 <= k < |updates.updates| && updates.updates[k].name !in errPkgs {
      var k :| 0 <= k < |updates.updates| && updates.updates[k].name !in errPkgs;
      NotErroredMember(updates.updates, errPkgs, updates.updates[k]);
    }
  }

  // ---------------------------------------------------------------------
  // The OS family and version (patch.go:322-359)
  // ---------------------------------------------------------------------

  /** The text of `errors.ErrUnsupported`. */
  const ErrUnsupported: string := "unsupported operation"

  /** The substrings `getOSType` looks for, in its order, with the family
    * each one stands for. */
  const OSFamilies: seq<(string, string)> := [
    ("alpine", "alpine"), ("debian", "debian"), ("ubuntu", "ubuntu"), ("amazon", "amazon"),
    ("centos", "centos"), ("mariner", "cbl-mariner"), ("red hat", "redhat")]

  /** A field of the parsed os-release data; "" when absent, as a Go map
    * lookup gives. */
  function Field(data: map<string, string>, key: string): string
  {
    if key in data then data[key] else ""
  }

  /** `getOSType`: the lower-cased NAME is matched, in a fixed order, against
    * "alpine", "debian", "ubuntu", "amazon", "centos", "mariner" and
    * "red hat"; the first substring found decides. */
  function OSType(data: Result<map<string, string>>): (r: Result<string>)
  {
    match data
    case Err(e) => Err("unable to parse os-release data " + e)
    case Ok(m) =>
      var osType := ToLower(Field(m, "NAME"));
      if Contains(osType, "alpine") then Ok("alpine")
      else if Contains(osType, "debian") then Ok("debian")
      else if Contains(osType, "ubuntu") then Ok("ubuntu")
      else if Contains(osType, "amazon") then Ok("amazon")
      else if Contains(osType, "centos") then Ok("centos")
      else if Contains(osType, "mariner") then Ok("cbl-mariner")
      else if Contains(osType, "red hat") then Ok("redhat")
      else Err(ErrUnsupported)
  }

  /** The family of the first entry of `table` whose key occurs in `name`. */
  function FirstMatch(name: string, table: seq<(string, string)>): (r: Option<string>)
    ensures r.None? <==> forall k :: 0 <= k < |table| ==> !Contains(name, table[k].0)
  {
    if table == [] then None
    else if Contains(name, table[0].0) then Some(table[0].1)
    else
      var r := FirstMatch(name, table[1..]);
      assert forall k :: 0 < k < |table| ==> table[k] == table[1..][k - 1];
      r
  }

  /** A match is the family of an entry whose key occurs, and no earlier
    * entry's key occurs. */
  lemma {:induction false} FirstMatchIsFirst(name: string, table: seq<(string, string)>)
    requires FirstMatch(name, table).Some?
    ensures exists k :: 0 <= k < |table| && Contains(name, table[k].0) && FirstMatch(name, table).value == table[k].1
                        && forall j :: 0 <= j < k ==> !Contains(name, table[j].0)
  {
    if Contains(name, table[0].0) {
      assert Contains(name, table[0].0) && FirstMatch(name, table).value == table[0].1;
    } else {
      var t := table[1..];
      FirstMatchIsFirst(name, t);
      var k :| 0 <= k < |t| && Contains(name, t[k].0) && FirstMatch(name, t).value == t[k].1
               && forall j :: 0 <= j < k ==> !Contains(name, t[j].0);
      assert table[k + 1] == t[k];
      forall j | 0 <= j < k + 1
        ensures !Contains(name, table[j].0)
      {
        if j > 0 {
          assert table[j] == t[j - 1];
        }
      }
    }
  }

  /** `getOSType` is the first match of the lower-cased NAME in the table of
    * families, and `ErrUnsupported` when nothing matches. */
  lemma OSTypeIsFirstMatch(m: map<string, string>)
    ensures var f := FirstMatch(ToLower(Field(m, "NAME")), OSFamilies);
            OSType(Ok(m)) == if f.Some? then Ok(f.value) else Err(ErrUnsupported)
  {
    var n := ToLower(Field(m, "NAME"));
    var t := OSFamilies;
    FirstMatchCons(n, t);
    FirstMatchCons(n, t[1..]);
    FirstMatchCons(n, t[2..]);
    FirstMatchCons(n, t[3..]);
    FirstMatchCons(n, t[4..]);
    FirstMatchCons(n, t[5..]);
    FirstMatchCons(n, t[6..]);
    assert t[1..][1..] == t[2..] && t[2..][1..] == t[3..] && t[3..][1..] == t[4..];
    assert t[4..][1..] == t[5..] && t[5..][1..] == t[6..] && t[6..][1..] == [];
  }

  lemma FirstMatchCons(name: string, table: seq<(string, string)>)
    requires table != []
    ensures FirstMatch(name, table)
            == if Contains(name, table[0].0) then Some(table[0].1) else FirstMatch(name, table[1..])
  {
  }

  /** The family is always one of the seven `getOSType` knows. */
  lemma OSTypeKnown(data: Result<map<string, string>>)
    ensures OSType(data).Ok? ==> exists k :: 0 <= k < |OSFamilies| && OSType(data).value == OSFamilies[k].1
  {
    if data.Ok? && OSType(data).Ok? {
      OSTypeIsFirstMatch(data.value);
      FirstMatchIsFirst(ToLower(Field(data.value, "NAME")), OSFamilies);
    }
  }

  /** `getOSVersion`: VERSION_ID as it stands, "" when absent. */
  function OSVersion(data: Result<map<string, string>>): (r: Result<string>)
    ensures data.Err? ==> r == Err("unable to parse os-release data " + data.error)
    ensures data.Ok? && "VERSION_ID" in data.value ==> r == Ok(data.value["VERSION_ID"])
    ensures data.Ok? && "VERSION_ID" !in data.value ==> r == Ok("")
  {
    match data
    case Err(e) => Err("unable to parse os-release data " + e)
    case Ok(m) => Ok(Field(m, "VERSION_ID"))
  }
}
