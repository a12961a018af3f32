/** pkg/helm/chartOption.go: overwriting one leaf of a chart's values, the
  * user's Modify rules, the per-image decisions taken while charts are
  * parsed (tag defaulting, tag discovery, sub-chart location, enabled
  * dependencies) and the older `IdentifyImportCandidates`. Network, Helm
  * and filesystem calls are parameters. */
module ChartOption {
  import opened Wrappers
  import opened Seqs
  import opened Strs
  import GoPath
  import opened HelmValues
  import HelmParser
  import opened RegistryImages
  import Registries

  /* ---------------- replaceValue ---------------- */

  /** `m[k] = v` on a map that holds `k`: the entry keeps its place. */
  function SetKey(m: seq<Entry>, k: string, v: Value): (r: seq<Entry>)
    ensures |r| == |m|
    ensures forall j :: 0 <= j < |m| ==> r[j].key == m[j].key
    ensures HasKey(m, k) ==> Lookup(r, k) == v
    ensures forall k' :: k' != k ==> Lookup(r, k') == Lookup(m, k')
  {
    if m == [] then []
    else if m[0].key == k then [Entry(k, v)] + m[1..]
    else [m[0]] + SetKey(m[1..], k, v)
  }

  /** The error `replaceValue` reports for a leaf that is not a string. */
  const CouldNotReplace := "could not replace value"

  /** `replaceValue`: follows the path while the value under the current key
    * is a map, and overwrites the string it reaches. Running out of path at a
    * map indexes an empty slice, a runtime panic. */
  function Replace(elem: seq<string>, replacement: string, m: seq<Entry>): Result<seq<Entry>>
  {
    if elem == [] then Err(PanicIndex)
    else
      match Lookup(m, elem[0])
      case Map(vm) =>
        (match Replace(elem[1..], replacement, vm)
         case Err(x) => Err(x)
         case Ok(vm2) => Ok(SetKey(m, elem[0], Map(vm2))))
      case Str(_) => Ok(SetKey(m, elem[0], Str(replacement)))
      case _ => Err(CouldNotReplace)
  }

  /** The value at a path of keys, each but the last naming a map; nil when
    * the path leaves the tree. */
  function ValueAt(m: seq<Entry>, q: seq<string>): Value
  {
    if q == [] then Map(m)
    else
      match Lookup(m, q[0])
      case Map(sub) => ValueAt(sub, q[1..])
      case v => if |q| == 1 then v else Nil
  }

  /** Whether some leading part of `elem` leads through maps to a string. */
  ghost predicate ReachesString(m: seq<Entry>, elem: seq<string>)
  {
    exists d :: 1 <= d <= |elem| && ValueAt(m, elem[..d]).Str?
  }

  /** Below a map-valued first key, the value at a leading part of the path
    * is the value at one key fewer in that map. */
  lemma ValueAtBelowMap(elem: seq<string>, m: seq<Entry>, vm: seq<Entry>, d: nat)
    requires 1 <= d <= |elem| && Lookup(m, elem[0]) == Map(vm)
    ensures ValueAt(m, elem[..d]) == ValueAt(vm, elem[1..][..d - 1])
  {
    assert elem[..d][0] == elem[0];
    assert elem[..d][1..] == elem[1..][..d - 1];
  }

  /** `replaceValue` succeeds iff the path reaches a string leaf; any part of
    * the path after that leaf is ignored. */
  lemma {:induction false} ReplaceOkIff(elem: seq<string>, replacement: string, m: seq<Entry>)
    ensures Replace(elem, replacement, m).Ok? <==> ReachesString(m, elem)
  {
    if elem == [] {
      return;
    }
    match Lookup(m, elem[0])
    case Map(vm) =>
      ReplaceOkIff(elem[1..], replacement, vm);
      ReachesBelowMap(elem, m, vm);
    case Str(_) =>
      ReachesAtString(elem, m);
    case v =>
      ReachesNowhere(elem, m);
  }

  lemma ReachesBelowMap(elem: seq<string>, m: seq<Entry>, vm: seq<Entry>)
    requires elem != [] && Lookup(m, elem[0]) == Map(vm)
    ensures ReachesString(m, elem) <==> ReachesString(vm, elem[1..])
  {
    if ReachesString(vm, elem[1..]) {
      var d' :| 1 <= d' <= |elem[1..]| && ValueAt(vm, elem[1..][..d']).Str?;
      ValueAtBelowMap(elem, m, vm, d' + 1);
    }
    if ReachesString(m, elem) {
      var d :| 1 <= d <= |elem| && ValueAt(m, elem[..d]).Str?;
      ValueAtBelowMap(elem, m, vm, d);
      assert ValueAt(vm, elem[1..][..d - 1]).Str?;
    }
  }

  lemma ReachesAtString(elem: seq<string>, m: seq<Entry>)
    requires elem != [] && Lookup(m, elem[0]).Str?
    ensures ReachesString(m, elem)
  {
    assert elem[..1] == [elem[0]];
    assert ValueAt(m, elem[..1]).Str?;
  }

  lemma ReachesNowhere(elem: seq<string>, m: seq<Entry>)
    requires elem != [] && !Lookup(m, elem[0]).Map? && !Lookup(m, elem[0]).Str?
    ensures !ReachesString(m, elem)
  {
    forall d | 1 <= d <= |elem|
      ensures !ValueAt(m, elem[..d]).Str?
    {
      assert elem[..d][0] == elem[0];
    }
  }

  /** The leaf `replaceValue` overwrites: the first leading part of the path
    * that holds a string. After the call it holds the replacement, and every
    * path that is not a prefix of it holds what it held before. */
  ghost predicate ReplacedAt(m: seq<Entry>, m2: seq<Entry>, elem: seq<string>, d: nat, replacement: string)
    requires d <= |elem|
  {
    ValueAt(m, elem[..d]).Str?
    && ValueAt(m2, elem[..d]) == Str(replacement)
    && forall q :: !(q <= elem[..d]) ==> ValueAt(m2, q) == ValueAt(m, q)
  }

  /** `replaceValue` changes exactly one string leaf. */
  lemma {:induction false} ReplaceFrame(elem: seq<string>, replacement: string, m: seq<Entry>)
    requires Replace(elem, replacement, m).Ok?
    ensures exists d :: 1 <= d <= |elem| && ReplacedAt(m, Replace(elem, replacement, m).value, elem, d, replacement)
  {
    match Lookup(m, elem[0])
    case Map(vm) =>
      ReplaceFrame(elem[1..], replacement, vm);
      ReplaceFrameMap(elem, replacement, m, vm);
    case Str(_) =>
      ReplaceFrameLeaf(elem, replacement, m);
  }

  lemma ReplaceFrameMap(elem: seq<string>, replacement: string, m: seq<Entry>, vm: seq<Entry>)
    requires elem != [] && Lookup(m, elem[0]) == Map(vm)
    requires Replace(elem[1..], replacement, vm).Ok?
    requires exists d' :: 1 <= d' <= |elem[1..]|
                          && ReplacedAt(vm, Replace(elem[1..], replacement, vm).value, elem[1..], d', replacement)
    ensures Replace(elem, replacement, m).Ok?
    ensures exists d :: 1 <= d <= |elem| && ReplacedAt(m, Replace(elem, replacement, m).value, elem, d, replacement)
  {
    var vm2 := Replace(elem[1..], replacement, vm).value;
    var d' :| 1 <= d' <= |elem[1..]| && ReplacedAt(vm, vm2, elem[1..], d', replacement);
    ReplaceFrameStep(elem, replacement, m, vm, vm2, d');
    assert Replace(elem, replacement, m).value == SetKey(m, elem[0], Map(vm2));
  }

  lemma ReplaceFrameLeaf(elem: seq<string>, replacement: string, m: seq<Entry>)
    requires elem != [] && Lookup(m, elem[0]).Str?
    ensures Replace(elem, replacement, m).Ok?
    ensures ReplacedAt(m, Replace(elem, replacement, m).value, elem, 1, replacement)
  {
    var e := elem[0];
    var m2 := SetKey(m, e, Str(replacement));
    assert Replace(elem, replacement, m).value == m2;
    assert elem[..1] == [e];
    forall q | !(q <= elem[..1])
      ensures ValueAt(m2, q) == ValueAt(m, q)
    {
      if q != [] && q[0] != e {
        ValueAtSameHead(m, m2, q);
      }
    }
  }

  lemma ReplaceFrameStep(elem: seq<string>, replacement: string, m: seq<Entry>, vm: seq<Entry>, vm2: seq<Entry>, d': nat)
    requires elem != [] && Lookup(m, elem[0]) == Map(vm)
    requires 1 <= d' <= |elem[1..]| && ReplacedAt(vm, vm2, elem[1..], d', replacement)
    ensures ReplacedAt(m, SetKey(m, elem[0], Map(vm2)), elem, d' + 1, replacement)
  {
    var e := elem[0];
    var m2 := SetKey(m, e, Map(vm2));
    var d := d' + 1;
    ValueAtBelowMap(elem, m, vm, d);
    ValueAtBelowMap(elem, m2, vm2, d);
    forall q | !(q <= elem[..d])
      ensures ValueAt(m2, q) == ValueAt(m, q)
    {
      FrameOutside(elem, replacement, m, vm, vm2, d', q);
    }
  }

  /** A path off the replaced one reads the same value before and after. */
  lemma FrameOutside(elem: seq<string>, replacement: string, m: seq<Entry>, vm: seq<Entry>, vm2: seq<Entry>, d': nat,
                     q: seq<string>)
    requires elem != [] && Lookup(m, elem[0]) == Map(vm)
    requires 1 <= d' <= |elem[1..]| && ReplacedAt(vm, vm2, elem[1..], d', replacement)
    requires !(q <= elem[..d' + 1])
    ensures ValueAt(SetKey(m, elem[0], Map(vm2)), q) == ValueAt(m, q)
  {
    var m2 := SetKey(m, elem[0], Map(vm2));
    if q[0] == elem[0] {
      assert Lookup(m2, elem[0]) == Map(vm2);
      FrameSameKey(elem, replacement, m, m2, vm, vm2, d', q);
    } else {
      ValueAtSameHead(m, m2, q);
    }
  }

  lemma FrameSameKey(elem: seq<string>, replacement: string, m: seq<Entry>, m2: seq<Entry>, vm: seq<Entry>, vm2: seq<Entry>,
                      d': nat, q: seq<string>)
    requires elem != [] && Lookup(m, elem[0]) == Map(vm) && Lookup(m2, elem[0]) == Map(vm2)
    requires 1 <= d' <= |elem[1..]| && ReplacedAt(vm, vm2, elem[1..], d', replacement)
    requires q != [] && q[0] == elem[0] && !(q <= elem[..d' + 1])
    ensures ValueAt(m2, q) == ValueAt(m, q)
  {
    PrefixBelowHead(q, elem, d' + 1);
    FrameBelowHead(vm, vm2, elem[1..], d', replacement, q[1..]);
    ValueAtHead(m, q, vm);
    ValueAtHead(m2, q, vm2);
  }

  lemma FrameBelowHead(vm: seq<Entry>, vm2: seq<Entry>, rest: seq<string>, d': nat, replacement: string, q: seq<string>)
    requires d' <= |rest| && ReplacedAt(vm, vm2, rest, d', replacement) && !(q <= rest[..d'])
    ensures ValueAt(vm2, q) == ValueAt(vm, q)
  {
  }

  /** A path that is not a prefix of `elem[..d]` but starts like it leaves
    * it below the first key. */
  lemma PrefixBelowHead(q: seq<string>, elem: seq<string>, d: nat)
    requires 1 <= d <= |elem| && q != [] && q[0] == elem[0] && !(q <= elem[..d])
    ensures !(q[1..] <= elem[1..][..d - 1])
  {
    assert elem[..d] == [elem[0]] + elem[1..][..d - 1];
    assert q == [q[0]] + q[1..];
  }

  lemma ValueAtHead(m: seq<Entry>, q: seq<string>, vm: seq<Entry>)
    requires q != [] && Lookup(m, q[0]) == Map(vm)
    ensures ValueAt(m, q) == ValueAt(vm, q[1..])
  {
  }

  lemma ValueAtSameHead(m: seq<Entry>, m2: seq<Entry>, q: seq<string>)
    requires q != [] && Lookup(m2, q[0]) == Lookup(m, q[0])
    ensures ValueAt(m2, q) == ValueAt(m, q)
  {
  }

  /** Overwriting a top-level string leaf, as in the "image.tag" rules with a
    * one-segment path. */
  lemma ReplaceTopLevelString(k: string, previous: string, replacement: string, rest: seq<Entry>)
    requires !HasKey(rest, k)
    ensures Replace([k], replacement, [Entry(k, Str(previous))] + rest) == Ok([Entry(k, Str(replacement))] + rest)
  {
  }

  /* ---------------- Modify rules ---------------- */

  /** One `images.modify` rule of the chart configuration. */
  datatype Modify = Modify(from: string, fromValuePath: string, to: string)

  /** The placeholder a rule's replacement may contain for the chart version. */
  const VersionToken := "{.version}"

  /** The replacement text of a rule: its first version token becomes the
    * chart version. */
  function ModifyTarget(to: string, version: string): string
  {
    ReplaceFirst(to, VersionToken, version)
  }

  /** Only the first version token is substituted. */
  lemma ModifyTargetFirstToken(before: string, after: string, version: string)
    requires !Contains(before, VersionToken)
    ensures ModifyTarget(before + VersionToken + after, version) == before + version + after
  {
    var s := before + VersionToken + after;
    assert s[|before|..|before| + |VersionToken|] == VersionToken;
    assert OccursAt(s, VersionToken, |before|);
    forall j: nat | j < |before|
      ensures !OccursAt(s, VersionToken, j)
    {
      if j + |VersionToken| <= |before| {
        assert before[j..j + |VersionToken|] == s[j..j + |VersionToken|];
        assert !OccursAt(before, VersionToken, j);
      } else {
        StraddleImpossible(before, after, j);
      }
    }
    IndexOfIs(s, VersionToken, |before|);
  }

  /** A token cannot start inside `before` and end inside the token that
    * follows it: only its first character is a "{". */
  lemma StraddleImpossible(before: string, after: string, j: nat)
    requires j < |before| < j + |VersionToken|
    ensures !OccursAt(before + VersionToken + after, VersionToken, j)
  {
    var s := before + VersionToken + after;
    var off := |before| - j;
    assert 0 < off < |VersionToken|;
    assert s[|before|] == '{';
    assert VersionToken[off] != '{';
    assert s[j..j + |VersionToken|][off] == s[|before|];
  }

  /** The rules applied in order; the first failing rule stops the run. */
  function ApplyModifications(mods: seq<Modify>, version: string, values: seq<Entry>): Result<seq<Entry>>
  {
    if mods == [] then Ok(values)
    else if mods[0].fromValuePath == "" then ApplyModifications(mods[1..], version, values)
    else
      match Replace(Split(mods[0].fromValuePath, "."), ModifyTarget(mods[0].to, version), values)
      case Err(x) => Err(x)
      case Ok(next) => ApplyModifications(mods[1..], version, next)
  }

  /** The loop of `Run` over `c.Images.Modify`. */
  method ModifyValues(mods: seq<Modify>, version: string, values: seq<Entry>) returns (r: Result<seq<Entry>>)
    ensures r == ApplyModifications(mods, version, values)
  {
    var cur := values;
    var i := 0;
    while i < |mods|
      invariant 0 <= i <= |mods|
      invariant ApplyModifications(mods, version, values) == ApplyModifications(mods[i..], version, cur)
    {
      assert mods[i..][1..] == mods[i + 1..];
      var mod := mods[i];
      if mod.fromValuePath != "" {
        var to := ReplaceFirst(mod.to, VersionToken, version);
        var res := Replace(Split(mod.fromValuePath, "."), to, cur);
        if res.Err? {
          return Err(res.error);
        }
        cur := res.value;
      }
      i := i + 1;
    }
    return Ok(cur);
  }

  /** Rules without a value path are skipped. */
  lemma {:induction false} ModifyWithoutPathsKeepsValues(mods: seq<Modify>, version: string, values: seq<Entry>)
    requires forall k :: 0 <= k < |mods| ==> mods[k].fromValuePath == ""
    ensures ApplyModifications(mods, version, values) == Ok(values)
  {
    if mods != [] {
      ModifyWithoutPathsKeepsValues(mods[1..], version, values);
    }
  }

  /* ---------------- per-image decisions of Run ---------------- */

  /** The K8S version `Run` assumes when no setter gives one. */
  const DefaultK8SVersion := "1.27.16"

  /** The image fields `Run` fills before checking availability: the registry
    * and "repo/name" from `Elements`, and an empty tag defaulted to the K8S
    * version for "kubectl" and to the chart's AppVersion otherwise. */
  function Normalise(i: Image, parse: Reference.ParseAny, k8sVersion: string, appVersion: string): (r: Result<Image>)
    ensures r.Ok? <==> Elements(i, parse).Ok?
    ensures r.Err? ==> r.error == PanicIndex
    ensures r.Ok? ==>
              var (reg, repo, name) := Elements(i, parse).value;
              r.value.registry == reg && r.value.repository == repo + "/" + name
              && r.value.digest == i.digest && r.value.useDigest == i.useDigest
              && (i.tag != "" ==> r.value.tag == i.tag)
              && (i.tag == "" && name == "kubectl" ==> r.value.tag == k8sVersion)
              && (i.tag == "" && name != "kubectl" ==> r.value.tag == appVersion)
  {
    match Elements(i, parse)
    case Err(x) => Err(x)
    case Ok(els) =>
      var (reg, repo, name) := els;
      var j := i.(registry := reg, repository := repo + "/" + name);
      if j.tag == "" then Ok(j.(tag := if name == "kubectl" then k8sVersion else appVersion))
      else Ok(j)
  }

  /** With a non-empty K8S version and AppVersion, every normalised image has
    * a tag. */
  lemma NormaliseGivesTag(i: Image, parse: Reference.ParseAny, k8sVersion: string, appVersion: string)
    requires k8sVersion != "" && appVersion != ""
    ensures Normalise(i, parse, k8sVersion, appVersion).Ok? ==> Normalise(i, parse, k8sVersion, appVersion).value.tag != ""
  {
  }

  /** `determineTag`: the image is available when the reference exists with
    * its tag (its digest when the tag is empty); failing that, when it exists
    * with "v" + tag, in which case the tag gains the "v". */
  function DetermineTag(i: Image, parse: Reference.ParseAny, plainHTTP: bool, fetch: Registries.Fetch): (r: Result<(bool, Image)>)
    ensures r.Ok? <==> Elements(i, parse).Ok?
    ensures r.Ok? ==>
              var (available, j) := r.value;
              var (reg, repo, name) := Elements(i, parse).value;
              var ref := reg + "/" + repo + "/" + name;
              var first := Registries.Exist(ref, if i.tag == "" then i.digest else i.tag, plainHTTP, fetch).0;
              var second := Registries.Exist(ref, "v" + i.tag, plainHTTP, fetch).0;
              (available <==> first || second)
              && (j == if !first && second then i.(tag := "v" + i.tag) else i)
  {
    match Elements(i, parse)
    case Err(x) => Err(x)
    case Ok(els) =>
      var (reg, repo, name) := els;
      var ref := reg + "/" + repo + "/" + name;
      var tag := if i.tag == "" then i.digest else i.tag;
      if Registries.Exist(ref, tag, plainHTTP, fetch).0 then Ok((true, i))
      else if Registries.Exist(ref, "v" + i.tag, plainHTTP, fetch).0 then Ok((true, i.(tag := "v" + i.tag)))
      else Ok((false, i))
  }

  /** `determineTag` changes nothing but the tag, and only by a leading "v". */
  lemma DetermineTagOnlyPrefixesV(i: Image, parse: Reference.ParseAny, plainHTTP: bool, fetch: Registries.Fetch)
    ensures DetermineTag(i, parse, plainHTTP, fetch).Ok? ==>
              var j := DetermineTag(i, parse, plainHTTP, fetch).value.1;
              j.(tag := i.tag) == i && (j.tag == i.tag || j.tag == "v" + i.tag)
  {
  }

  /* ---------------- sub-charts ---------------- */

  /** A dependency as declared in Chart.yaml. */
  datatype Dependency = Dependency(name: string, version: string, repository: string, condition: string)

  /** Embedded dependencies: an empty repository or a "file://" one. */
  predicate IsEmbedded(d: Dependency)
  {
    d.repository == "" || HasPrefix(d.repository, "file://")
  }

  /** `determineSubChartPath`: an archive path is first unpacked into the
    * Helm cache (`expand` is the unpacking error, if any); an embedded
    * dependency then lives under "<path>/charts/<name>"; any other is located
    * remotely (`locate`). */
  function SubChartPath(d: Dependency, chartName: string, path: string, cacheHome: string,
                        expand: Option<string>, locate: Result<string>): (r: Result<string>)
    ensures Contains(path, ".tgz") && expand.Some? ==> r == Err(expand.value)
    ensures !Contains(path, ".tgz") && IsEmbedded(d) ==> r == Ok(path + "/charts/" + d.name)
    ensures Contains(path, ".tgz") && expand.None? && IsEmbedded(d) ==>
              r == Ok(GoPath.PathJoin([cacheHome, chartName]) + "/charts/" + d.name)
    ensures !(Contains(path, ".tgz") && expand.Some?) && !IsEmbedded(d) ==> r == locate
  {
    if Contains(path, ".tgz") && expand.Some? then Err(expand.value)
    else
      var p := if Contains(path, ".tgz") then GoPath.PathJoin([cacheHome, chartName]) else path;
      if IsEmbedded(d) then Ok(p + "/charts/" + d.name) else locate
  }

  /** With a plain cache directory and chart name, an embedded dependency
    * of an unpacked archive lives in the cache, under
    * "<cache>/<chart>/charts/<name>", whatever the archive's own path. */
  lemma ArchiveDependencyInCache(d: Dependency, chartName: string, path: string, cacheHome: string,
                                 locate: Result<string>)
    requires Contains(path, ".tgz") && IsEmbedded(d)
    requires GoPath.PlainPath(cacheHome) && GoPath.PlainPath(chartName)
    ensures SubChartPath(d, chartName, path, cacheHome, None, locate)
            == Ok(cacheHome + "/" + chartName + "/charts/" + d.name)
  {
    GoPath.JoinTwoPlain(cacheHome, chartName);
  }

  /** An embedded dependency is never located remotely: the result does not
    * depend on `locate`. */
  lemma EmbeddedIgnoresLocate(d: Dependency, chartName: string, path: string, cacheHome: string,
                              expand: Option<string>, l1: Result<string>, l2: Result<string>)
    requires IsEmbedded(d)
    ensures SubChartPath(d, chartName, path, cacheHome, expand, l1) == SubChartPath(d, chartName, path, cacheHome, expand, l2)
  {
  }

  /** The dependencies whose condition `ConditionMet` accepts, in order,
    * after those already in `acc`. */
  function EnabledDependencies(deps: seq<Dependency>, values: seq<Entry>, acc: seq<Dependency>): Result<seq<Dependency>>
  {
    if deps == [] then Ok(acc)
    else
      match HelmParser.Walk(Split(deps[0].condition, "."), values, false)
      case Err(x) => Err(x)
      case Ok(enabled) => EnabledDependencies(deps[1..], values, acc + (if enabled then [deps[0]] else []))
  }

  /** The sub-chart loop of the chart generator: a dependency is followed
    * only when its condition is met in the chart's values. */
  method SelectSubCharts(deps: seq<Dependency>, values: seq<Entry>) returns (r: Result<seq<Dependency>>)
    ensures r == EnabledDependencies(deps, values, [])
  {
    var res: seq<Dependency> := [];
    var i := 0;
    while i < |deps|
      invariant 0 <= i <= |deps|
      invariant EnabledDependencies(deps, values, []) == EnabledDependencies(deps[i..], values, res)
    {
      assert deps[i..][1..] == deps[i + 1..];
      assert res + [] == res;
      var enabled := HelmParser.ConditionMet(deps[i].condition, values);
      if enabled.Err? {
        return Err(enabled.error);
      }
      if enabled.value {
        res := res + [deps[i]];
      }
      i := i + 1;
    }
    return Ok(res);
  }

  /** Every followed dependency is one of the declared ones, and a dependency
    * is followed iff its condition holds. */
  lemma {:induction false} EnabledDependenciesIff(deps: seq<Dependency>, values: seq<Entry>, acc: seq<Dependency>)
    requires forall k :: 0 <= k < |deps| ==> HelmParser.Walk(Split(deps[k].condition, "."), values, false).Ok?
    ensures EnabledDependencies(deps, values, acc).Ok?
    ensures forall d :: d in EnabledDependencies(deps, values, acc).value <==>
              d in acc || (d in deps && HelmParser.Walk(Split(d.condition, "."), values, false) == Ok(true))
  {
    if deps != [] {
      var en := HelmParser.Walk(Split(deps[0].condition, "."), values, false).value;
      var acc2 := acc + (if en then [deps[0]] else []);
      assert forall k :: 0 <= k < |deps[1..]| ==> deps[1..][k] == deps[k + 1];
      EnabledDependenciesIff(deps[1..], values, acc2);
      assert deps == [deps[0]] + deps[1..];
    }
  }

  lemma SplitEmpty()
    ensures Split("", ".") == [""]
  {
    assert IndexOf("", ".") == -1;
  }

  /** A dependency without a condition is looked up under the empty key, so
    * unless the values hold that key it is never followed. */
  lemma EmptyConditionNotFollowed(d: Dependency, values: seq<Entry>)
    requires d.condition == "" && !HasKey(values, "")
    ensures EnabledDependencies([d], values, []) == Ok([])
  {
    SplitEmpty();
    assert HelmParser.Walk([""], values, false) == Ok(false);
    assert [d][0].condition == "";
    assert HelmParser.Walk(Split([d][0].condition, "."), values, false) == Ok(false);
    var none: seq<Dependency> := [];
    assert [d][1..] == none && none + none == none;
    assert EnabledDependencies([d], values, none) == EnabledDependencies([d][1..], values, none + none);
  }

  /* ---------------- IdentifyImportCandidates ---------------- */

  /** The oracle `registry.Exists` of this revision: for an image and the
    * registries, a status map keyed by registry name. */
  type StatusOracle = (Image, seq<Registries.Registry>) -> map<string, bool>

  /** A map read in Go: a missing key reads false. */
  function Get(m: map<string, bool>, k: string): bool
  {
    k in m && m[k]
  }

  /** The closure's loop over the registries: true iff some registry's name
    * reads false in the status map. */
  method AbsentSomewhere(m: map<string, bool>, rs: seq<Registries.Registry>) returns (importImage: bool)
    ensures importImage <==> exists k :: 0 <= k < |rs| && !Get(m, rs[k].name)
  {
    importImage := false;
    var i := 0;
    while i < |rs|
      invariant 0 <= i <= |rs|
      invariant importImage <==> exists k :: 0 <= k < i && !Get(m, rs[k].name)
    {
      importImage := importImage || !Get(m, rs[i].name);
      i := i + 1;
    }
  }

  /** Whether an image is imported: always with `all`, otherwise when some
    * registry lacks it. */
  predicate Wanted(i: Image, all: bool, rs: seq<Registries.Registry>, status: StatusOracle)
  {
    all || exists k :: 0 <= k < |rs| && !Get(status(i, rs), rs[k].name)
  }

  /** The images of all charts, chart after chart. */
  function Flatten(charts: seq<seq<Image>>): seq<Image>
  {
    if charts == [] then [] else Flatten(charts[..|charts| - 1]) + charts[|charts| - 1]
  }

  /** The images considered, in order: each one unless an image with the same
    * registry, repository and tag came before it. */
  function Seen(xs: seq<Image>): seq<Image>
  {
    if xs == [] then []
    else
      var d := Seen(xs[..|xs| - 1]);
      if In(xs[|xs| - 1], d) then d else d + [xs[|xs| - 1]]
  }

  /** The considered images that are wanted, in order. */
  function Selected(xs: seq<Image>, all: bool, rs: seq<Registries.Registry>, status: StatusOracle): seq<Image>
  {
    if xs == [] then []
    else
      var s := Selected(xs[..|xs| - 1], all, rs, status);
      var x := xs[|xs| - 1];
      if Wanted(x, all, rs, status) then s + [x] else s
  }

  /** What the loop builds: each image is examined once, against the images
    * already examined, and appended when it is new and wanted. */
  function Candidates(xs: seq<Image>, all: bool, rs: seq<Registries.Registry>, status: StatusOracle): seq<Image>
  {
    if xs == [] then []
    else
      var c := Candidates(xs[..|xs| - 1], all, rs, status);
      var x := xs[|xs| - 1];
      if In(x, Seen(xs[..|xs| - 1])) || !Wanted(x, all, rs, status) then c else c + [x]
  }

  /** `IdentifyImportCandidates`: the wanted images among the distinct ones. */
  method IdentifyImportCandidates(charts: seq<seq<Image>>, rs: seq<Registries.Registry>, all: bool, status: StatusOracle)
    returns (imgs: seq<Image>)
    ensures imgs == Candidates(Flatten(charts), all, rs, status)
  {
    imgs := [];
    var seen: seq<Image> := [];
    var c := 0;
    while c < |charts|
      invariant 0 <= c <= |charts|
      invariant seen == Seen(Flatten(charts[..c])) && imgs == Candidates(Flatten(charts[..c]), all, rs, status)
    {
      FlattenLast(charts, c);
      seen, imgs := ScanImages(charts[c], rs, all, status, seen, imgs, Flatten(charts[..c]));
      c := c + 1;
    }
    assert charts[..c] == charts;
  }

  /** The inner loop of `IdentifyImportCandidates`, over one chart's images. */
  method ScanImages(images: seq<Image>, rs: seq<Registries.Registry>, all: bool, status: StatusOracle,
                    seen0: seq<Image>, imgs0: seq<Image>, ghost done: seq<Image>)
    returns (seen: seq<Image>, imgs: seq<Image>)
    requires seen0 == Seen(done) && imgs0 == Candidates(done, all, rs, status)
    ensures seen == Seen(done + images) && imgs == Candidates(done + images, all, rs, status)
  {
    seen, imgs := seen0, imgs0;
    var k := 0;
    ghost var cur := done;
    assert done + images[..0] == done;
    while k < |images|
      invariant 0 <= k <= |images| && cur == done + images[..k]
      invariant seen == Seen(cur) && imgs == Candidates(cur, all, rs, status)
    {
      var i := images[k];
      CandidatesNext(cur, i, all, rs, status);
      if !In(i, seen) {
        seen := seen + [i];
        var importImage := all;
        if !all {
          importImage := AbsentSomewhere(status(i, rs), rs);
        }
        if importImage {
          imgs := imgs + [i];
        }
      }
      AppendSliceNext(done, images, k);
      cur := cur + [i];
      k := k + 1;
    }
    assert images[..k] == images;
  }

  lemma CandidatesNext(xs: seq<Image>, x: Image, all: bool, rs: seq<Registries.Registry>, status: StatusOracle)
    ensures Seen(xs + [x]) == if In(x, Seen(xs)) then Seen(xs) else Seen(xs) + [x]
    ensures Candidates(xs + [x], all, rs, status)
            == if In(x, Seen(xs)) || !Wanted(x, all, rs, status) then Candidates(xs, all, rs, status)
               else Candidates(xs, all, rs, status) + [x]
  {
    assert (xs + [x])[..|xs + [x]| - 1] == xs;
  }

  lemma FlattenLast(charts: seq<seq<Image>>, c: nat)
    requires c < |charts|
    ensures Flatten(charts[..c + 1]) == Flatten(charts[..c]) + charts[c]
  {
    assert charts[..c + 1][..c] == charts[..c];
  }

  /** The loop's result is the wanted subset of the distinct images. */
  lemma {:induction false} CandidatesAreSelectedSeen(xs: seq<Image>, all: bool, rs: seq<Registries.Registry>, status: StatusOracle)
    ensures Candidates(xs, all, rs, status) == Selected(Seen(xs), all, rs, status)
  {
    if xs != [] {
      var p := xs[..|xs| - 1];
      var x := xs[|xs| - 1];
      CandidatesAreSelectedSeen(p, all, rs, status);
      if !In(x, Seen(p)) {
        assert (Seen(p) + [x])[..|Seen(p) + [x]| - 1] == Seen(p);
      }
    }
  }

  /** No two considered images share registry, repository and tag. */
  lemma {:induction false} SeenDistinct(xs: seq<Image>)
    ensures forall a, b :: 0 <= a < b < |Seen(xs)| ==> !SameRef(Seen(xs)[a], Seen(xs)[b])
  {
    if xs != [] {
      var p := xs[..|xs| - 1];
      SeenDistinct(p);
      var x := xs[|xs| - 1];
      if !In(x, Seen(p)) {
        var s := Seen(p) + [x];
        forall a, b | 0 <= a < b < |s|
          ensures !SameRef(s[a], s[b])
        {
          if b == |s| - 1 {
            assert s[a] == Seen(p)[a];
          }
        }
      }
    }
  }

  /** Every input image is represented among the considered ones, and every
    * considered image is an input image. */
  lemma {:induction false} SeenCovers(xs: seq<Image>)
    ensures forall k :: 0 <= k < |xs| ==> In(xs[k], Seen(xs))
    ensures forall y :: y in Seen(xs) ==> y in xs
  {
    if xs != [] {
      var p := xs[..|xs| - 1];
      SeenCovers(p);
      var x := xs[|xs| - 1];
      forall k | 0 <= k < |xs|
        ensures In(xs[k], Seen(xs))
      {
        if k < |xs| - 1 {
          assert xs[k] == p[k];
          var j :| 0 <= j < |Seen(p)| && SameRef(xs[k], Seen(p)[j]);
          assert Seen(xs)[j] == Seen(p)[j];
        } else if !In(x, Seen(p)) {
          assert Seen(xs)[|Seen(xs)| - 1] == x;
        }
      }
    }
  }

  /** An image is selected iff it is wanted, among the distinct ones. */
  lemma {:induction false} SelectedIff(xs: seq<Image>, all: bool, rs: seq<Registries.Registry>, status: StatusOracle)
    ensures forall y :: y in Selected(xs, all, rs, status) <==> y in xs && Wanted(y, all, rs, status)
  {
    if xs != [] {
      SelectedIff(xs[..|xs| - 1], all, rs, status);
      assert xs == xs[..|xs| - 1] + [xs[|xs| - 1]];
    }
  }

  /** With `all` set, every distinct image is a candidate. */
  lemma AllSelectsEverySeen(xs: seq<Image>, rs: seq<Registries.Registry>, status: StatusOracle)
    ensures Candidates(xs, true, rs, status) == Seen(xs)
  {
    CandidatesAreSelectedSeen(xs, true, rs, status);
    SelectedAll(Seen(xs), rs, status);
  }

  lemma {:induction false} SelectedAll(xs: seq<Image>, rs: seq<Registries.Registry>, status: StatusOracle)
    ensures Selected(xs, true, rs, status) == xs
  {
    if xs != [] {
      SelectedAll(xs[..|xs| - 1], rs, status);
    }
  }
}
