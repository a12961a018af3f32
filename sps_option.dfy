/** pkg/flow/spsOption.go: scan, patch and push. The distinct flagged images
  * are scanned; each goes to the patch set when its OS is supported and the
  * scan lists OS packages, and to the push set otherwise; the registry maps
  * for the import and the patch are built from those sets, together with the
  * report and tar paths, and every flagged image is scanned again at the end.
  * Trivy's binary and JSON decoder, the report writer, the import and the
  * patch run are parameters. */
module Sps {
  import opened Wrappers
  import opened Seqs
  import opened Strs
  import opened GoPath
  import opened Reference
  import opened RegistryImages
  import opened Registries
  import Trivy
  import Copa

  /** One (image pointer, flag) entry of a registry's map. */
  datatype Item = Item(image: Image, flag: bool)

  /** A registry of `Data` with its entries, in iteration order. */
  datatype RegItems = RegItems(registry: Registry, items: seq<Item>)

  /** `SpsOption` without `Data`, which `Run` receives separately. The patch
    * option is carried by the patch run parameter. */
  datatype SpsOption = SpsOption(
    all: bool,
    architecture: Option<string>,
    reportsFolder: string,
    reportsClean: bool,
    tarsFolder: string,
    tarsClean: bool,
    scanOption: Trivy.ScanOption)

  // ---------------------------------------------------------------------
  // The distinct flagged images (spsOption.go:32-47, 56-66)
  // ---------------------------------------------------------------------

  /** The images of `items` whose flag is true, in order. */
  function FlaggedIn(items: seq<Item>): (r: seq<Image>)
    decreases |items|
  {
    if items == [] then []
    else FlaggedIn(items[..|items| - 1]) + (if items[|items| - 1].flag then [items[|items| - 1].image] else [])
  }

  /** The flagged images of every registry, registry by registry. */
  function Flagged(data: seq<RegItems>): (r: seq<Image>)
    decreases |data|
  {
    if data == [] then [] else Flagged(data[..|data| - 1]) + FlaggedIn(data[|data| - 1].items)
  }

  /** `seen` with `x` appended unless an image with its registry, repository
    * and tag is already there. */
  function AddNew(seen: seq<Image>, x: Image): seq<Image>
  {
    if In(x, seen) then seen else seen + [x]
  }

  /** `seen` extended by each image of `xs` not yet represented, in order. */
  function Dedup(seen: seq<Image>, xs: seq<Image>): (r: seq<Image>)
    decreases |xs|
  {
    if xs == [] then seen else AddNew(Dedup(seen, xs[..|xs| - 1]), xs[|xs| - 1])
  }

  /** The images the flow works on: the first of each distinct flagged
    * image. */
  function Candidates(data: seq<RegItems>): seq<Image>
  {
    Dedup([], Flagged(data))
  }

  /** No two images of `s` are the same reference. */
  predicate NoRepeats(s: seq<Image>)
  {
    forall a, b :: 0 <= a < b < |s| ==> !SameRef(s[a], s[b])
  }

  lemma {:induction false} DedupAppend(seen: seq<Image>, a: seq<Image>, b: seq<Image>)
    ensures Dedup(seen, a + b) == Dedup(Dedup(seen, a), b)
    decreases |b|
  {
    if b == [] {
      assert a + b == a;
    } else {
      var b' := b[..|b| - 1];
      assert (a + b)[..|a + b| - 1] == a + b';
      DedupAppend(seen, a, b');
    }
  }

  lemma AddNewNoRepeats(seen: seq<Image>, x: Image)
    requires NoRepeats(seen)
    ensures NoRepeats(AddNew(seen, x))
  {
    if !In(x, seen) {
      var s := seen + [x];
      forall a, b | 0 <= a < b < |s|
        ensures !SameRef(s[a], s[b])
      {
        if b == |seen| {
          assert s[a] == seen[a];
          assert !SameRef(x, seen[a]);
        }
      }
    }
  }

  /** The images kept are pairwise distinct references, each is one of the
    * images offered, and every image offered is represented. */
  lemma {:induction false} DedupProperties(xs: seq<Image>)
    ensures NoRepeats(Dedup([], xs))
    ensures forall k :: 0 <= k < |Dedup([], xs)| ==> Dedup([], xs)[k] in xs
    ensures forall k :: 0 <= k < |xs| ==> In(xs[k], Dedup([], xs))
  {
    DedupOrigin(xs);
    DedupCovers(xs);
  }

  /** Without repeats, and keeping only images of the input. */
  lemma {:induction false} DedupOrigin(xs: seq<Image>)
    ensures NoRepeats(Dedup([], xs))
    ensures forall k :: 0 <= k < |Dedup([], xs)| ==> Dedup([], xs)[k] in xs
    decreases |xs|
  {
    if xs != [] {
      var init := xs[..|xs| - 1];
      var x := xs[|xs| - 1];
      DedupOrigin(init);
      var d := Dedup([], init);
      AddNewNoRepeats(d, x);
      var d' := Dedup([], xs);
      assert |d| <= |d'| && d'[..|d|] == d;
      forall k | 0 <= k < |d'|
        ensures d'[k] in xs
      {
        if k < |d| {
          assert d'[k] == d[k] && d[k] in init;
        } else {
          assert d'[k] == x;
        }
      }
    }
  }

  /** Every image of the input is represented in the result. */
  lemma {:induction false} DedupCovers(xs: seq<Image>)
    ensures forall k :: 0 <= k < |xs| ==> In(xs[k], Dedup([], xs))
    decreases |xs|
  {
    if xs != [] {
      var init := xs[..|xs| - 1];
      var x := xs[|xs| - 1];
      DedupCovers(init);
      var d := Dedup([], init);
      var d' := Dedup([], xs);
      assert |d| <= |d'| && d'[..|d|] == d;
      forall k | 0 <= k < |xs|
        ensures In(xs[k], d')
      {
        if k < |init| {
          assert xs[k] == init[k];
          var j :| 0 <= j < |d| && SameRef(xs[k], d[j]);
          assert d'[j] == d[j];
        } else if In(x, d) {
          var j :| 0 <= j < |d| && SameRef(x, d[j]);
          assert d'[j] == d[j];
        } else {
          assert SameRef(x, d'[|d|]);
        }
      }
    }
  }

  /** The inner loop of `lenImages` and of the candidate collection: every
    * flagged entry of one registry that is not yet represented is
    * appended. */
  method AddFlagged(seen: seq<Image>, items: seq<Item>) returns (seen': seq<Image>)
    ensures seen' == Dedup(seen, FlaggedIn(items))
  {
    seen' := seen;
    for k := 0 to |items|
      invariant seen' == Dedup(seen, FlaggedIn(items[..k]))
    {
      assert items[..k + 1][..k] == items[..k];
      if items[k].flag {
        var x := items[k].image;
        assert FlaggedIn(items[..k + 1]) == FlaggedIn(items[..k]) + [x];
        assert Dedup(seen, FlaggedIn(items[..k]) + [x]) == AddNew(seen', x) by {
          assert (FlaggedIn(items[..k]) + [x])[..|FlaggedIn(items[..k])|] == FlaggedIn(items[..k]);
        }
        if !In(x, seen') {
          seen' := seen' + [x];
        }
      } else {
        assert FlaggedIn(items[..k + 1]) == FlaggedIn(items[..k]) + [];
        assert FlaggedIn(items[..k]) + [] == FlaggedIn(items[..k]);
      }
    }
    assert items[..|items|] == items;
  }

  /** The collection loop of the prescan: the distinct flagged images. */
  method CollectImages(data: seq<RegItems>) returns (imgs: seq<Image>)
    ensures imgs == Candidates(data)
  {
    imgs := [];
    for r := 0 to |data|
      invariant imgs == Dedup([], Flagged(data[..r]))
    {
      assert data[..r + 1][..r] == data[..r];
      DedupAppend([], Flagged(data[..r]), FlaggedIn(data[r].items));
      imgs := AddFlagged(imgs, data[r].items);
    }
    assert data[..|data|] == data;
  }

  /** `lenImages`: the number of distinct flagged images. */
  method LenImages(data: seq<RegItems>) returns (c: nat)
    ensures c == |Candidates(data)|
  {
    var seen := CollectImages(data);
    c := |seen|;
  }

  /** Every image of the flagged entries of `items` is among its flagged
    * images. */
  lemma {:induction false} FlaggedInMember(items: seq<Item>, k: nat)
    requires k < |items| && items[k].flag
    ensures items[k].image in FlaggedIn(items)
    decreases |items|
  {
    if k < |items| - 1 {
      assert items[..|items| - 1][k] == items[k];
      FlaggedInMember(items[..|items| - 1], k);
    }
  }

  /** Every flagged entry of every registry is among the flagged images. */
  lemma {:induction false} FlaggedMember(data: seq<RegItems>, r: nat, k: nat)
    requires r < |data| && k < |data[r].items| && data[r].items[k].flag
    ensures data[r].items[k].image in Flagged(data)
    decreases |data|
  {
    if r == |data| - 1 {
      FlaggedInMember(data[r].items, k);
    } else {
      assert data[..|data| - 1][r] == data[r];
      FlaggedMember(data[..|data| - 1], r, k);
    }
  }

  /** No image is flagged exactly when there are no candidates: `Run`'s
    * early return. */
  lemma NoCandidatesIff(data: seq<RegItems>)
    ensures |Candidates(data)| == 0 <==>
            forall r, k :: 0 <= r < |data| && 0 <= k < |data[r].items| ==> !data[r].items[k].flag
  {
    DedupProperties(Flagged(data));
    if |Candidates(data)| == 0 {
      forall r, k | 0 <= r < |data| && 0 <= k < |data[r].items|
        ensures !data[r].items[k].flag
      {
        if data[r].items[k].flag {
          FlaggedMember(data, r, k);
          assert false;
        }
      }
    } else {
      var x := Candidates(data)[0];
      assert x in Flagged(data);
      FlaggedOrigin(data, x);
    }
  }

  /** Every flagged image comes from a flagged entry. */
  lemma {:induction false} FlaggedOrigin(data: seq<RegItems>, x: Image)
    requires x in Flagged(data)
    ensures exists r, k :: 0 <= r < |data| && 0 <= k < |data[r].items| && data[r].items[k].flag
                           && data[r].items[k].image == x
    decreases |data|
  {
    var init := data[..|data| - 1];
    var last := data[|data| - 1];
    if x in Flagged(init) {
      FlaggedOrigin(init, x);
      var r, k :| 0 <= r < |init| && 0 <= k < |init[r].items| && init[r].items[k].flag && init[r].items[k].image == x;
      assert data[r] == init[r];
    } else {
      assert x in FlaggedIn(last.items);
      FlaggedInOrigin(last.items, x);
      var k :| 0 <= k < |last.items| && last.items[k].flag && last.items[k].image == x;
      assert data[|data| - 1].items[k].image == x;
    }
  }

  lemma {:induction false} FlaggedInOrigin(items: seq<Item>, x: Image)
    requires x in FlaggedIn(items)
    ensures exists k :: 0 <= k < |items| && items[k].flag && items[k].image == x
    decreases |items|
  {
    var init := items[..|items| - 1];
    if x in FlaggedIn(init) {
      FlaggedInOrigin(init, x);
      var k :| 0 <= k < |init| && init[k].flag && init[k].image == x;
      assert items[k] == init[k];
    } else {
      assert items[|items| - 1].flag && items[|items| - 1].image == x;
    }
  }

  // ---------------------------------------------------------------------
  // Report and tar paths (spsOption.go:112-114, 164-189, 244-246)
  // ---------------------------------------------------------------------

  /** The image name `ImageName` gives, or "" when it fails. */
  function NameOr(i: Image, parse: ParseAny): string
  {
    var n := ImageName(i, parse);
    if n.Ok? then n.value else ""
  }

  /** "name:tag", the stem of every file named after an image. */
  function Stem(i: Image, parse: ParseAny): string
  {
    NameOr(i, parse) + ":" + i.tag
  }

  /** The file a scan writes its report to: `prefix` then the stem and
    * ".json", with every "/" of the latter replaced by "-", in `folder`. */
  function ScanReportPath(folder: string, prefix: string, i: Image, parse: ParseAny): string
  {
    PathJoin([folder, prefix + ReplaceChar(Stem(i, parse) + ".json", '/', "-")])
  }

  /** The report path of the path maps: the prefix is part of the replaced
    * text. */
  function MapReportPath(folder: string, prefix: string, i: Image, parse: ParseAny): string
  {
    PathJoin([folder, ReplaceChar(prefix + Stem(i, parse) + ".json", '/', "-")])
  }

  /** The tar an image is saved to. */
  function TarPath(folder: string, i: Image, parse: ParseAny): string
  {
    PathJoin([folder, ReplaceChar(Stem(i, parse) + ".tar", '/', "-")])
  }

  /** With a prefix that has no "/", the two ways of naming a report
    * agree. */
  lemma ReportPathAgrees(folder: string, prefix: string, i: Image, parse: ParseAny)
    requires '/' !in prefix
    ensures MapReportPath(folder, prefix, i, parse) == ScanReportPath(folder, prefix, i, parse)
  {
    var f := Stem(i, parse) + ".json";
    assert prefix + Stem(i, parse) + ".json" == prefix + f;
    ReplaceCharAppend(prefix, f, '/', "-");
  }

  /** The report file handed to the patcher is the one the prescan wrote, and
    * the post-patch report path is the one the final scan writes. */
  lemma ReportPathsAgree(folder: string, i: Image, parse: ParseAny)
    ensures MapReportPath(folder, "prescan-", i, parse) == ScanReportPath(folder, "prescan-", i, parse)
    ensures MapReportPath(folder, "postscan-", i, parse) == ScanReportPath(folder, "postscan-", i, parse)
  {
    ReportPathAgrees(folder, "prescan-", i, parse);
    ReportPathAgrees(folder, "postscan-", i, parse);
  }

  lemma SplitWithoutSlash(f: string)
    requires '/' !in f
    ensures Split(f, Slash) == [f]
  {
    NotContainsChar(f, '/');
    ContainsIffIndex(f, Slash);
  }

  /** A file name without "/" of at least three characters, joined to a
    * plain folder. */
  lemma FileInFolder(folder: string, f: string)
    requires PlainPath(folder) && '/' !in f && |f| >= 3
    ensures PathJoin([folder, f]) == folder + "/" + f
  {
    SplitWithoutSlash(f);
    JoinTwoPlain(folder, f);
  }

  /** A file named after an image, with every "/" replaced, lies directly in
    * a plain folder. */
  lemma NamedFileInFolder(folder: string, prefix: string, body: string)
    requires PlainPath(folder) && '/' !in prefix && |body| >= 3
    ensures PathJoin([folder, prefix + ReplaceChar(body, '/', "-")]) == folder + "/" + prefix + ReplaceChar(body, '/', "-")
  {
    var r := ReplaceChar(body, '/', "-");
    ReplaceCharLength(body, '/', '-');
    NotInAppend(prefix, r, '/');
    FileInFolder(folder, prefix + r);
    AppendAssoc(folder + "/", prefix, r);
  }

  /** Every report lies directly in the reports folder. */
  lemma ReportInFolder(reports: string, prefix: string, i: Image, parse: ParseAny)
    requires PlainPath(reports) && '/' !in prefix
    ensures ScanReportPath(reports, prefix, i, parse)
            == reports + "/" + prefix + ReplaceChar(Stem(i, parse) + ".json", '/', "-")
  {
    NamedFileInFolder(reports, prefix, Stem(i, parse) + ".json");
  }

  /** Every tar lies directly in the tars folder. */
  lemma TarInFolder(tars: string, i: Image, parse: ParseAny)
    requires PlainPath(tars)
    ensures TarPath(tars, i, parse) == tars + "/" + ReplaceChar(Stem(i, parse) + ".tar", '/', "-")
  {
    var body := Stem(i, parse) + ".tar";
    ReplaceCharLength(body, '/', '-');
    FileInFolder(tars, ReplaceChar(body, '/', "-"));
  }

  // ---------------------------------------------------------------------
  // The prescan partition (spsOption.go:68-122)
  // ---------------------------------------------------------------------

  /** The scanner and the report writer (JSON encoding and file write). */
  datatype ScanEnv = ScanEnv(
    exec: Trivy.Exec,
    decode: Trivy.Decode,
    filter: Trivy.Filter,
    write: (string, Trivy.Report) -> Option<string>)

  /** One image of the prescan: an image whose Patch is explicitly false is
    * pushed without a scan; otherwise it is rendered and scanned, goes to the
    * patch set iff its OS is supported and the scan lists OS packages, and
    * its report is written. `Ok(true)` stands for patch, `Ok(false)` for
    * push. */
  function Decide(o: SpsOption, i: Image, parse: ParseAny, env: ScanEnv): Result<bool>
  {
    if i.patch == Some(false) then Ok(false)
    else
      match String(i, parse)
      case Err(e) => Err(e)
      case Ok(ref) =>
        var sr := Trivy.Scan(o.scanOption, ref, env.exec, env.decode, env.filter);
        if sr.1.Some? then Err(sr.1.value)
        else
          var toPatch := Copa.SupportedOS(sr.0.os) && "os-pkgs" in Trivy.Classes(sr.0.results);
          match env.write(ScanReportPath(o.reportsFolder, "prescan-", i, parse), sr.0)
          case Some(e) => Err(e)
          case None => Ok(toPatch)
  }

  /** An image goes to the patch set iff its Patch is not explicitly false,
    * it renders, the scan succeeds, the OS is supported, the report lists
    * OS packages, and the report is written. An image whose Patch is false
    * is pushed whatever the scanner would say. */
  lemma DecidePatchIff(o: SpsOption, i: Image, parse: ParseAny, env: ScanEnv)
    ensures Decide(o, i, parse, env) == Ok(true) <==>
              i.patch != Some(false) && String(i, parse).Ok?
              && var sr := Trivy.Scan(o.scanOption, String(i, parse).value, env.exec, env.decode, env.filter);
                 sr.1.None? && Copa.SupportedOS(sr.0.os) && "os-pkgs" in Trivy.Classes(sr.0.results)
                 && env.write(ScanReportPath(o.reportsFolder, "prescan-", i, parse), sr.0).None?
    ensures i.patch == Some(false) ==> forall env' :: Decide(o, i, parse, env') == Ok(false)
  {
  }

  /** A decision for each image: `Ok(true)` patch, `Ok(false)` push. */
  type Decision = Image -> Result<bool>

  /** `Decide` with the run's options and oracles fixed. */
  function Decider(o: SpsOption, parse: ParseAny, env: ScanEnv): Decision
  {
    i => Decide(o, i, parse, env)
  }

  /** The patch and push sets of the prescan and the error that ended it. */
  datatype Prescan = Prescan(patch: seq<Image>, push: seq<Image>, err: Option<string>)

  /** The prescan over the candidates; the first error ends it. */
  function PrescanPass(imgs: seq<Image>, decide: Decision): Prescan
    decreases |imgs|
  {
    if imgs == [] then Prescan([], [], None)
    else
      var prev := PrescanPass(imgs[..|imgs| - 1], decide);
      var i := imgs[|imgs| - 1];
      if prev.err.Some? then prev
      else
        match decide(i)
        case Err(e) => prev.(err := Some(e))
        case Ok(toPatch) => if toPatch then prev.(patch := prev.patch + [i]) else prev.(push := prev.push + [i])
  }

  /** One image of the prescan loop. `ContainsOsPkgs` is the search loop of
    * pkg/trivy. */
  method DecideOne(o: SpsOption, i: Image, parse: ParseAny, env: ScanEnv) returns (r: Result<bool>)
    ensures r == Decide(o, i, parse, env)
  {
    if i.patch.Some? && !i.patch.value {
      return Ok(false);
    }
    var ref := String(i, parse);
    if ref.Err? {
      return Err(ref.error);
    }
    var sr := Trivy.Scan(o.scanOption, ref.value, env.exec, env.decode, env.filter);
    if sr.1.Some? {
      return Err(sr.1.value);
    }
    var toPatch := false;
    if Copa.SupportedOS(sr.0.os) {
      toPatch := Trivy.ContainsOsPkgs(sr.0.results);
    }
    var w := env.write(ScanReportPath(o.reportsFolder, "prescan-", i, parse), sr.0);
    if w.Some? {
      return Err(w.value);
    }
    return Ok(toPatch);
  }

  /** The prescan loop over the collected images. */
  method PrescanLoop(o: SpsOption, imgs: seq<Image>, parse: ParseAny, env: ScanEnv)
    returns (patch: seq<Image>, push: seq<Image>, err: Option<string>)
    ensures Prescan(patch, push, err) == PrescanPass(imgs, Decider(o, parse, env))
  {
    ghost var decide := Decider(o, parse, env);
    patch, push, err := [], [], None;
    for k := 0 to |imgs|
      invariant Prescan(patch, push, None) == PrescanPass(imgs[..k], decide)
    {
      assert imgs[..k + 1][..k] == imgs[..k];
      var d := DecideOne(o, imgs[k], parse, env);
      assert d == decide(imgs[k]);
      if d.Err? {
        err := Some(d.error);
        PrescanErrSticks(imgs, k + 1, decide);
        assert imgs[..|imgs|] == imgs;
        return;
      }
      if d.value {
        patch := patch + [imgs[k]];
      } else {
        push := push + [imgs[k]];
      }
    }
    assert imgs[..|imgs|] == imgs;
  }

  /** Once the prescan has failed, later images change nothing. */
  lemma {:induction false} PrescanErrSticks(imgs: seq<Image>, n: nat, decide: Decision)
    requires n <= |imgs|
    requires PrescanPass(imgs[..n], decide).err.Some?
    ensures PrescanPass(imgs, decide) == PrescanPass(imgs[..n], decide)
    decreases |imgs| - n
  {
    if n < |imgs| {
      assert imgs[..|imgs| - 1][..n] == imgs[..n];
      PrescanErrSticks(imgs[..|imgs| - 1], n, decide);
    } else {
      assert imgs[..n] == imgs;
    }
  }

  /** A prescan that ends without error splits the images between the two
    * sets: together they hold each image as often as the input does, the
    * patch set holds only images decided for patching and the push set only
    * images decided for pushing. */
  lemma {:induction false} PrescanSplits(imgs: seq<Image>, decide: Decision)
    ensures var s := PrescanPass(imgs, decide);
            s.err.None? ==>
              multiset(s.patch) + multiset(s.push) == multiset(imgs)
              && (forall x :: x in s.patch ==> decide(x) == Ok(true))
              && (forall x :: x in s.push ==> decide(x) == Ok(false))
    decreases |imgs|
  {
    if imgs != [] {
      var init := imgs[..|imgs| - 1];
      var i := imgs[|imgs| - 1];
      var s := PrescanPass(imgs, decide);
      if s.err.None? {
        var prev := PrescanPass(init, decide);
        PrescanSplits(init, decide);
        PrescanStep(imgs, decide);
        assert multiset(imgs) == multiset(init) + multiset{i} by {
          assert imgs == init + [i];
        }
        if decide(i).value {
          assert multiset(s.patch) == multiset(prev.patch) + multiset{i};
          assert forall x :: x in s.patch ==> x in prev.patch || x == i;
        } else {
          assert multiset(s.push) == multiset(prev.push) + multiset{i};
          assert forall x :: x in s.push ==> x in prev.push || x == i;
        }
      }
    }
  }

  /** One image more: a prescan that ends without error had none before,
    * and the image went to the set its decision names. */
  lemma PrescanStep(imgs: seq<Image>, decide: Decision)
    requires imgs != []
    ensures var prev := PrescanPass(imgs[..|imgs| - 1], decide);
            var i := imgs[|imgs| - 1];
            var s := PrescanPass(imgs, decide);
            s.err.None? ==>
              prev.err.None? && decide(i).Ok?
              && (decide(i).value ==> s.patch == prev.patch + [i] && s.push == prev.push)
              && (!decide(i).value ==> s.push == prev.push + [i] && s.patch == prev.patch)
  {
  }

  /** Every image of a prescan that ends without error is in exactly one of
    * the two sets. */
  lemma ExactlyOneSet(imgs: seq<Image>, decide: Decision, x: Image)
    requires x in imgs
    ensures var s := PrescanPass(imgs, decide);
            s.err.None? ==> (x in s.patch <==> x !in s.push)
  {
    var s := PrescanPass(imgs, decide);
    if s.err.None? {
      PrescanSplits(imgs, decide);
      assert multiset(imgs)[x] > 0;
    }
  }

  /** Every flagged image of one registry is among the flagged images of
    * the whole run. */
  lemma FlaggedInIsFlagged(data: seq<RegItems>, r: nat, x: Image)
    requires r < |data| && x in FlaggedIn(data[r].items)
    ensures x in Flagged(data)
  {
    FlaggedInOrigin(data[r].items, x);
    var k :| 0 <= k < |data[r].items| && data[r].items[k].flag && data[r].items[k].image == x;
    FlaggedMember(data, r, k);
  }

  /** After a prescan of the candidates that ends without error, every
    * flagged image is represented in the patch set or in the push set. */
  lemma CandidatesCovered(data: seq<RegItems>, decide: Decision)
    ensures var s := PrescanPass(Candidates(data), decide);
            s.err.None? ==> forall x :: x in Flagged(data) ==> In(x, s.patch) || In(x, s.push)
  {
    var c := Candidates(data);
    var s := PrescanPass(c, decide);
    if s.err.None? {
      assert multiset(s.patch) + multiset(s.push) == multiset(c) by {
        PrescanSplits(c, decide);
      }
      forall x | x in Flagged(data)
        ensures In(x, s.patch) || In(x, s.push)
      {
        var k :| 0 <= k < |Flagged(data)| && Flagged(data)[k] == x;
        assert In(x, c) by {
          DedupCovers(Flagged(data));
        }
        var j :| 0 <= j < |c| && SameRef(x, c[j]);
        assert multiset(c)[c[j]] > 0;
        if c[j] in s.patch {
          var m :| 0 <= m < |s.patch| && s.patch[m] == c[j];
          assert SameRef(x, s.patch[m]);
        } else {
          assert c[j] in s.push;
          var m :| 0 <= m < |s.push| && s.push[m] == c[j];
          assert SameRef(x, s.push[m]);
        }
      }
    }
  }

  // ---------------------------------------------------------------------
  // The registry maps for the import and the patch (spsOption.go:124-156)
  // ---------------------------------------------------------------------

  /** A registry with the images handed to the import or to the patch run. */
  datatype RegImages = RegImages(registry: Registry, images: seq<Image>)

  /** The flagged entries of one registry, placed: an image represented in
    * the patch set goes to the patch map, otherwise one represented in the
    * push set goes to the push map, and any other is dropped. */
  function SplitItems(items: seq<Item>, patch: seq<Image>, push: seq<Image>): (seq<Image>, seq<Image>)
    decreases |items|
  {
    if items == [] then ([], [])
    else
      var prev := SplitItems(items[..|items| - 1], patch, push);
      var it := items[|items| - 1];
      if !it.flag then prev
      else if In(it.image, patch) then (prev.0 + [it.image], prev.1)
      else if In(it.image, push) then (prev.0, prev.1 + [it.image])
      else prev
  }

  /** The patch and push maps: one entry per registry of `data`, each with
    * the registry's placed images. */
  function RegistryMaps(data: seq<RegItems>, patch: seq<Image>, push: seq<Image>): (seq<RegImages>, seq<RegImages>)
    decreases |data|
  {
    if data == [] then ([], [])
    else
      var prev := RegistryMaps(data[..|data| - 1], patch, push);
      var d := data[|data| - 1];
      var sp := SplitItems(d.items, patch, push);
      (prev.0 + [RegImages(d.registry, sp.0)], prev.1 + [RegImages(d.registry, sp.1)])
  }

  /** The inner loop of the filter, over one registry's entries. */
  method SplitLoop(items: seq<Item>, patch: seq<Image>, push: seq<Image>)
    returns (patchR: seq<Image>, pushR: seq<Image>)
    ensures (patchR, pushR) == SplitItems(items, patch, push)
  {
    patchR, pushR := [], [];
    for k := 0 to |items|
      invariant (patchR, pushR) == SplitItems(items[..k], patch, push)
    {
      assert items[..k + 1][..k] == items[..k];
      var it := items[k];
      if it.flag {
        if In(it.image, patch) {
          patchR := patchR + [it.image];
        } else if In(it.image, push) {
          pushR := pushR + [it.image];
        }
      }
    }
    assert items[..|items|] == items;
  }

  /** The filter loop over every registry. */
  method RegistryMapsLoop(data: seq<RegItems>, patch: seq<Image>, push: seq<Image>)
    returns (patchM: seq<RegImages>, pushM: seq<RegImages>)
    ensures (patchM, pushM) == RegistryMaps(data, patch, push)
  {
    patchM, pushM := [], [];
    for r := 0 to |data|
      invariant (patchM, pushM) == RegistryMaps(data[..r], patch, push)
    {
      assert data[..r + 1][..r] == data[..r];
      var patchR, pushR := SplitLoop(data[r].items, patch, push);
      patchM := patchM + [RegImages(data[r].registry, patchR)];
      pushM := pushM + [RegImages(data[r].registry, pushR)];
    }
    assert data[..|data|] == data;
  }

  /** Each map has one entry per registry of `data`, in order, holding that
    * registry's placed images. */
  lemma {:induction false} RegistryMapsShape(data: seq<RegItems>, patch: seq<Image>, push: seq<Image>)
    ensures var m := RegistryMaps(data, patch, push);
            |m.0| == |data| && |m.1| == |data|
            && forall r :: 0 <= r < |data| ==>
                 m.0[r] == RegImages(data[r].registry, SplitItems(data[r].items, patch, push).0)
                 && m.1[r] == RegImages(data[r].registry, SplitItems(data[r].items, patch, push).1)
    decreases |data|
  {
    if data != [] {
      var init := data[..|data| - 1];
      RegistryMapsShape(init, patch, push);
      var m := RegistryMaps(data, patch, push);
      var prev := RegistryMaps(init, patch, push);
      forall r | 0 <= r < |data| - 1
        ensures m.0[r] == prev.0[r] && m.1[r] == prev.1[r] && data[r] == init[r]
      {
      }
    }
  }

  /** An image is handed to the patch run iff it is a flagged image of the
    * registry represented in the patch set, and to the import iff it is one
    * represented in the push set but not in the patch set. */
  lemma {:induction false} SplitPlacement(items: seq<Item>, patch: seq<Image>, push: seq<Image>)
    ensures var sp := SplitItems(items, patch, push);
            (forall x :: x in sp.0 <==> x in FlaggedIn(items) && In(x, patch))
            && (forall x :: x in sp.1 <==> x in FlaggedIn(items) && !In(x, patch) && In(x, push))
    decreases |items|
  {
    if items != [] {
      SplitPlacement(items[..|items| - 1], patch, push);
    }
  }

  /** When every flagged image is represented in one of the two sets, the two
    * maps together hold the registry's flagged images, each as often as it
    * is flagged. */
  lemma {:induction false} SplitComplete(items: seq<Item>, patch: seq<Image>, push: seq<Image>)
    requires forall x :: x in FlaggedIn(items) ==> In(x, patch) || In(x, push)
    ensures var sp := SplitItems(items, patch, push);
            multiset(sp.0) + multiset(sp.1) == multiset(FlaggedIn(items))
    decreases |items|
  {
    if items != [] {
      var init := items[..|items| - 1];
      assert forall x :: x in FlaggedIn(init) ==> x in FlaggedIn(items);
      SplitComplete(init, patch, push);
    }
  }

  /** What the import and the patch run receive after a prescan of the
    * candidates without error: per registry, the two maps together hold the
    * registry's flagged images; the patch map holds only images represented
    * in the patch set, the import map only images that are not. */
  lemma HandOff(data: seq<RegItems>, decide: Decision)
    ensures var s := PrescanPass(Candidates(data), decide);
            var m := RegistryMaps(data, s.patch, s.push);
            s.err.None? ==>
              |m.0| == |data| && |m.1| == |data|
              && forall r :: 0 <= r < |data| ==>
                   m.0[r].registry == data[r].registry && m.1[r].registry == data[r].registry
                   && multiset(m.0[r].images) + multiset(m.1[r].images) == multiset(FlaggedIn(data[r].items))
                   && (forall x :: x in m.0[r].images ==> In(x, s.patch))
                   && (forall x :: x in m.1[r].images ==> !In(x, s.patch) && In(x, s.push))
  {
    var s := PrescanPass(Candidates(data), decide);
    var m := RegistryMaps(data, s.patch, s.push);
    if s.err.None? {
      RegistryMapsShape(data, s.patch, s.push);
      CandidatesCovered(data, decide);
      forall r | 0 <= r < |data|
        ensures multiset(m.0[r].images) + multiset(m.1[r].images) == multiset(FlaggedIn(data[r].items))
        ensures forall x :: x in m.0[r].images ==> In(x, s.patch)
        ensures forall x :: x in m.1[r].images ==> !In(x, s.patch) && In(x, s.push)
      {
        forall x | x in FlaggedIn(data[r].items)
          ensures In(x, s.patch) || In(x, s.push)
        {
          FlaggedInIsFlagged(data, r, x);
        }
        SplitComplete(data[r].items, s.patch, s.push);
        SplitPlacement(data[r].items, s.patch, s.push);
      }
    }
  }

  // ---------------------------------------------------------------------
  // The report and tar path maps (spsOption.go:164-189)
  // ---------------------------------------------------------------------

  /** The three paths of one image. */
  datatype FilePaths = FilePaths(prescan: string, postscan: string, tar: string)

  /** A name for the files of each image. */
  type Naming = Image -> FilePaths

  /** The file names of a run: the report paths are built with the prefix
    * inside the replaced text, the tar in the tars folder. */
  function RunNaming(o: SpsOption, parse: ParseAny): Naming
  {
    i => FilePaths(MapReportPath(o.reportsFolder, "prescan-", i, parse),
                   MapReportPath(o.reportsFolder, "postscan-", i, parse),
                   TarPath(o.tarsFolder, i, parse))
  }

  /** The three path maps, keyed by image. Every path is a function of the
    * image's value, so images equal as values share their paths. */
  datatype PathMaps = PathMaps(prescan: map<Image, string>, postscan: map<Image, string>, tar: map<Image, string>)

  /** The maps with the three paths of `i` set. */
  function AddPaths(pm: PathMaps, name: Naming, i: Image): PathMaps
  {
    var f := name(i);
    PathMaps(pm.prescan[i := f.prescan], pm.postscan[i := f.postscan], pm.tar[i := f.tar])
  }

  /** The maps with the paths of every image of `imgs` set, in order. */
  function PathsOver(pm: PathMaps, name: Naming, imgs: seq<Image>): PathMaps
    decreases |imgs|
  {
    if imgs == [] then pm
    else AddPaths(PathsOver(pm, name, imgs[..|imgs| - 1]), name, imgs[|imgs| - 1])
  }

  /** The path maps of a run: the paths of every flagged image. */
  function RunPaths(o: SpsOption, data: seq<RegItems>, parse: ParseAny): PathMaps
  {
    PathsOver(PathMaps(map[], map[], map[]), RunNaming(o, parse), Flagged(data))
  }

  lemma {:induction false} FlaggedAppend(a: seq<RegItems>, b: seq<RegItems>)
    ensures Flagged(a + b) == Flagged(a) + Flagged(b)
    decreases |b|
  {
    if b == [] {
      assert a + b == a;
    } else {
      var init := b[..|b| - 1];
      var last := b[|b| - 1];
      DropLastOfAppend(a, b);
      FlaggedLast(a + b, a + init, last);
      FlaggedAppend(a, init);
      FlaggedLast(b, init, last);
      AppendAssoc(Flagged(a), Flagged(init), FlaggedIn(last.items));
    }
  }

  lemma {:induction false} FlaggedInAppend(a: seq<Item>, b: seq<Item>)
    ensures FlaggedIn(a + b) == FlaggedIn(a) + FlaggedIn(b)
    decreases |b|
  {
    if b == [] {
      assert a + b == a;
    } else {
      var init := b[..|b| - 1];
      var last := b[|b| - 1];
      DropLastOfAppend(a, b);
      FlaggedInLast(a + b, a + init, last);
      FlaggedInAppend(a, init);
      FlaggedInLast(b, init, last);
      AppendAssoc(FlaggedIn(a), FlaggedIn(init), FlaggedItem(last));
    }
  }

  /** The image of an entry when it is flagged. */
  function FlaggedItem(x: Item): seq<Image>
  {
    if x.flag then [x.image] else []
  }

  lemma FlaggedInLast(items: seq<Item>, init: seq<Item>, last: Item)
    requires items != [] && init == items[..|items| - 1] && last == items[|items| - 1]
    ensures FlaggedIn(items) == FlaggedIn(init) + FlaggedItem(last)
  {
  }

  lemma {:induction false} PathsOverAppend(pm: PathMaps, name: Naming, a: seq<Image>, b: seq<Image>)
    ensures PathsOver(pm, name, a + b) == PathsOver(PathsOver(pm, name, a), name, b)
    decreases |b|
  {
    if b == [] {
      assert a + b == a;
    } else {
      assert (a + b)[..|a + b| - 1] == a + b[..|b| - 1];
      PathsOverAppend(pm, name, a, b[..|b| - 1]);
    }
  }

  /** The inner loop of the path maps, over one registry's entries. */
  method AddFlaggedPaths(pm: PathMaps, name: Naming, items: seq<Item>) returns (pm': PathMaps)
    ensures pm' == PathsOver(pm, name, FlaggedIn(items))
  {
    pm' := pm;
    for k := 0 to |items|
      invariant pm' == PathsOver(pm, name, FlaggedIn(items[..k]))
    {
      assert items[..k + 1][..k] == items[..k];
      if items[k].flag {
        var f := FlaggedIn(items[..k]);
        assert FlaggedIn(items[..k + 1]) == f + [items[k].image];
        assert (f + [items[k].image])[..|f|] == f;
        pm' := AddPaths(pm', name, items[k].image);
      } else {
        assert FlaggedIn(items[..k + 1]) == FlaggedIn(items[..k]);
      }
    }
    assert items[..|items|] == items;
  }

  /** The path maps loop over every registry. */
  method CollectPaths(o: SpsOption, data: seq<RegItems>, parse: ParseAny) returns (pm: PathMaps)
    ensures pm == RunPaths(o, data, parse)
  {
    var name := RunNaming(o, parse);
    var empty := PathMaps(map[], map[], map[]);
    pm := empty;
    for r := 0 to |data|
      invariant pm == PathsOver(empty, name, Flagged(data[..r]))
    {
      assert data[..r + 1][..r] == data[..r];
      PathsOverAppend(empty, name, Flagged(data[..r]), FlaggedIn(data[r].items));
      pm := AddFlaggedPaths(pm, name, data[r].items);
    }
    assert data[..|data|] == data;
  }

  /** The maps hold exactly the images of `imgs` (besides those of `pm`),
    * each with its own three paths. */
  lemma {:induction false} PathsOverContents(pm: PathMaps, name: Naming, imgs: seq<Image>)
    ensures var q := PathsOver(pm, name, imgs);
            forall i :: (i in q.prescan <==> i in pm.prescan || i in imgs)
                        && (i in q.postscan <==> i in pm.postscan || i in imgs)
                        && (i in q.tar <==> i in pm.tar || i in imgs)
                        && (i in imgs ==>
                              q.prescan[i] == name(i).prescan && q.postscan[i] == name(i).postscan
                              && q.tar[i] == name(i).tar)
    decreases |imgs|
  {
    if imgs != [] {
      var init := imgs[..|imgs| - 1];
      PathsOverContents(pm, name, init);
      assert forall i :: i in imgs <==> i in init || i == imgs[|imgs| - 1] by {
        assert imgs == init + [imgs[|imgs| - 1]];
      }
    }
  }

  /** The path maps of a run hold every flagged image and nothing else; the
    * report path handed to the patcher is the file the prescan wrote, and the
    * post-patch report path is the file the final scan writes. */
  lemma RunPathsAgree(o: SpsOption, data: seq<RegItems>, parse: ParseAny)
    ensures var pm := RunPaths(o, data, parse);
            forall i :: (i in pm.prescan <==> i in Flagged(data))
                        && (i in pm.postscan <==> i in Flagged(data))
                        && (i in pm.tar <==> i in Flagged(data))
                        && (i in Flagged(data) ==>
                 pm.prescan[i] == ScanReportPath(o.reportsFolder, "prescan-", i, parse)
                 && pm.postscan[i] == ScanReportPath(o.reportsFolder, "postscan-", i, parse)
                 && pm.tar[i] == TarPath(o.tarsFolder, i, parse))
  {
    var name := RunNaming(o, parse);
    var pm := RunPaths(o, data, parse);
    PathsOverContents(PathMaps(map[], map[], map[]), name, Flagged(data));
    forall i | i in Flagged(data)
      ensures pm.prescan[i] == ScanReportPath(o.reportsFolder, "prescan-", i, parse)
      ensures pm.postscan[i] == ScanReportPath(o.reportsFolder, "postscan-", i, parse)
      ensures pm.tar[i] == TarPath(o.tarsFolder, i, parse)
    {
      assert pm.prescan[i] == name(i).prescan && pm.postscan[i] == name(i).postscan && pm.tar[i] == name(i).tar;
      ReportPathsAgree(o.reportsFolder, i, parse);
    }
  }

  // ---------------------------------------------------------------------
  // The deferred clean-up (spsOption.go:190-205)
  // ---------------------------------------------------------------------

  /** The files the deferred clean-up removes: both reports of every flagged
    * image when ReportsClean is set, its tar when TarsClean is set. */
  function Removed(o: SpsOption, pm: PathMaps): set<string>
  {
    (if o.reportsClean then pm.prescan.Values + pm.postscan.Values else {})
    + (if o.tarsClean then pm.tar.Values else {})
  }

  /** `f` names a file directly inside `folder`. */
  predicate DirectlyIn(f: string, folder: string)
  {
    |f| > |folder| + 1 && f[..|folder| + 1] == folder + "/" && '/' !in f[|folder| + 1..]
  }

  lemma ReportDirectlyIn(reports: string, prefix: string, i: Image, parse: ParseAny)
    requires PlainPath(reports) && '/' !in prefix
    ensures DirectlyIn(ScanReportPath(reports, prefix, i, parse), reports)
  {
    var body := Stem(i, parse) + ".json";
    var r := ReplaceChar(body, '/', "-");
    ReportInFolder(reports, prefix, i, parse);
    ReplaceCharLength(body, '/', '-');
    NotInAppend(prefix, r, '/');
    AppendAssoc(reports + "/", prefix, r);
    FileDirectlyIn(reports, prefix + r, ScanReportPath(reports, prefix, i, parse));
  }

  lemma TarDirectlyIn(tars: string, i: Image, parse: ParseAny)
    requires PlainPath(tars)
    ensures DirectlyIn(TarPath(tars, i, parse), tars)
  {
    var body := Stem(i, parse) + ".tar";
    var r := ReplaceChar(body, '/', "-");
    TarInFolder(tars, i, parse);
    ReplaceCharLength(body, '/', '-');
    FileDirectlyIn(tars, r, TarPath(tars, i, parse));
  }

  lemma FileDirectlyIn(folder: string, name: string, f: string)
    requires '/' !in name && name != [] && f == folder + "/" + name
    ensures DirectlyIn(f, folder)
  {
    assert f[..|folder| + 1] == folder + "/";
    assert f[|folder| + 1..] == name;
  }

  /** Every path of the maps lies directly in its folder. */
  predicate Located(pm: PathMaps, reports: string, tars: string)
  {
    (forall i :: i in pm.prescan ==> DirectlyIn(pm.prescan[i], reports))
    && (forall i :: i in pm.postscan ==> DirectlyIn(pm.postscan[i], reports))
    && (forall i :: i in pm.tar ==> DirectlyIn(pm.tar[i], tars))
  }

  lemma ImagePathsLocated(o: SpsOption, i: Image, parse: ParseAny)
    requires PlainPath(o.reportsFolder) && PlainPath(o.tarsFolder)
    ensures DirectlyIn(ScanReportPath(o.reportsFolder, "prescan-", i, parse), o.reportsFolder)
    ensures DirectlyIn(ScanReportPath(o.reportsFolder, "postscan-", i, parse), o.reportsFolder)
    ensures DirectlyIn(TarPath(o.tarsFolder, i, parse), o.tarsFolder)
  {
    ReportDirectlyIn(o.reportsFolder, "prescan-", i, parse);
    ReportDirectlyIn(o.reportsFolder, "postscan-", i, parse);
    TarDirectlyIn(o.tarsFolder, i, parse);
  }

  lemma RunPathsLocated(o: SpsOption, data: seq<RegItems>, parse: ParseAny)
    requires PlainPath(o.reportsFolder) && PlainPath(o.tarsFolder)
    ensures Located(RunPaths(o, data, parse), o.reportsFolder, o.tarsFolder)
  {
    var pm := RunPaths(o, data, parse);
    RunPathsAgree(o, data, parse);
    forall i | i in Flagged(data)
      ensures DirectlyIn(pm.prescan[i], o.reportsFolder)
      ensures DirectlyIn(pm.postscan[i], o.reportsFolder)
      ensures DirectlyIn(pm.tar[i], o.tarsFolder)
    {
      ImagePathsLocated(o, i, parse);
    }
  }

  /** With plain folders, the clean-up removes only files lying directly in
    * the reports folder (when ReportsClean is set) or in the tars folder
    * (when TarsClean is set), and nothing when neither is set. */
  lemma RemovedInFolders(o: SpsOption, data: seq<RegItems>, parse: ParseAny)
    requires PlainPath(o.reportsFolder) && PlainPath(o.tarsFolder)
    ensures var rm := Removed(o, RunPaths(o, data, parse));
            (forall f :: f in rm ==> (o.reportsClean && DirectlyIn(f, o.reportsFolder))
                                     || (o.tarsClean && DirectlyIn(f, o.tarsFolder)))
            && (!o.reportsClean && !o.tarsClean ==> rm == {})
  {
    var pm := RunPaths(o, data, parse);
    assert Located(pm, o.reportsFolder, o.tarsFolder) by {
      RunPathsLocated(o, data, parse);
    }
    forall f | f in Removed(o, pm)
      ensures (o.reportsClean && DirectlyIn(f, o.reportsFolder)) || (o.tarsClean && DirectlyIn(f, o.tarsFolder))
    {
      if o.reportsClean && f in pm.prescan.Values {
        var i :| i in pm.prescan && pm.prescan[i] == f;
      } else if o.reportsClean && f in pm.postscan.Values {
        var i :| i in pm.postscan && pm.postscan[i] == f;
      } else {
        var i :| i in pm.tar && pm.tar[i] == f;
      }
    }
  }

  // ---------------------------------------------------------------------
  // The postscan (spsOption.go:225-263)
  // ---------------------------------------------------------------------

  /** One image of the final scan: render it, scan it and write its
    * "postscan-" report; the first failure is the result. */
  function PostscanOne(o: SpsOption, i: Image, parse: ParseAny, env: ScanEnv): Option<string>
  {
    match String(i, parse)
    case Err(e) => Some(e)
    case Ok(ref) =>
      var sr := Trivy.Scan(o.scanOption, ref, env.exec, env.decode, env.filter);
      if sr.1.Some? then sr.1
      else env.write(ScanReportPath(o.reportsFolder, "postscan-", i, parse), sr.0)
  }

  /** A step that may fail, for each image. */
  type Step = Image -> Option<string>

  /** An image as the import and the patch run leave it: each push writes
    * the pushed manifest's digest into the entry shared with `Data`
    * (registry/importOption.go:67, copa/main.go:132, 183), so an image with
    * a pushed digest is scanned with that digest. */
  function AsPushed(i: Image, pushed: map<Image, string>): Image
  {
    if i in pushed then i.(digest := pushed[i]) else i
  }

  /** The final scan of an entry: the image as the pushes left it. */
  function Postscanner(o: SpsOption, parse: ParseAny, env: ScanEnv, pushed: map<Image, string>): Step
  {
    i => PostscanOne(o, AsPushed(i, pushed), parse, env)
  }

  /** A pushed image is handed to the reference parser with "@" and its
    * new digest at the end, so the final scan reads the pushed manifest
    * and not the image that was scanned before the push. */
  lemma PushedRefCarriesDigest(i: Image, pushed: map<Image, string>)
    requires i in pushed && pushed[i] != ""
    ensures HasSuffix(RawRef(AsPushed(i, pushed)), "@" + pushed[i])
  {
    var p := AsPushed(i, pushed);
    var pre := PathJoin([p.registry, p.repository]) + (if p.tag != "" then ":" + p.tag else "");
    assert RawRef(p) == pre + ("@" + pushed[i]);
  }

  /** The steps over `imgs` in order, stopping at the first failure. */
  function FirstError(imgs: seq<Image>, step: Step): Option<string>
    decreases |imgs|
  {
    if imgs == [] then None
    else
      var prev := FirstError(imgs[..|imgs| - 1], step);
      if prev.Some? then prev else step(imgs[|imgs| - 1])
  }

  /** No failure exactly when every step succeeds; a failure is the first
    * failing step's error. */
  lemma {:induction false} FirstErrorIff(imgs: seq<Image>, step: Step)
    ensures FirstError(imgs, step).None? <==> forall k :: 0 <= k < |imgs| ==> step(imgs[k]).None?
    ensures FirstError(imgs, step).Some? ==>
              exists k :: 0 <= k < |imgs| && step(imgs[k]) == FirstError(imgs, step)
                          && forall j :: 0 <= j < k ==> step(imgs[j]).None?
    decreases |imgs|
  {
    if imgs != [] {
      var init := imgs[..|imgs| - 1];
      FirstErrorIff(init, step);
      assert forall k :: 0 <= k < |init| ==> init[k] == imgs[k];
      if FirstError(init, step).Some? {
        var k :| 0 <= k < |init| && step(init[k]) == FirstError(init, step)
                 && forall j :: 0 <= j < k ==> step(init[j]).None?;
        assert step(imgs[k]) == FirstError(imgs, step);
      } else if step(imgs[|imgs| - 1]).Some? {
        assert step(imgs[|imgs| - 1]) == FirstError(imgs, step);
      }
    }
  }

  lemma {:induction false} FirstErrorAppend(a: seq<Image>, b: seq<Image>, step: Step)
    ensures FirstError(a + b, step) == if FirstError(a, step).Some? then FirstError(a, step) else FirstError(b, step)
    decreases |b|
  {
    if b == [] {
      assert a + b == a;
    } else {
      assert (a + b)[..|a + b| - 1] == a + b[..|b| - 1];
      FirstErrorAppend(a, b[..|b| - 1], step);
    }
  }

  /** One entry further: an unflagged entry adds nothing, a flagged one
    * adds its image's step, and a failing step is the result of the
    * whole registry. */
  lemma {:induction false} FirstErrorStep(items: seq<Item>, k: nat, step: Step)
    requires k < |items| && FirstError(FlaggedIn(items[..k]), step).None?
    ensures FirstError(FlaggedIn(items[..k + 1]), step) == (if items[k].flag then step(items[k].image) else None)
    ensures items[k].flag && step(items[k].image).Some? ==>
              FirstError(FlaggedIn(items), step) == step(items[k].image)
  {
    assert items[..k + 1][..k] == items[..k];
    var f := FlaggedIn(items[..k]);
    if items[k].flag {
      assert FlaggedIn(items[..k + 1]) == f + [items[k].image];
      assert (f + [items[k].image])[..|f|] == f;
      if step(items[k].image).Some? {
        assert items == items[..k + 1] + items[k + 1..];
        FlaggedInAppend(items[..k + 1], items[k + 1..]);
        FirstErrorAppend(FlaggedIn(items[..k + 1]), FlaggedIn(items[k + 1..]), step);
      }
    } else {
      assert FlaggedIn(items[..k + 1]) == f;
    }
  }

  /** The inner loop of the final scan, over one registry's entries; it
    * returns at the first failure. */
  method PostscanItems(o: SpsOption, items: seq<Item>, parse: ParseAny, env: ScanEnv, pushed: map<Image, string>)
    returns (err: Option<string>)
    ensures err == FirstError(FlaggedIn(items), Postscanner(o, parse, env, pushed))
  {
    ghost var step := Postscanner(o, parse, env, pushed);
    for k := 0 to |items|
      invariant FirstError(FlaggedIn(items[..k]), step).None?
    {
      FirstErrorStep(items, k, step);
      if items[k].flag {
        var e := PostscanOne(o, AsPushed(items[k].image, pushed), parse, env);
        assert e == step(items[k].image);
        if e.Some? {
          return e;
        }
      }
    }
    assert items[..|items|] == items;
    return None;
  }

  /** The final scan over every registry. */
  method PostscanLoop(o: SpsOption, data: seq<RegItems>, parse: ParseAny, env: ScanEnv, pushed: map<Image, string>)
    returns (err: Option<string>)
    ensures err == FirstError(Flagged(data), Postscanner(o, parse, env, pushed))
  {
    ghost var step := Postscanner(o, parse, env, pushed);
    for r := 0 to |data|
      invariant FirstError(Flagged(data[..r]), step).None?
    {
      var e := PostscanItems(o, data[r].items, parse, env, pushed);
      FirstErrorRegistry(data, r, step, e);
      if e.Some? {
        return e;
      }
    }
    assert data[..|data|] == data;
    return None;
  }

  /** One registry further: its entries' first failure, if any, is that of
    * the whole run. */
  lemma FirstErrorRegistry(data: seq<RegItems>, r: nat, step: Step, e: Option<string>)
    requires r < |data| && FirstError(Flagged(data[..r]), step).None?
    requires e == FirstError(FlaggedIn(data[r].items), step)
    ensures FirstError(Flagged(data[..r + 1]), step) == e
    ensures e.Some? ==> FirstError(Flagged(data), step) == e
  {
    var done := data[..r + 1];
    TakeOneMore(data, r);
    FlaggedLast(done, data[..r], data[r]);
    FirstErrorAppend(Flagged(data[..r]), FlaggedIn(data[r].items), step);
    if e.Some? {
      var rest := data[r + 1..];
      TakeDrop(data, r + 1);
      FlaggedAppend(done, rest);
      FirstErrorAppend(Flagged(done), Flagged(rest), step);
    }
  }

  lemma FlaggedLast(data: seq<RegItems>, init: seq<RegItems>, last: RegItems)
    requires data != [] && init == data[..|data| - 1] && last == data[|data| - 1]
    ensures Flagged(data) == Flagged(init) + FlaggedIn(last.items)
  {
  }

  // ---------------------------------------------------------------------
  // The whole run (spsOption.go:30-267)
  // ---------------------------------------------------------------------

  /** The registry import of the push map (`registry.ImportOption.Run` with
    * All and Architecture): its error, and the digest it wrote into each
    * image it pushed. */
  type ImportRun = (seq<RegImages>, bool, Option<string>) -> (Option<string>, map<Image, string>)

  /** The patch run of the patch map with the prescan report paths and the
    * tar paths (`copa.PatchOption.Run`): its error, and the digest its push
    * pass wrote into each image it pushed. */
  type PatchRun = (seq<RegImages>, map<Image, string>, map<Image, string>) -> (Option<string>, map<Image, string>)

  /** The error of the steps after the prescan: the import of the push map,
    * the patch of the patch map, the final scan; the first error ends the
    * run. */
  function AfterPrescan(o: SpsOption, data: seq<RegItems>, parse: ParseAny, env: ScanEnv,
                        importRun: ImportRun, patchRun: PatchRun, s: Prescan): Option<string>
  {
    var m := RegistryMaps(data, s.patch, s.push);
    var pm := RunPaths(o, data, parse);
    var ie := importRun(m.1, o.all, o.architecture);
    if ie.0.Some? then ie.0
    else
      var pe := patchRun(m.0, pm.prescan, pm.tar);
      if pe.0.Some? then pe.0
      else FirstError(Flagged(data), Postscanner(o, parse, env, ie.1 + pe.1))
  }

  /** The digests the import of a run pushed. */
  function ImportedDigests(o: SpsOption, data: seq<RegItems>, parse: ParseAny, env: ScanEnv, importRun: ImportRun): map<Image, string>
  {
    var s := PrescanPass(Candidates(data), Decider(o, parse, env));
    importRun(RegistryMaps(data, s.patch, s.push).1, o.all, o.architecture).1
  }

  /** The digests the patch run of a run pushed. */
  function PatchedDigests(o: SpsOption, data: seq<RegItems>, parse: ParseAny, env: ScanEnv, patchRun: PatchRun): map<Image, string>
  {
    var s := PrescanPass(Candidates(data), Decider(o, parse, env));
    var pm := RunPaths(o, data, parse);
    patchRun(RegistryMaps(data, s.patch, s.push).0, pm.prescan, pm.tar).1
  }

  /** Every digest a run wrote; the patch run comes after the import. */
  function PushedDigests(o: SpsOption, data: seq<RegItems>, parse: ParseAny, env: ScanEnv,
                         importRun: ImportRun, patchRun: PatchRun): map<Image, string>
  {
    ImportedDigests(o, data, parse, env, importRun) + PatchedDigests(o, data, parse, env, patchRun)
  }

  /** An image is scanned at the end with the digest the patch run pushed
    * for it, else with the one the import pushed, else as it was. */
  lemma AsPushedSources(i: Image, imported: map<Image, string>, patched: map<Image, string>)
    ensures i in patched ==> AsPushed(i, imported + patched) == i.(digest := patched[i])
    ensures i !in patched && i in imported ==> AsPushed(i, imported + patched) == i.(digest := imported[i])
    ensures i !in patched && i !in imported ==> AsPushed(i, imported + patched) == i
  {
  }

  /** What `Run` returns and which files its deferred clean-up removes. */
  function SpsRun(o: SpsOption, data: seq<RegItems>, parse: ParseAny, env: ScanEnv,
                  importRun: ImportRun, patchRun: PatchRun): (Option<string>, set<string>)
  {
    if |Candidates(data)| == 0 then (None, {})
    else
      var s := PrescanPass(Candidates(data), Decider(o, parse, env));
      if s.err.Some? then (s.err, {})
      else (AfterPrescan(o, data, parse, env, importRun, patchRun, s), Removed(o, RunPaths(o, data, parse)))
  }

  /** `Run`: count the distinct flagged images and stop when there are none;
    * prescan them; build the registry maps and the path maps; import the
    * push map, patch the patch map and scan every flagged image again,
    * stopping at the first error; the clean-up runs on every return after
    * the path maps exist. */
  method Run(o: SpsOption, data: seq<RegItems>, parse: ParseAny, env: ScanEnv,
             importRun: ImportRun, patchRun: PatchRun)
    returns (err: Option<string>, removed: set<string>)
    ensures (err, removed) == SpsRun(o, data, parse, env, importRun, patchRun)
  {
    var lenImages := LenImages(data);
    if !(lenImages > 0) {
      return None, {};
    }
    var imgs := CollectImages(data);
    var patch, push, perr := PrescanLoop(o, imgs, parse, env);
    if perr.Some? {
      return perr, {};
    }
    var patchM, pushM := RegistryMapsLoop(data, patch, push);
    var pm := CollectPaths(o, data, parse);
    removed := Removed(o, pm);
    var imported := importRun(pushM, o.all, o.architecture);
    err := imported.0;
    if err.Some? {
      return;
    }
    var patched := patchRun(patchM, pm.prescan, pm.tar);
    err := patched.0;
    if err.Some? {
      return;
    }
    err := PostscanLoop(o, data, parse, env, imported.1 + patched.1);
  }

  /** With no flagged entry the run does nothing, whatever the scanner, the
    * import and the patch run would do. */
  lemma NothingFlagged(o: SpsOption, data: seq<RegItems>, parse: ParseAny, env: ScanEnv,
                       importRun: ImportRun, patchRun: PatchRun)
    requires forall r, k :: 0 <= r < |data| && 0 <= k < |data[r].items| ==> !data[r].items[k].flag
    ensures SpsRun(o, data, parse, env, importRun, patchRun) == (None, {})
  {
    NoCandidatesIff(data);
  }

  /** A prescan failure is returned before the clean-up is registered: no
    * file is removed, the reports already written included, and neither
    * the import nor the patch run is reached. */
  lemma PrescanFailureKeepsFiles(o: SpsOption, data: seq<RegItems>, parse: ParseAny, env: ScanEnv,
                                 importRun: ImportRun, patchRun: PatchRun)
    requires PrescanPass(Candidates(data), Decider(o, parse, env)).err.Some?
    ensures SpsRun(o, data, parse, env, importRun, patchRun)
            == (PrescanPass(Candidates(data), Decider(o, parse, env)).err, {})
    ensures forall importRun', patchRun' :: SpsRun(o, data, parse, env, importRun', patchRun')
                                             == SpsRun(o, data, parse, env, importRun, patchRun)
  {
    var c := Candidates(data);
    if |c| == 0 {
      assert false;
    }
  }

  /** A run that succeeds scanned every flagged image again without
    * error, each with the digest the patch run or else the import pushed
    * for it, if any. */
  lemma SuccessfulRunScanned(o: SpsOption, data: seq<RegItems>, parse: ParseAny, env: ScanEnv,
                             importRun: ImportRun, patchRun: PatchRun)
    requires SpsRun(o, data, parse, env, importRun, patchRun).0.None?
    ensures var imported := ImportedDigests(o, data, parse, env, importRun);
            var patched := PatchedDigests(o, data, parse, env, patchRun);
            forall i :: i in Flagged(data) ==> PostscanOne(o, AsPushed(i, imported + patched), parse, env).None?
  {
    var pushed := PushedDigests(o, data, parse, env, importRun, patchRun);
    if |Candidates(data)| == 0 {
      NoCandidatesIff(data);
      assert Flagged(data) == [];
    } else {
      var step := Postscanner(o, parse, env, pushed);
      assert FirstError(Flagged(data), step).None? by {
        SuccessfulRunPostscan(o, data, parse, env, importRun, patchRun);
      }
      forall i | i in Flagged(data)
        ensures PostscanOne(o, AsPushed(i, pushed), parse, env).None?
      {
        FirstErrorNoneEach(Flagged(data), step, i);
      }
    }
  }

  /** A successful run with candidates got through the final scan. */
  lemma SuccessfulRunPostscan(o: SpsOption, data: seq<RegItems>, parse: ParseAny, env: ScanEnv,
                              importRun: ImportRun, patchRun: PatchRun)
    requires |Candidates(data)| > 0 && SpsRun(o, data, parse, env, importRun, patchRun).0.None?
    ensures FirstError(Flagged(data), Postscanner(o, parse, env, PushedDigests(o, data, parse, env, importRun, patchRun))).None?
  {
  }

  lemma FirstErrorNoneEach(imgs: seq<Image>, step: Step, x: Image)
    requires FirstError(imgs, step).None? && x in imgs
    ensures step(x).None?
  {
    FirstErrorIff(imgs, step);
    var k :| 0 <= k < |imgs| && imgs[k] == x;
  }

  /** A run removes the files of the path maps, or nothing. */
  lemma SpsRunRemoves(o: SpsOption, data: seq<RegItems>, parse: ParseAny, env: ScanEnv,
                      importRun: ImportRun, patchRun: PatchRun)
    ensures var rm := SpsRun(o, data, parse, env, importRun, patchRun).1;
            rm == {} || rm == Removed(o, RunPaths(o, data, parse))
  {
  }

  /** With plain folders, the files a run removes lie directly in the
    * reports or the tars folder, as ReportsClean and TarsClean select. */
  lemma RunRemovesInFolders(o: SpsOption, data: seq<RegItems>, parse: ParseAny, env: ScanEnv,
                            importRun: ImportRun, patchRun: PatchRun)
    requires PlainPath(o.reportsFolder) && PlainPath(o.tarsFolder)
    ensures var rm := SpsRun(o, data, parse, env, importRun, patchRun).1;
            forall f :: f in rm ==> (o.reportsClean && DirectlyIn(f, o.reportsFolder))
                                    || (o.tarsClean && DirectlyIn(f, o.tarsFolder))
  {
    var rm := SpsRun(o, data, parse, env, importRun, patchRun).1;
    var all := Removed(o, RunPaths(o, data, parse));
    assert rm <= all by {
      SpsRunRemoves(o, data, parse, env, importRun, patchRun);
    }
    assert forall f :: f in all ==> (o.reportsClean && DirectlyIn(f, o.reportsFolder))
                                    || (o.tarsClean && DirectlyIn(f, o.tarsFolder)) by {
      RemovedInFolders(o, data, parse);
    }
  }
}
