/** pkg/helm/chartImportOption.go: the per-registry status maps that decide
  * which charts and images are imported, and the chart import run that
  * schedules charts and their remote dependencies, sorts them by dependency
  * count and pushes those the registry lacks. Registry checks, chart loading,
  * sorting and pushing are parameters. */
module ChartImport {
  import opened Wrappers
  import opened Seqs
  import opened Strs
  import opened Reference
  import opened RegistryImages
  import opened Registries
  import opened Charts
  import ChartOption

  type Dependency = ChartOption.Dependency

  /** One key of `chartImageValuesMap`: a chart and the images found in it
    * (their value paths play no part here). */
  datatype ChartImages = ChartImages(chart: Chart, images: seq<Image>)

  function ChartsOf(data: seq<ChartImages>): (r: seq<Chart>)
    ensures |r| == |data| && forall k :: 0 <= k < |data| ==> r[k] == data[k].chart
  {
    seq(|data|, k requires 0 <= k < |data| => data[k].chart)
  }

  function ImagesOf(data: seq<ChartImages>): (r: seq<seq<Image>>)
    ensures |r| == |data| && forall k :: 0 <= k < |data| ==> r[k] == data[k].images
  {
    seq(|data|, k requires 0 <= k < |data| => data[k].images)
  }

  // ---------------------------------------------------------------------
  // IdentifyImportCandidates (chartImportOption.go:28-160)
  // ---------------------------------------------------------------------

  /** Whether a chart is imported into a registry: always with `all`,
    * otherwise when "charts/<name>" at its version is missing there. */
  function ChartFlag(r: Registry, c: Chart, all: bool, fetch: Fetch): bool
  {
    all || !ExistsIn(r, "charts/" + c.name, c.version, fetch)
  }

  /** Whether an image is imported into a registry. */
  function ImageFlag(r: Registry, name: string, i: Image, all: bool, fetch: Fetch): bool
  {
    all || !ExistsIn(r, name, i.tag, fetch)
  }

  /** One registry's chart statuses: every chart but those named "images". */
  function ChartFlags(cs: seq<Chart>, r: Registry, all: bool, fetch: Fetch): seq<(Chart, bool)>
    decreases |cs|
  {
    if cs == [] then []
    else
      var prev := ChartFlags(cs[..|cs| - 1], r, all, fetch);
      var c := cs[|cs| - 1];
      if c.name == "images" then prev else prev + [(c, ChartFlag(r, c, all, fetch))]
  }

  /** Every registry's row extended by one image and its flag. */
  function Extend(m: seq<seq<(Image, bool)>>, rs: seq<Registry>, x: Image, name: string, all: bool, fetch: Fetch)
    : (r: seq<seq<(Image, bool)>>)
    requires |m| == |rs|
    ensures |r| == |rs|
  {
    seq(|rs|, j requires 0 <= j < |rs| => m[j] + [(x, ImageFlag(rs[j], name, x, all, fetch))])
  }

  /** The image statuses of every registry, built image by image: an image
    * already considered (same registry, repository and tag) is skipped; the
    * first considered image whose name does not parse ends the run. */
  function ImageStatus(xs: seq<Image>, rs: seq<Registry>, all: bool, fetch: Fetch, parse: ParseAny)
    : Result<seq<seq<(Image, bool)>>>
    decreases |xs|
  {
    if xs == [] then Ok(seq(|rs|, _ => []))
    else
      var prev := ImageStatus(xs[..|xs| - 1], rs, all, fetch, parse);
      var x := xs[|xs| - 1];
      if prev.Err? || In(x, ChartOption.Seen(xs[..|xs| - 1])) then prev
      else if |prev.value| != |rs| then prev
      else
        var name := ImageName(x, parse);
        if name.Err? then Err(name.error)
        else Ok(Extend(prev.value, rs, x, name.value, all, fetch))
  }

  /** The registry's answer as `IdentifyImportCandidates` reads it: the
    * status map of `Exists` over that one registry, at its URL. */
  method ExistsInRegistry(r: Registry, ref: string, tag: string, fetch: Fetch) returns (b: bool)
    ensures b == ExistsIn(r, ref, tag, fetch)
  {
    var m := Exists(ref, tag, [r], fetch);
    assert LastWithUrl([r], 0);
    b := m[r.url];
  }

  method IdentifyImportCandidates(rs: seq<Registry>, data: seq<ChartImages>, all: bool, fetch: Fetch, parse: ParseAny)
    returns (res: Result<(seq<seq<(Chart, bool)>>, seq<seq<(Image, bool)>>)>)
    ensures var images := ImageStatus(ChartOption.Flatten(ImagesOf(data)), rs, all, fetch, parse);
            (images.Err? ==> res == Err(images.error))
            && (images.Ok? ==> res == Ok((seq(|rs|, j requires 0 <= j < |rs| => ChartFlags(ChartsOf(data), rs[j], all, fetch)),
                                          images.value)))
  {
    var m1 := ChartStatusLoop(rs, data, all, fetch);
    var m2 := ImageStatusLoop(rs, ImagesOf(data), all, fetch, parse);
    if m2.Err? {
      return Err(m2.error);
    }
    return Ok((m1, m2.value));
  }

  /** `m1` as written: `m1[&r]` and `elem[&c]` take the addresses of the
    * loop variables, which Go 1.22 and later make new on every iteration, so
    * every (chart, registry) pair is a key of its own holding a one-entry
    * map. Listed chart by chart, registry by registry. */
  function PointerKeyedChartStatus(cs: seq<Chart>, rs: seq<Registry>, all: bool, fetch: Fetch)
    : seq<(Registry, seq<(Chart, bool)>)>
    decreases |cs|
  {
    if cs == [] then []
    else
      var prev := PointerKeyedChartStatus(cs[..|cs| - 1], rs, all, fetch);
      var c := cs[|cs| - 1];
      if c.name == "images" then prev
      else prev + seq(|rs|, j requires 0 <= j < |rs| => (rs[j], [(c, ChartFlag(rs[j], c, all, fetch))]))
  }

  /** In memory the two shapes carry the same statuses: a pointer key holds
    * one chart, and (registry, chart, flag) is a key's entry exactly when
    * the chart is in that registry's grouped row with that flag. */
  lemma {:induction false} PointerKeyedSameFlags(cs: seq<Chart>, rs: seq<Registry>, all: bool, fetch: Fetch,
                                                  r: Registry, c: Chart, b: bool)
    ensures forall k :: 0 <= k < |PointerKeyedChartStatus(cs, rs, all, fetch)| ==>
              |PointerKeyedChartStatus(cs, rs, all, fetch)[k].1| == 1
    ensures (r, [(c, b)]) in PointerKeyedChartStatus(cs, rs, all, fetch)
            <==> r in rs && (c, b) in ChartFlags(cs, r, all, fetch)
    decreases |cs|
  {
    if cs != [] {
      var init := cs[..|cs| - 1];
      var last := cs[|cs| - 1];
      PointerKeyedSameFlags(init, rs, all, fetch, r, c, b);
      var prev := PointerKeyedChartStatus(init, rs, all, fetch);
      if last.name != "images" {
        var added := seq(|rs|, j requires 0 <= j < |rs| => (rs[j], [(last, ChartFlag(rs[j], last, all, fetch))]));
        assert PointerKeyedChartStatus(cs, rs, all, fetch) == prev + added;
        assert (r, [(c, b)]) in added <==> r in rs && c == last && b == ChartFlag(r, last, all, fetch) by {
          if r in rs && c == last && b == ChartFlag(r, last, all, fetch) {
            var j :| 0 <= j < |rs| && rs[j] == r;
            assert added[j] == (r, [(c, b)]);
          }
        }
      }
    }
  }

  /** The first loop: a row per chart, a status per registry. */
  method ChartStatusLoop(rs: seq<Registry>, data: seq<ChartImages>, all: bool, fetch: Fetch)
    returns (m1: seq<seq<(Chart, bool)>>)
    ensures m1 == seq(|rs|, j requires 0 <= j < |rs| => ChartFlags(ChartsOf(data), rs[j], all, fetch))
  {
    var cs := ChartsOf(data);
    m1 := seq(|rs|, _ => []);
    for i := 0 to |data|
      invariant |m1| == |rs|
      invariant forall j :: 0 <= j < |rs| ==> m1[j] == ChartFlags(cs[..i], rs[j], all, fetch)
    {
      assert cs[..i + 1][..i] == cs[..i];
      var c := data[i].chart;
      if c.name == "images" {
        continue;
      }
      var n := "charts/" + c.name;
      var v := c.version;
      for j := 0 to |rs|
        invariant |m1| == |rs|
        invariant forall k :: 0 <= k < j ==> m1[k] == ChartFlags(cs[..i + 1], rs[k], all, fetch)
        invariant forall k :: j <= k < |rs| ==> m1[k] == ChartFlags(cs[..i], rs[k], all, fetch)
      {
        var existsInRegistry := ExistsInRegistry(rs[j], n, v, fetch);
        var b := all || !existsInRegistry;
        m1 := m1[j := m1[j] + [(c, b)]];
      }
    }
    assert cs[..|data|] == cs;
  }

  /** The second loop: each image once, a status per registry. */
  method ImageStatusLoop(rs: seq<Registry>, charts: seq<seq<Image>>, all: bool, fetch: Fetch, parse: ParseAny)
    returns (m2: Result<seq<seq<(Image, bool)>>>)
    ensures m2 == ImageStatus(ChartOption.Flatten(charts), rs, all, fetch, parse)
  {
    var m: seq<seq<(Image, bool)>> := seq(|rs|, _ => []);
    var seen: seq<Image> := [];
    ghost var done: seq<Image> := [];
    for c := 0 to |charts|
      invariant done == ChartOption.Flatten(charts[..c])
      invariant seen == ChartOption.Seen(done) && ImageStatus(done, rs, all, fetch, parse) == Ok(m)
      invariant |m| == |rs|
    {
      assert charts[..c + 1][..c] == charts[..c];
      var step := ChartImageStatus(rs, charts[c], done, seen, m, all, fetch, parse);
      if step.Err? {
        assert ChartOption.Flatten(charts[..c + 1]) == done + charts[c];
        ImageStatusStopsAt(charts, c, rs, all, fetch, parse);
        return Err(step.error);
      }
      done := done + charts[c];
      seen, m := step.value.0, step.value.1;
    }
    assert charts[..|charts|] == charts;
    return Ok(m);
  }

  /** The images of one chart, continuing from the images before it. */
  method ChartImageStatus(rs: seq<Registry>, xs: seq<Image>, ghost done: seq<Image>, seen0: seq<Image>,
                          m0: seq<seq<(Image, bool)>>, all: bool, fetch: Fetch, parse: ParseAny)
    returns (res: Result<(seq<Image>, seq<seq<(Image, bool)>>)>)
    requires seen0 == ChartOption.Seen(done) && ImageStatus(done, rs, all, fetch, parse) == Ok(m0) && |m0| == |rs|
    ensures var after := ImageStatus(done + xs, rs, all, fetch, parse);
            (after.Err? ==> res == Err(after.error))
            && (after.Ok? ==> res == Ok((ChartOption.Seen(done + xs), after.value)) && |after.value| == |rs|)
  {
    var seen, m := seen0, m0;
    ghost var cur := done;
    for k := 0 to |xs|
      invariant cur == done + xs[..k]
      invariant seen == ChartOption.Seen(cur) && ImageStatus(cur, rs, all, fetch, parse) == Ok(m)
      invariant |m| == |rs|
    {
      var i := xs[k];
      AppendSliceNext(done, xs, k);
      if In(i, seen) {
        ImageStatusSkips(cur, i, rs, all, fetch, parse);
        cur := cur + [i];
        continue;
      }
      var name := ImageName(i, parse);
      if name.Err? {
        ImageStatusFails(cur, i, rs, all, fetch, parse);
        AppendRest(done, xs, k);
        ImageStatusErrSticks(cur + [i], xs[k + 1..], rs, all, fetch, parse);
        return Err(name.error);
      }
      ImageStatusExtends(cur, i, rs, all, fetch, parse);
      seen := seen + [i];
      m := AddImageRow(rs, m, i, name.value, all, fetch);
      cur := cur + [i];
    }
    AppendAll(done, xs);
    return Ok((seen, m));
  }

  /** The inner registry loop for one image. */
  method AddImageRow(rs: seq<Registry>, m: seq<seq<(Image, bool)>>, i: Image, name: string, all: bool, fetch: Fetch)
    returns (m': seq<seq<(Image, bool)>>)
    requires |m| == |rs|
    ensures m' == Extend(m, rs, i, name, all, fetch)
  {
    m' := m;
    for j := 0 to |rs|
      invariant |m'| == |rs|
      invariant forall q :: 0 <= q < j ==> m'[q] == m[q] + [(i, ImageFlag(rs[q], name, i, all, fetch))]
      invariant forall q :: j <= q < |rs| ==> m'[q] == m[q]
    {
      var imageExistsInRegistry := ExistsInRegistry(rs[j], name, i.tag, fetch);
      var b := all || !imageExistsInRegistry;
      m' := m'[j := m'[j] + [(i, b)]];
    }
  }

  lemma ImageStatusSkips(done: seq<Image>, i: Image, rs: seq<Registry>, all: bool, fetch: Fetch, parse: ParseAny)
    requires In(i, ChartOption.Seen(done))
    ensures ChartOption.Seen(done + [i]) == ChartOption.Seen(done)
    ensures ImageStatus(done + [i], rs, all, fetch, parse) == ImageStatus(done, rs, all, fetch, parse)
  {
    assert (done + [i])[..|done + [i]| - 1] == done;
  }

  lemma ImageStatusExtends(done: seq<Image>, i: Image, rs: seq<Registry>, all: bool, fetch: Fetch, parse: ParseAny)
    requires !In(i, ChartOption.Seen(done)) && ImageName(i, parse).Ok?
    requires ImageStatus(done, rs, all, fetch, parse).Ok? && |ImageStatus(done, rs, all, fetch, parse).value| == |rs|
    ensures ChartOption.Seen(done + [i]) == ChartOption.Seen(done) + [i]
    ensures ImageStatus(done + [i], rs, all, fetch, parse)
            == Ok(Extend(ImageStatus(done, rs, all, fetch, parse).value, rs, i, ImageName(i, parse).value, all, fetch))
  {
    assert (done + [i])[..|done + [i]| - 1] == done;
  }

  lemma ImageStatusFails(done: seq<Image>, i: Image, rs: seq<Registry>, all: bool, fetch: Fetch, parse: ParseAny)
    requires !In(i, ChartOption.Seen(done)) && ImageName(i, parse).Err?
    requires ImageStatus(done, rs, all, fetch, parse).Ok? && |ImageStatus(done, rs, all, fetch, parse).value| == |rs|
    ensures ImageStatus(done + [i], rs, all, fetch, parse) == Err(ImageName(i, parse).error)
  {
    assert (done + [i])[..|done + [i]| - 1] == done;
  }

  /** A failure in the images of chart `c` is the failure of all charts. */
  lemma ImageStatusStopsAt(charts: seq<seq<Image>>, c: nat, rs: seq<Registry>, all: bool, fetch: Fetch, parse: ParseAny)
    requires c < |charts|
    requires ImageStatus(ChartOption.Flatten(charts[..c + 1]), rs, all, fetch, parse).Err?
    ensures ImageStatus(ChartOption.Flatten(charts), rs, all, fetch, parse)
            == ImageStatus(ChartOption.Flatten(charts[..c + 1]), rs, all, fetch, parse)
  {
    FlattenAppend(charts[..c + 1], charts[c + 1..]);
    assert charts[..c + 1] + charts[c + 1..] == charts;
    ImageStatusErrSticks(ChartOption.Flatten(charts[..c + 1]), ChartOption.Flatten(charts[c + 1..]), rs, all, fetch, parse);
  }

  /** Once the image statuses fail, further images change nothing. */
  lemma {:induction false} ImageStatusErrSticks(a: seq<Image>, b: seq<Image>, rs: seq<Registry>, all: bool, fetch: Fetch, parse: ParseAny)
    requires ImageStatus(a, rs, all, fetch, parse).Err?
    ensures ImageStatus(a + b, rs, all, fetch, parse) == ImageStatus(a, rs, all, fetch, parse)
    decreases |b|
  {
    if b == [] {
      assert a + b == a;
    } else {
      assert (a + b)[..|a + b| - 1] == a + b[..|b| - 1];
      ImageStatusErrSticks(a, b[..|b| - 1], rs, all, fetch, parse);
    }
  }

  lemma {:induction false} FlattenAppend(a: seq<seq<Image>>, b: seq<seq<Image>>)
    ensures ChartOption.Flatten(a + b) == ChartOption.Flatten(a) + ChartOption.Flatten(b)
    decreases |b|
  {
    if b == [] {
      assert a + b == a;
    } else {
      assert (a + b)[..|a + b| - 1] == a + b[..|b| - 1];
      FlattenAppend(a, b[..|b| - 1]);
    }
  }

  /** A chart named "images" gets no status; every other chart gets one,
    * equal to `all || !exists`, in chart order. */
  lemma {:induction false} ChartFlagsMembers(cs: seq<Chart>, r: Registry, all: bool, fetch: Fetch, c: Chart, b: bool)
    ensures (c, b) in ChartFlags(cs, r, all, fetch) <==> c in cs && c.name != "images" && b == ChartFlag(r, c, all, fetch)
    decreases |cs|
  {
    if cs != [] {
      var init := cs[..|cs| - 1];
      ChartFlagsMembers(init, r, all, fetch, c, b);
      assert cs == init + [cs[|cs| - 1]];
    }
  }

  /** When the image statuses succeed, each registry lists exactly the
    * distinct images, in first-seen order, each with `all || !exists` for
    * its name. */
  lemma {:induction false} ImageStatusOk(xs: seq<Image>, rs: seq<Registry>, all: bool, fetch: Fetch, parse: ParseAny)
    requires ImageStatus(xs, rs, all, fetch, parse).Ok?
    ensures var m := ImageStatus(xs, rs, all, fetch, parse).value;
            var seen := ChartOption.Seen(xs);
            |m| == |rs|
            && forall j :: 0 <= j < |rs| ==>
                 |m[j]| == |seen|
                 && forall q :: 0 <= q < |seen| ==>
                      ImageName(seen[q], parse).Ok?
                      && m[j][q] == (seen[q], ImageFlag(rs[j], ImageName(seen[q], parse).value, seen[q], all, fetch))
    decreases |xs|
  {
    if xs != [] {
      var p := xs[..|xs| - 1];
      var x := xs[|xs| - 1];
      ImageStatusOk(p, rs, all, fetch, parse);
      if !In(x, ChartOption.Seen(p)) {
        var s := ChartOption.Seen(p) + [x];
        assert ChartOption.Seen(xs) == s;
        forall q | 0 <= q < |ChartOption.Seen(p)|
          ensures s[q] == ChartOption.Seen(p)[q]
        {
        }
      }
    }
  }

  lemma {:induction false} ImageStatusLength(xs: seq<Image>, rs: seq<Registry>, all: bool, fetch: Fetch, parse: ParseAny)
    requires ImageStatus(xs, rs, all, fetch, parse).Ok?
    ensures |ImageStatus(xs, rs, all, fetch, parse).value| == |rs|
    decreases |xs|
  {
    if xs != [] {
      ImageStatusLength(xs[..|xs| - 1], rs, all, fetch, parse);
    }
  }

  /** The image statuses fail iff some distinct image's name fails. */
  lemma {:induction false} ImageStatusErrIff(xs: seq<Image>, rs: seq<Registry>, all: bool, fetch: Fetch, parse: ParseAny)
    ensures ImageStatus(xs, rs, all, fetch, parse).Err? <==> SomeNameFails(ChartOption.Seen(xs), parse)
    decreases |xs|
  {
    if xs != [] {
      var p := xs[..|xs| - 1];
      var x := xs[|xs| - 1];
      ImageStatusErrIff(p, rs, all, fetch, parse);
      var sp := ChartOption.Seen(p);
      if In(x, sp) {
        assert ChartOption.Seen(xs) == sp;
        assert ImageStatus(xs, rs, all, fetch, parse) == ImageStatus(p, rs, all, fetch, parse);
      } else if ImageStatus(p, rs, all, fetch, parse).Err? {
        var s := sp + [x];
        assert ChartOption.Seen(xs) == s;
        ImageNameLast(sp, x, parse);
      } else {
        var s := sp + [x];
        assert ChartOption.Seen(xs) == s;
        ImageStatusLength(p, rs, all, fetch, parse);
        ImageNameLast(sp, x, parse);
      }
    }
  }

  /** Some image's name does not parse. */
  predicate SomeNameFails(s: seq<Image>, parse: ParseAny)
  {
    exists q :: 0 <= q < |s| && ImageName(s[q], parse).Err?
  }

  /** One more image fails a name check iff it or an earlier one does. */
  lemma ImageNameLast(sp: seq<Image>, x: Image, parse: ParseAny)
    ensures SomeNameFails(sp + [x], parse) <==> SomeNameFails(sp, parse) || ImageName(x, parse).Err?
  {
    var s := sp + [x];
    if exists q :: 0 <= q < |s| && ImageName(s[q], parse).Err? {
      var q :| 0 <= q < |s| && ImageName(s[q], parse).Err?;
      if q < |sp| {
        assert sp[q] == s[q];
      }
    }
    if exists q :: 0 <= q < |sp| && ImageName(sp[q], parse).Err? {
      var q :| 0 <= q < |sp| && ImageName(sp[q], parse).Err?;
      assert s[q] == sp[q];
    }
    if ImageName(x, parse).Err? {
      assert s[|sp|] == x;
    }
  }

  // ---------------------------------------------------------------------
  // ChartImportOption.Run (chartImportOption.go:162-300)
  // ---------------------------------------------------------------------

  /** The chart operations `Run` calls: `dependencies` loads a chart and
    * lists the dependencies its metadata declares; `toChart` is
    * `DependencyToChart`; `resolveVersion` resolves a wildcard version;
    * `sortByDeps` is the `sort.Slice` by `DepsCount`; `fetch` backs the
    * registry existence check; `push` is the error, if any, of pushing a chart
    * to a registry (with modification when the flag says so). */
  datatype ImportOps = ImportOps(
    dependencies: Chart -> Result<seq<Dependency>>,
    toChart: (Dependency, Chart) -> Chart,
    resolveVersion: Chart -> Result<string>,
    sortByDeps: seq<Chart> -> seq<Chart>,
    fetch: Fetch,
    push: (Chart, Registry, bool) -> Option<string>)

  /** A push that happened: chart, registry and whether it was modified. */
  datatype Pushed = Pushed(registry: Registry, chart: Chart, modified: bool)

  /** `opt.Data`: per registry, the charts with their import flags. */
  type ChartStatus = seq<(Registry, seq<(Chart, bool)>)>

  function CountTrue(m: seq<(Chart, bool)>): nat
    decreases |m|
  {
    if m == [] then 0 else CountTrue(m[..|m| - 1]) + (if m[|m| - 1].1 then 1 else 0)
  }

  /** The workload `size`: how many flags are true over all registries. */
  function Size(data: ChartStatus): nat
    decreases |data|
  {
    if data == [] then 0 else Size(data[..|data| - 1]) + CountTrue(data[|data| - 1].1)
  }

  method CountSize(data: ChartStatus) returns (size: nat)
    ensures size == Size(data)
  {
    size := 0;
    for i := 0 to |data|
      invariant size == Size(data[..i])
    {
      assert data[..i + 1][..i] == data[..i];
      var m := data[i].1;
      for k := 0 to |m|
        invariant size == Size(data[..i]) + CountTrue(m[..k])
      {
        assert m[..k + 1][..k] == m[..k];
        if m[k].1 {
          size := size + 1;
        }
      }
      assert m[..|m|] == m;
    }
    assert data[..|data|] == data;
  }

  /** A dependency's chart: a version with "*" is replaced by the resolved
    * one, and kept when resolution fails. */
  function DependencyChart(d: Dependency, parent: Chart, ops: ImportOps): (c: Chart)
    ensures var base := ops.toChart(d, parent);
            (!Contains(base.version, "*") ==> c == base)
            && (Contains(base.version, "*") && ops.resolveVersion(base).Ok? ==> c == base.(version := ops.resolveVersion(base).value))
            && (Contains(base.version, "*") && ops.resolveVersion(base).Err? ==> c == base)
  {
    var base := ops.toChart(d, parent);
    if Contains(base.version, "*") && ops.resolveVersion(base).Ok? then base.(version := ops.resolveVersion(base).value)
    else base
  }

  /** The remote dependencies' charts, in declaration order; embedded ones
    * (empty or "file://" repository) are skipped. */
  function DependencyCharts(deps: seq<Dependency>, parent: Chart, ops: ImportOps): seq<Chart>
    decreases |deps|
  {
    if deps == [] then []
    else
      var prev := DependencyCharts(deps[..|deps| - 1], parent, ops);
      var d := deps[|deps| - 1];
      if ChartOption.IsEmbedded(d) then prev else prev + [DependencyChart(d, parent, ops)]
  }

  /** The charts one registry schedules, before sorting: each flagged chart
    * with its dependency count, followed by its remote dependencies; the
    * first chart that fails to load ends the run. */
  function Scheduled(m: seq<(Chart, bool)>, ops: ImportOps): Result<seq<Chart>>
    decreases |m|
  {
    if m == [] then Ok([])
    else
      var prev := Scheduled(m[..|m| - 1], ops);
      var (c, b) := m[|m| - 1];
      if prev.Err? || !b then prev
      else
        var deps := ops.dependencies(c);
        if deps.Err? then Err(deps.error)
        else
          var counted := c.(depsCount := |deps.value|);
          Ok(prev.value + [counted] + DependencyCharts(deps.value, counted, ops))
  }

  /** The error `Run` reports for a failed push. */
  function PushError(c: Chart, r: Registry, andModify: bool, err: string): string
  {
    (if andModify then "helm: error pushing and modifying chart " else "helm: error pushing chart ")
    + c.name + " to registry " + "oci://" + r.url + "/charts" + " :: " + err
  }

  /** Whether the push loop skips a chart: "images", or (without `all`) a
    * chart the registry already has. */
  predicate Skipped(c: Chart, r: Registry, all: bool, fetch: Fetch)
  {
    c.name == "images" || (!all && RegistryExist(r, "charts/" + c.name, c.version, fetch).1.None?)
  }

  /** The push loop over a registry's sorted charts: the first failed push
    * ends the run. */
  function PushOutcome(cs: seq<Chart>, r: Registry, all: bool, andModify: bool, ops: ImportOps): Result<seq<Pushed>>
  {
    if cs == [] then Ok([])
    else if Skipped(cs[0], r, all, ops.fetch) then PushOutcome(cs[1..], r, all, andModify, ops)
    else if ops.push(cs[0], r, andModify).Some? then Err(PushError(cs[0], r, andModify, ops.push(cs[0], r, andModify).value))
    else
      var rest := PushOutcome(cs[1..], r, all, andModify, ops);
      if rest.Err? then rest else Ok([Pushed(r, cs[0], andModify)] + rest.value)
  }

  /** One registry: schedule, sort, push. */
  function RegistryRun(r: Registry, m: seq<(Chart, bool)>, all: bool, andModify: bool, ops: ImportOps): Result<seq<Pushed>>
  {
    var s := Scheduled(m, ops);
    if s.Err? then Err(s.error)
    else PushOutcome(ops.sortByDeps(s.value), r, all, andModify, ops)
  }

  /** All registries in turn; the first failure ends the run. */
  function RunAll(data: ChartStatus, all: bool, andModify: bool, ops: ImportOps): Result<seq<Pushed>>
    decreases |data|
  {
    if data == [] then Ok([])
    else
      var prev := RunAll(data[..|data| - 1], all, andModify, ops);
      if prev.Err? then prev
      else
        var step := RegistryRun(data[|data| - 1].0, data[|data| - 1].1, all, andModify, ops);
        if step.Err? then step else Ok(prev.value + step.value)
  }

  /** `Run`: nothing at all when no flag is set. */
  function RunOutcome(data: ChartStatus, all: bool, andModify: bool, ops: ImportOps): Result<seq<Pushed>>
  {
    if Size(data) == 0 then Ok([]) else RunAll(data, all, andModify, ops)
  }

  method Schedule(m: seq<(Chart, bool)>, ops: ImportOps) returns (res: Result<seq<Chart>>)
    ensures res == Scheduled(m, ops)
  {
    var charts: seq<Chart> := [];
    for k := 0 to |m|
      invariant Scheduled(m[..k], ops) == Ok(charts)
    {
      assert m[..k + 1][..k] == m[..k];
      var (c, b) := m[k];
      if !b {
        continue;
      }
      var deps := ops.dependencies(c);
      if deps.Err? {
        ScheduledErrSticks(m[..k + 1], m[k + 1..], ops);
        assert m[..k + 1] + m[k + 1..] == m;
        return Err(deps.error);
      }
      c := c.(depsCount := |deps.value|);
      charts := charts + [c];
      for q := 0 to |deps.value|
        invariant charts == Scheduled(m[..k], ops).value + [c] + DependencyCharts(deps.value[..q], c, ops)
      {
        assert deps.value[..q + 1][..q] == deps.value[..q];
        var d := deps.value[q];
        if d.repository == "" || HasPrefix(d.repository, "file://") {
          continue;
        }
        var chart := ops.toChart(d, c);
        if Contains(chart.version, "*") {
          var v := ops.resolveVersion(chart);
          if v.Ok? {
            chart := chart.(version := v.value);
          }
        }
        charts := charts + [chart];
      }
      assert deps.value[..|deps.value|] == deps.value;
    }
    assert m[..|m|] == m;
    return Ok(charts);
  }

  lemma {:induction false} ScheduledErrSticks(a: seq<(Chart, bool)>, b: seq<(Chart, bool)>, ops: ImportOps)
    requires Scheduled(a, ops).Err?
    ensures Scheduled(a + b, ops) == Scheduled(a, ops)
    decreases |b|
  {
    if b == [] {
      assert a + b == a;
    } else {
      assert (a + b)[..|a + b| - 1] == a + b[..|b| - 1];
      ScheduledErrSticks(a, b[..|b| - 1], ops);
    }
  }

  method PushCharts(cs: seq<Chart>, r: Registry, all: bool, andModify: bool, ops: ImportOps) returns (res: Result<seq<Pushed>>)
    ensures res == PushOutcome(cs, r, all, andModify, ops)
  {
    var pushed: seq<Pushed> := [];
    assert cs[0..] == cs;
    assert PushOutcome(cs, r, all, andModify, ops).Ok? ==> [] + PushOutcome(cs, r, all, andModify, ops).value == PushOutcome(cs, r, all, andModify, ops).value;
    for i := 0 to |cs|
      invariant PushOutcome(cs, r, all, andModify, ops) == Prefixed(pushed, PushOutcome(cs[i..], r, all, andModify, ops))
    {
      assert cs[i..][1..] == cs[i + 1..];
      var c := cs[i];
      if c.name == "images" {
        continue;
      }
      if !all {
        var (_, err) := RegistryExist(r, "charts/" + c.name, c.version, ops.fetch);
        if err.None? {
          continue;
        }
      }
      var failed := ops.push(c, r, andModify);
      if failed.Some? {
        return Err(PushError(c, r, andModify, failed.value));
      }
      PrefixedAssoc(pushed, Pushed(r, c, andModify), PushOutcome(cs[i + 1..], r, all, andModify, ops));
      pushed := pushed + [Pushed(r, c, andModify)];
    }
    assert cs[|cs|..] == [];
    assert pushed + [] == pushed;
    return Ok(pushed);
  }

  /** A result with some pushes done before it. */
  function Prefixed(done: seq<Pushed>, rest: Result<seq<Pushed>>): Result<seq<Pushed>>
  {
    if rest.Err? then rest else Ok(done + rest.value)
  }

  lemma PrefixedAssoc(done: seq<Pushed>, p: Pushed, rest: Result<seq<Pushed>>)
    ensures Prefixed(done, if rest.Err? then rest else Ok([p] + rest.value)) == Prefixed(done + [p], rest)
  {
    if rest.Ok? {
      assert done + ([p] + rest.value) == done + [p] + rest.value;
    }
  }

  method Run(data: ChartStatus, all: bool, andModify: bool, ops: ImportOps) returns (res: Result<seq<Pushed>>)
    ensures res == RunOutcome(data, all, andModify, ops)
  {
    var size := CountSize(data);
    if !(size > 0) {
      return Ok([]);
    }
    var pushed: seq<Pushed> := [];
    for i := 0 to |data|
      invariant RunAll(data[..i], all, andModify, ops) == Ok(pushed)
    {
      var (r, m) := data[i];
      var step := RunRegistry(r, m, all, andModify, ops);
      RunAllStep(data, i, pushed, step, all, andModify, ops);
      if step.Err? {
        return step;
      }
      pushed := pushed + step.value;
    }
    assert data[..|data|] == data;
    return Ok(pushed);
  }

  /** One registry of `Run`: schedule its charts, sort them, push them. */
  method RunRegistry(r: Registry, m: seq<(Chart, bool)>, all: bool, andModify: bool, ops: ImportOps)
    returns (res: Result<seq<Pushed>>)
    ensures res == RegistryRun(r, m, all, andModify, ops)
  {
    var charts := Schedule(m, ops);
    if charts.Err? {
      return Err(charts.error);
    }
    var sorted := ops.sortByDeps(charts.value);
    res := PushCharts(sorted, r, all, andModify, ops);
  }

  /** One registry further: its failure is the failure of the run, its
    * pushes follow those before it. */
  lemma RunAllStep(data: ChartStatus, i: nat, pushed: seq<Pushed>, step: Result<seq<Pushed>>,
                   all: bool, andModify: bool, ops: ImportOps)
    requires i < |data| && RunAll(data[..i], all, andModify, ops) == Ok(pushed)
    requires step == RegistryRun(data[i].0, data[i].1, all, andModify, ops)
    ensures step.Err? ==> RunAll(data, all, andModify, ops) == step
    ensures step.Ok? ==> RunAll(data[..i + 1], all, andModify, ops) == Ok(pushed + step.value)
  {
    TakeOneMore(data, i);
    if step.Err? {
      RunAllErrSticks(data[..i + 1], data[i + 1..], all, andModify, ops);
      TakeDrop(data, i + 1);
    }
  }

  lemma {:induction false} RunAllErrSticks(a: ChartStatus, b: ChartStatus, all: bool, andModify: bool, ops: ImportOps)
    requires RunAll(a, all, andModify, ops).Err?
    ensures RunAll(a + b, all, andModify, ops) == RunAll(a, all, andModify, ops)
    decreases |b|
  {
    if b == [] {
      assert a + b == a;
    } else {
      assert (a + b)[..|a + b| - 1] == a + b[..|b| - 1];
      RunAllErrSticks(a, b[..|b| - 1], all, andModify, ops);
    }
  }

  // ---------------------------------------------------------------------
  // Properties of Run
  // ---------------------------------------------------------------------

  /** The workload is zero iff no flag is set. */
  lemma {:induction false} SizeZeroIff(data: ChartStatus)
    ensures Size(data) == 0 <==> forall i, k :: 0 <= i < |data| && 0 <= k < |data[i].1| ==> !data[i].1[k].1
    decreases |data|
  {
    if data != [] {
      var init := data[..|data| - 1];
      SizeZeroIff(init);
      CountTrueZeroIff(data[|data| - 1].1);
      if Size(data) == 0 {
        forall i, k | 0 <= i < |data| && 0 <= k < |data[i].1|
          ensures !data[i].1[k].1
        {
          if i < |data| - 1 {
            assert data[i] == init[i];
          }
        }
      }
      if forall i, k :: 0 <= i < |data| && 0 <= k < |data[i].1| ==> !data[i].1[k].1 {
        forall i, k | 0 <= i < |init| && 0 <= k < |init[i].1|
          ensures !init[i].1[k].1
        {
          assert init[i] == data[i];
        }
      }
    }
  }

  lemma {:induction false} CountTrueZeroIff(m: seq<(Chart, bool)>)
    ensures CountTrue(m) == 0 <==> forall k :: 0 <= k < |m| ==> !m[k].1
    decreases |m|
  {
    if m != [] {
      CountTrueZeroIff(m[..|m| - 1]);
      if CountTrue(m) == 0 {
        forall k | 0 <= k < |m|
          ensures !m[k].1
        {
          if k < |m| - 1 {
            assert m[k] == m[..|m| - 1][k];
          }
        }
      }
    }
  }

  /** The charts the push loop pushes, in order. */
  function PushList(cs: seq<Chart>, r: Registry, all: bool, fetch: Fetch): seq<Chart>
  {
    if cs == [] then []
    else if Skipped(cs[0], r, all, fetch) then PushList(cs[1..], r, all, fetch)
    else [cs[0]] + PushList(cs[1..], r, all, fetch)
  }

  function PushedCharts(ps: seq<Pushed>): (r: seq<Chart>)
    ensures |r| == |ps| && forall k :: 0 <= k < |ps| ==> r[k] == ps[k].chart
  {
    seq(|ps|, k requires 0 <= k < |ps| => ps[k].chart)
  }

  /** A successful push loop pushes exactly the charts it does not skip, in
    * the sorted order, to this registry, with the andModify setting. */
  lemma {:induction false} PushOutcomeIsPushList(cs: seq<Chart>, r: Registry, all: bool, andModify: bool, ops: ImportOps)
    requires PushOutcome(cs, r, all, andModify, ops).Ok?
    ensures PushedCharts(PushOutcome(cs, r, all, andModify, ops).value) == PushList(cs, r, all, ops.fetch)
    ensures forall p :: p in PushOutcome(cs, r, all, andModify, ops).value ==> p.registry == r && p.modified == andModify
  {
    PushOutcomeCharts(cs, r, all, andModify, ops);
    PushOutcomeTargets(cs, r, all, andModify, ops);
  }

  lemma {:induction false} PushOutcomeCharts(cs: seq<Chart>, r: Registry, all: bool, andModify: bool, ops: ImportOps)
    requires PushOutcome(cs, r, all, andModify, ops).Ok?
    ensures PushedCharts(PushOutcome(cs, r, all, andModify, ops).value) == PushList(cs, r, all, ops.fetch)
  {
    if cs != [] {
      PushOutcomeCharts(cs[1..], r, all, andModify, ops);
      if !Skipped(cs[0], r, all, ops.fetch) {
        PushedChartsCons(Pushed(r, cs[0], andModify), PushOutcome(cs[1..], r, all, andModify, ops).value);
      }
    }
  }

  lemma PushedChartsCons(p: Pushed, rest: seq<Pushed>)
    ensures PushedCharts([p] + rest) == [p.chart] + PushedCharts(rest)
  {
  }

  lemma {:induction false} PushOutcomeTargets(cs: seq<Chart>, r: Registry, all: bool, andModify: bool, ops: ImportOps)
    requires PushOutcome(cs, r, all, andModify, ops).Ok?
    ensures forall p :: p in PushOutcome(cs, r, all, andModify, ops).value ==> p.registry == r && p.modified == andModify
  {
    if cs != [] {
      PushOutcomeTargets(cs[1..], r, all, andModify, ops);
    }
  }

  /** Every pushed chart is not named "images", and without `all` the
    * registry's existence check for it failed. */
  lemma {:induction false} PushListNeeded(cs: seq<Chart>, r: Registry, all: bool, fetch: Fetch)
    ensures forall c :: c in PushList(cs, r, all, fetch) ==> c in cs && !Skipped(c, r, all, fetch)
  {
    if cs != [] {
      PushListNeeded(cs[1..], r, all, fetch);
    }
  }

  predicate AscendingDeps(cs: seq<Chart>)
  {
    forall i, j :: 0 <= i < j < |cs| ==> cs[i].depsCount <= cs[j].depsCount
  }

  /** What the code relies on `sort.Slice` for: the same charts, by
    * ascending dependency count. */
  predicate SortsByDeps(ops: ImportOps, cs: seq<Chart>)
  {
    multiset(ops.sortByDeps(cs)) == multiset(cs) && AscendingDeps(ops.sortByDeps(cs))
  }

  /** Skipping keeps the order: pushes follow ascending dependency counts. */
  lemma {:induction false} PushListAscending(cs: seq<Chart>, r: Registry, all: bool, fetch: Fetch)
    requires AscendingDeps(cs)
    ensures AscendingDeps(PushList(cs, r, all, fetch))
  {
    if cs != [] {
      PushListAscending(cs[1..], r, all, fetch);
      PushListNeeded(cs[1..], r, all, fetch);
      var rest := PushList(cs[1..], r, all, fetch);
      if !Skipped(cs[0], r, all, fetch) {
        forall j | 0 <= j < |rest|
          ensures cs[0].depsCount <= rest[j].depsCount
        {
          assert rest[j] in cs[1..];
          var k :| 0 <= k < |cs[1..]| && cs[1..][k] == rest[j];
          assert cs[k + 1] == rest[j];
        }
      }
    }
  }

  /** A registry's charts are pushed by ascending dependency count, given a
    * sort that does what the code relies on. */
  lemma RegistryPushesAscending(r: Registry, m: seq<(Chart, bool)>, all: bool, andModify: bool, ops: ImportOps)
    requires RegistryRun(r, m, all, andModify, ops).Ok?
    requires SortsByDeps(ops, Scheduled(m, ops).value)
    ensures AscendingDeps(PushedCharts(RegistryRun(r, m, all, andModify, ops).value))
  {
    var sorted := ops.sortByDeps(Scheduled(m, ops).value);
    PushOutcomeIsPushList(sorted, r, all, andModify, ops);
    PushListAscending(sorted, r, all, ops.fetch);
  }

  /** Embedded dependencies are never scheduled; every remote one is, as
    * its (wildcard-resolved) chart. */
  lemma {:induction false} DependencyChartsMembers(deps: seq<Dependency>, parent: Chart, ops: ImportOps, c: Chart)
    ensures c in DependencyCharts(deps, parent, ops) <==>
              exists k :: 0 <= k < |deps| && !ChartOption.IsEmbedded(deps[k]) && c == DependencyChart(deps[k], parent, ops)
    decreases |deps|
  {
    if deps != [] {
      var init := deps[..|deps| - 1];
      DependencyChartsMembers(init, parent, ops, c);
      if exists k :: 0 <= k < |init| && !ChartOption.IsEmbedded(init[k]) && c == DependencyChart(init[k], parent, ops) {
        var k :| 0 <= k < |init| && !ChartOption.IsEmbedded(init[k]) && c == DependencyChart(init[k], parent, ops);
        assert deps[k] == init[k];
      }
      if exists k :: 0 <= k < |deps| && !ChartOption.IsEmbedded(deps[k]) && c == DependencyChart(deps[k], parent, ops) {
        var k :| 0 <= k < |deps| && !ChartOption.IsEmbedded(deps[k]) && c == DependencyChart(deps[k], parent, ops);
        if k < |init| {
          assert init[k] == deps[k];
        }
      }
    }
  }
}
