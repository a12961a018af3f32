/** pkg/exportArtifacts: the artifact export. One overview line is written
  * per (registry, image) and per (registry, chart) pair; each line is then
  * split on ", " into the fields of the exported record; the records are
  * written as a JSON document and the two overview lists are returned. The
  * JSON encoding and the file write are one parameter. */
module Export {
  import opened Wrappers
  import opened Strs
  import opened Reference
  import opened Registries
  import Images
  import Charts

  /** The separator the overview lines are built with and split on. */
  const Sep: string := ", "

  lemma SepBorderless()
    ensures Sep != [] && Borderless(Sep)
  {
    assert Sep[0] == ',' && Sep[1] == ' ';
    assert Sep[..1][0] != Sep[1..][0];
  }

  // ---------------------------------------------------------------------
  // Records (main.go:24-39)
  // ---------------------------------------------------------------------

  /** `ChartArtifact` */
  datatype ChartArtifact = ChartArtifact(
    chartOverview: string,
    chartName: string,
    repository: string,
    registry: string,
    chartVersion: string,
    doImport: bool)

  /** `ImageArtifact` */
  datatype ImageArtifact = ImageArtifact(
    imageOverview: string,
    imageName: string,
    imageTag: string,
    repository: string,
    doImport: bool)

  /** The document written to artifacts.json. */
  datatype ExportDoc = ExportDoc(images: seq<ImageArtifact>, charts: seq<ChartArtifact>, chartData: seq<ChartArtifact>)

  // ---------------------------------------------------------------------
  // Input (main.go:16-22)
  // ---------------------------------------------------------------------

  /** One registry of `Data` with its image pointers, in iteration order. */
  datatype RegImages = RegImages(registry: Registry, images: seq<Images.ImagePtr>)

  /** One registry of `Data2` with its charts, in iteration order. */
  datatype RegCharts = RegCharts(registry: Registry, charts: seq<Charts.Chart>)

  type Heap = map<Images.ImagePtr, Images.Image>

  /** The text `(*Image).String` renders for `i`. */
  function Text(i: Images.Image, parse: ParseAny): string
  {
    Images.Render(i, parse).0
  }

  /** `i` once `String` has filled its cache. */
  function Cached(i: Images.Image, parse: ParseAny): (r: Images.Image)
    ensures r.repository == i.repository && r.tag == i.tag
  {
    i.(parsedRef := Images.Render(i, parse).1)
  }

  /** Rendering a cached image renders the same text, and caching again
    * changes nothing: the order of the `String` calls is invisible. */
  lemma CachedStable(i: Images.Image, parse: ParseAny)
    ensures Text(Cached(i, parse), parse) == Text(i, parse)
    ensures Cached(Cached(i, parse), parse) == Cached(i, parse)
  {
    Images.RenderIdempotent(i, parse);
  }

  function CellsOf(imgs: seq<Images.ImagePtr>): set<Images.ImagePtr>
  {
    set k | 0 <= k < |imgs| :: imgs[k]
  }

  function Cells(data: seq<RegImages>): set<Images.ImagePtr>
  {
    set j, k | 0 <= j < |data| && 0 <= k < |data[j].images| :: data[j].images[k]
  }

  predicate InHeap(imgs: seq<Images.ImagePtr>, h: Heap)
  {
    forall k :: 0 <= k < |imgs| ==> imgs[k] in h
  }

  predicate AllInHeap(data: seq<RegImages>, h: Heap)
  {
    forall j :: 0 <= j < |data| ==> InHeap(data[j].images, h)
  }

  /** The pointers of `data` hold the values the heap records for them. */
  ghost predicate Agrees(data: seq<RegImages>, h: Heap)
    reads Cells(data)
  {
    forall j, k :: 0 <= j < |data| && 0 <= k < |data[j].images| ==>
      data[j].images[k] in h && data[j].images[k].val == h[data[j].images[k]]
  }

  /** `c` holds every image of `h` with its cache filled. */
  predicate Caches(h: Heap, c: Heap, parse: ParseAny)
  {
    && (forall p :: p in h ==> p in c)
    && (forall p {:trigger Cached(h[p], parse)} :: p in h && p in c ==> c[p] == Cached(h[p], parse))
  }

  /** `p` holds its initial value, or that value with its cache filled. */
  ghost predicate Settled(p: Images.ImagePtr, h: Heap, c: Heap)
    reads p
  {
    p in h && p in c && (p.val == h[p] || p.val == c[p])
  }

  // ---------------------------------------------------------------------
  // Overview lines (main.go:47-77)
  // ---------------------------------------------------------------------

  /** "Registry: %s, Image: %s, Repository: %s, Tag: %s" */
  function ImageLine(reg: Registry, text: string, repository: string, tag: string): string
  {
    RegistryCaption + GetName(reg) + Sep + (ImageCaption + text + Sep + (RepositoryCaption + repository + Sep + (TagCaption + tag)))
  }

  /** "Registry: %s, Chart: %s, Version: %s" */
  function ChartLine(reg: Registry, c: Charts.Chart): string
  {
    RegistryCaption + reg.name + Sep + (ChartCaption + c.name + Sep + (VersionCaption + c.version))
  }

  /** "Reg: %s, Charts: %s" */
  function DataLine(d: (string, string)): string
  {
    "Reg: " + d.0 + Sep + "Charts: " + d.1
  }

  /** `chartDataOverview`: one line per key of `RegistryImage`, each given
    * as the `%s` renderings of the key (a chart pointer) and of its value (a
    * map), in iteration order. */
  function DataLines(dataKeys: seq<(string, string)>): (r: seq<string>)
    ensures |r| == |dataKeys|
    ensures forall i :: 0 <= i < |dataKeys| ==> r[i] == DataLine(dataKeys[i])
  {
    seq(|dataKeys|, i requires 0 <= i < |dataKeys| => DataLine(dataKeys[i]))
  }

  /** The line of the image behind `p`, as the heap holds it. */
  function LineOf(reg: Registry, p: Images.ImagePtr, h: Heap, parse: ParseAny): string
  {
    if p in h then ImageLine(reg, Text(h[p], parse), h[p].repository, h[p].tag) else ""
  }

  /** `LineOf` for one registry, as a function value. */
  function Liner(reg: Registry, h: Heap, parse: ParseAny): Images.ImagePtr -> string
  {
    (p: Images.ImagePtr) => LineOf(reg, p, h, parse)
  }

  /** The lines `line` gives the images, in order. */
  function LinesBy(imgs: seq<Images.ImagePtr>, line: Images.ImagePtr -> string): (r: seq<string>)
    ensures |r| == |imgs|
    ensures forall k :: 0 <= k < |imgs| ==> r[k] == line(imgs[k])
  {
    seq(|imgs|, k requires 0 <= k < |imgs| => line(imgs[k]))
  }

  /** The lines of one registry's images, in order. */
  function RegImageLines(reg: Registry, imgs: seq<Images.ImagePtr>, h: Heap, parse: ParseAny): (r: seq<string>)
  {
    LinesBy(imgs, Liner(reg, h, parse))
  }

  /** Number of (registry, image) pairs. */
  function ImagePairs(data: seq<RegImages>): nat
  {
    if data == [] then 0 else ImagePairs(data[..|data| - 1]) + |data[|data| - 1].images|
  }

  /** Number of (registry, chart) pairs. */
  function ChartPairs(data: seq<RegCharts>): nat
  {
    if data == [] then 0 else ChartPairs(data[..|data| - 1]) + |data[|data| - 1].charts|
  }

  /** `imgOverview`: one line per (registry, image) pair, registry by
    * registry, rendered from the images as they were before the run. */
  function ImageLines(data: seq<RegImages>, h: Heap, parse: ParseAny): (r: seq<string>)
    requires AllInHeap(data, h)
    ensures |r| == ImagePairs(data)
  {
    if data == [] then []
    else
      var d := data[|data| - 1];
      ImageLines(data[..|data| - 1], h, parse) + RegImageLines(d.registry, d.images, h, parse)
  }

  /** The lines of one registry's charts, in order. */
  function RegChartLines(reg: Registry, cs: seq<Charts.Chart>): (r: seq<string>)
    ensures |r| == |cs|
    ensures forall k :: 0 <= k < |cs| ==> r[k] == ChartLine(reg, cs[k])
  {
    seq(|cs|, k requires 0 <= k < |cs| => ChartLine(reg, cs[k]))
  }

  /** `chartOverview`: one line per (registry, chart) pair. */
  function ChartLines(data: seq<RegCharts>): (r: seq<string>)
    ensures |r| == ChartPairs(data)
  {
    if data == [] then []
    else ChartLines(data[..|data| - 1]) + RegChartLines(data[|data| - 1].registry, data[|data| - 1].charts)
  }

  /** Every (registry, image) pair has its line among the image lines. */
  lemma {:induction false} ImageLinesCover(data: seq<RegImages>, h: Heap, parse: ParseAny, j: nat, k: nat)
    requires AllInHeap(data, h)
    requires j < |data| && k < |data[j].images|
    ensures LineOf(data[j].registry, data[j].images[k], h, parse) in ImageLines(data, h, parse)
    decreases |data|
  {
    var d := data[|data| - 1];
    if j == |data| - 1 {
      assert RegImageLines(d.registry, d.images, h, parse)[k] == LineOf(d.registry, d.images[k], h, parse);
    } else {
      var init := data[..|data| - 1];
      assert init[j] == data[j];
      ImageLinesCover(init, h, parse, j, k);
    }
  }

  /** Every image line belongs to some (registry, image) pair. */
  lemma {:induction false} ImageLinesFrom(data: seq<RegImages>, h: Heap, parse: ParseAny, line: string)
    returns (j: nat, k: nat)
    requires AllInHeap(data, h)
    requires line in ImageLines(data, h, parse)
    ensures j < |data| && k < |data[j].images| && line == LineOf(data[j].registry, data[j].images[k], h, parse)
    decreases |data|
  {
    var init := data[..|data| - 1];
    var d := data[|data| - 1];
    if line in ImageLines(init, h, parse) {
      j, k := ImageLinesFrom(init, h, parse, line);
      assert init[j] == data[j];
    } else {
      var rl := RegImageLines(d.registry, d.images, h, parse);
      assert line in rl;
      j := |data| - 1;
      k :| 0 <= k < |rl| && rl[k] == line;
    }
  }

  /** Every (registry, chart) pair has its line among the chart lines. */
  lemma {:induction false} ChartLinesCover(data: seq<RegCharts>, j: nat, k: nat)
    requires j < |data| && k < |data[j].charts|
    ensures ChartLine(data[j].registry, data[j].charts[k]) in ChartLines(data)
    decreases |data|
  {
    var d := data[|data| - 1];
    if j == |data| - 1 {
      assert RegChartLines(d.registry, d.charts)[k] == ChartLine(d.registry, d.charts[k]);
    } else {
      var init := data[..|data| - 1];
      assert init[j] == data[j];
      ChartLinesCover(init, j, k);
    }
  }

  // ---------------------------------------------------------------------
  // Splitting the lines into records (main.go:80-109)
  // ---------------------------------------------------------------------

  /** An image record: segments 1, 2 and 3 of its line, labels and all. The
    * indexing panics on a line of fewer than four segments. */
  function ImageArtifactOf(line: string): (a: ImageArtifact)
    requires |Split(line, Sep)| >= 4
  {
    var parts := Split(line, Sep);
    ImageArtifact(line, parts[1], parts[3], parts[2], false)
  }

  /** A chart record: segments 0, 1 and 2 of its line. */
  function ChartArtifactOf(line: string): (a: ChartArtifact)
    requires |Split(line, Sep)| >= 3
  {
    var parts := Split(line, Sep);
    ChartArtifact(line, parts[1], "", parts[0], parts[2], false)
  }

  /** A chart-data record keeps only its line. */
  function DataArtifactOf(line: string): (a: ChartArtifact)
    ensures a.chartOverview == line && a.chartName == "" && a.registry == "" && a.chartVersion == ""
  {
    ChartArtifact(line, "", "", "", "", false)
  }

  /** Text built around three separators splits piece by piece. */
  lemma SplitFour(p0: string, p1: string, p2: string, p3: string, sep: string)
    requires sep != [] && Borderless(sep)
    ensures Split(p0 + sep + (p1 + sep + (p2 + sep + p3)), sep)
            == Split(p0, sep) + (Split(p1, sep) + (Split(p2, sep) + Split(p3, sep)))
  {
    SplitAround(p0, sep, p1 + sep + (p2 + sep + p3));
    SplitAround(p1, sep, p2 + sep + p3);
    SplitAround(p2, sep, p3);
  }

  /** Text built around two separators splits piece by piece. */
  lemma SplitThree(p0: string, p1: string, p2: string, sep: string)
    requires sep != [] && Borderless(sep)
    ensures Split(p0 + sep + (p1 + sep + p2), sep) == Split(p0, sep) + (Split(p1, sep) + Split(p2, sep))
  {
    SplitAround(p0, sep, p1 + sep + p2);
    SplitAround(p1, sep, p2);
  }

  /** A caption (without a comma) followed by text free of ", " is one
    * segment. */
  lemma Segment(caption: string, x: string)
    requires ',' !in caption && !Contains(x, Sep)
    ensures Split(caption + x, Sep) == [caption + x]
  {
    LabelKeepsFree(caption, x, Sep);
    SplitWhole(caption + x, Sep);
  }

  const RegistryCaption: string := "Registry: "
  const ImageCaption: string := "Image: "
  const RepositoryCaption: string := "Repository: "
  const TagCaption: string := "Tag: "
  const ChartCaption: string := "Chart: "
  const VersionCaption: string := "Version: "

  lemma CaptionsCommaFree()
    ensures ',' !in RegistryCaption && ',' !in ImageCaption && ',' !in RepositoryCaption
    ensures ',' !in TagCaption && ',' !in ChartCaption && ',' !in VersionCaption
  {
  }

  /** The segments of an image line are those of its four captioned parts. */
  lemma ImageLineSegments(reg: Registry, text: string, repository: string, tag: string)
    ensures Split(ImageLine(reg, text, repository, tag), Sep)
            == Split(RegistryCaption + reg.name, Sep)
               + (Split(ImageCaption + text, Sep) + (Split(RepositoryCaption + repository, Sep) + Split(TagCaption + tag, Sep)))
  {
    SepBorderless();
    SplitFour(RegistryCaption + reg.name, ImageCaption + text, RepositoryCaption + repository, TagCaption + tag, Sep);
  }

  /** Every image line has at least four segments, so the record extraction
    * never indexes out of range; when the registry name, the image text,
    * the repository and the tag are free of ", " the record holds exactly
    * the captioned image, repository and tag parts of the line. */
  lemma ImageLineSplits(reg: Registry, text: string, repository: string, tag: string)
    ensures |Split(ImageLine(reg, text, repository, tag), Sep)| >= 4
    ensures !Contains(reg.name, Sep) && !Contains(text, Sep) && !Contains(repository, Sep) && !Contains(tag, Sep) ==>
              var a := ImageArtifactOf(ImageLine(reg, text, repository, tag));
              a.imageName == "Image: " + text && a.repository == "Repository: " + repository
              && a.imageTag == "Tag: " + tag && a.imageOverview == ImageLine(reg, text, repository, tag)
  {
    var line := ImageLine(reg, text, repository, tag);
    var r, i, p, t := RegistryCaption + reg.name, ImageCaption + text, RepositoryCaption + repository, TagCaption + tag;
    ImageLineSegments(reg, text, repository, tag);
    FourParts(Split(line, Sep), Split(r, Sep), Split(i, Sep), Split(p, Sep), Split(t, Sep));
    if !Contains(reg.name, Sep) && !Contains(text, Sep) && !Contains(repository, Sep) && !Contains(tag, Sep) {
      CaptionsCommaFree();
      Segment(RegistryCaption, reg.name);
      Segment(ImageCaption, text);
      Segment(RepositoryCaption, repository);
      Segment(TagCaption, tag);
      ImageArtifactOfParts(line, r, i, p, t);
    }
  }

  lemma FourParts<T>(whole: seq<T>, s0: seq<T>, s1: seq<T>, s2: seq<T>, s3: seq<T>)
    requires whole == s0 + (s1 + (s2 + s3)) && |s0| >= 1 && |s1| >= 1 && |s2| >= 1 && |s3| >= 1
    ensures |whole| >= 4
  {
  }

  lemma ImageArtifactOfParts(line: string, r: string, i: string, p: string, t: string)
    requires Split(line, Sep) == [r] + ([i] + ([p] + [t]))
    ensures ImageArtifactOf(line) == ImageArtifact(line, i, t, p, false)
  {
    var parts := Split(line, Sep);
    assert parts[1] == i && parts[2] == p && parts[3] == t;
  }

  /** The segments of a chart line are those of its three captioned parts. */
  lemma ChartLineSegments(reg: Registry, c: Charts.Chart)
    ensures Split(ChartLine(reg, c), Sep)
            == Split(RegistryCaption + reg.name, Sep) + (Split(ChartCaption + c.name, Sep) + Split(VersionCaption + c.version, Sep))
  {
    SepBorderless();
    SplitThree(RegistryCaption + reg.name, ChartCaption + c.name, VersionCaption + c.version, Sep);
  }

  /** Every chart line has at least three segments; with names and version
    * free of ", " the record holds the captioned registry, chart and
    * version parts of the line. */
  lemma ChartLineSplits(reg: Registry, c: Charts.Chart)
    ensures |Split(ChartLine(reg, c), Sep)| >= 3
    ensures !Contains(reg.name, Sep) && !Contains(c.name, Sep) && !Contains(c.version, Sep) ==>
              var a := ChartArtifactOf(ChartLine(reg, c));
              a.registry == "Registry: " + reg.name && a.chartName == "Chart: " + c.name
              && a.chartVersion == "Version: " + c.version && a.chartOverview == ChartLine(reg, c)
  {
    ChartLineSegments(reg, c);
    if !Contains(reg.name, Sep) && !Contains(c.name, Sep) && !Contains(c.version, Sep) {
      CaptionsCommaFree();
      Segment(RegistryCaption, reg.name);
      Segment(ChartCaption, c.name);
      Segment(VersionCaption, c.version);
    }
  }

  predicate ImageSplittable(lines: seq<string>)
  {
    forall k :: 0 <= k < |lines| ==> |Split(lines[k], Sep)| >= 4
  }

  predicate ChartSplittable(lines: seq<string>)
  {
    forall k :: 0 <= k < |lines| ==> |Split(lines[k], Sep)| >= 3
  }

  lemma {:induction false} ImageLinesSplittable(data: seq<RegImages>, h: Heap, parse: ParseAny)
    requires AllInHeap(data, h)
    ensures ImageSplittable(ImageLines(data, h, parse))
  {
    var lines := ImageLines(data, h, parse);
    forall k | 0 <= k < |lines|
      ensures |Split(lines[k], Sep)| >= 4
    {
      assert lines[k] in lines;
      var j, i := ImageLinesFrom(data, h, parse, lines[k]);
      var p := data[j].images[i];
      ImageLineSplits(data[j].registry, Text(h[p], parse), h[p].repository, h[p].tag);
    }
  }

  lemma {:induction false} ChartLinesSplittable(data: seq<RegCharts>)
    ensures ChartSplittable(ChartLines(data))
    decreases |data|
  {
    if data != [] {
      var d := data[|data| - 1];
      ChartLinesSplittable(data[..|data| - 1]);
      var rl := RegChartLines(d.registry, d.charts);
      forall k | 0 <= k < |rl|
        ensures |Split(rl[k], Sep)| >= 3
      {
        ChartLineSplits(d.registry, d.charts[k]);
      }
    }
  }

  function ImageArtifacts(lines: seq<string>): (r: seq<ImageArtifact>)
    requires ImageSplittable(lines)
    ensures |r| == |lines|
    ensures forall k :: 0 <= k < |lines| ==> r[k] == ImageArtifactOf(lines[k])
  {
    seq(|lines|, k requires 0 <= k < |lines| => ImageArtifactOf(lines[k]))
  }

  function ChartArtifacts(lines: seq<string>): (r: seq<ChartArtifact>)
    requires ChartSplittable(lines)
    ensures |r| == |lines|
    ensures forall k :: 0 <= k < |lines| ==> r[k] == ChartArtifactOf(lines[k])
  {
    seq(|lines|, k requires 0 <= k < |lines| => ChartArtifactOf(lines[k]))
  }

  function DataArtifacts(lines: seq<string>): (r: seq<ChartArtifact>)
    ensures |r| == |lines|
    ensures forall k :: 0 <= k < |lines| ==> r[k] == DataArtifactOf(lines[k])
  {
    seq(|lines|, k requires 0 <= k < |lines| => DataArtifactOf(lines[k]))
  }

  /** `DataArtifacts` keeps every line, in order, as a record's overview. */
  lemma DataArtifactsKeepLines(lines: seq<string>)
    ensures seq(|lines|, k requires 0 <= k < |lines| => DataArtifacts(lines)[k].chartOverview) == lines
  {
  }

  // ---------------------------------------------------------------------
  // `ExportOption.Run` (main.go:41-134)
  // ---------------------------------------------------------------------

  /** One image's line: `String` is called on an image that holds its
    * initial value or its cached one, so the line is that of the initial
    * value, and the cache ends filled. */
  method Visit(reg: Registry, p: Images.ImagePtr, ghost h: Heap, ghost c: Heap, parse: ParseAny)
    returns (line: string)
    requires Settled(p, h, c) && Caches(h, c, parse)
    modifies p
    ensures line == Liner(reg, h, parse)(p) && p.val == c[p]
  {
    CachedStable(h[p], parse);
    var text := p.String(parse);
    line := ImageLine(reg, text, p.val.repository, p.val.tag);
  }

  /** The image lines of one registry, calling `String` on each image. */
  method RegImageLoop(reg: Registry, imgs: seq<Images.ImagePtr>, ghost h: Heap, ghost c: Heap, parse: ParseAny)
    returns (lines: seq<string>)
    requires Caches(h, c, parse)
    requires forall k :: 0 <= k < |imgs| ==> Settled(imgs[k], h, c)
    modifies CellsOf(imgs)
    ensures lines == RegImageLines(reg, imgs, h, parse)
    ensures forall k :: 0 <= k < |imgs| ==> imgs[k] in c && imgs[k].val == c[imgs[k]]
  {
    ghost var f := Liner(reg, h, parse);
    lines := [];
    for k := 0 to |imgs|
      invariant lines == LinesBy(imgs[..k], f)
      invariant forall i :: 0 <= i < |imgs| ==> Settled(imgs[i], h, c)
      invariant forall i :: 0 <= i < k ==> imgs[i].val == c[imgs[i]]
    {
      var line := Visit(reg, imgs[k], h, c, parse);
      lines := lines + [line];
    }
    assert imgs[..|imgs|] == imgs;
  }

  /** The lines of one registry's charts. */
  method RegChartLoop(reg: Registry, cs: seq<Charts.Chart>) returns (lines: seq<string>)
    ensures lines == RegChartLines(reg, cs)
  {
    lines := [];
    for k := 0 to |cs|
      invariant lines == RegChartLines(reg, cs[..k])
    {
      lines := lines + [ChartLine(reg, cs[k])];
    }
    assert cs[..|cs|] == cs;
  }

  /** The image lines of every registry (main.go:47-56). */
  method ImageLoop(data: seq<RegImages>, ghost h: Heap, ghost c: Heap, parse: ParseAny) returns (lines: seq<string>)
    requires AllInHeap(data, h) && Agrees(data, h) && Caches(h, c, parse)
    modifies Cells(data)
    ensures lines == ImageLines(data, h, parse)
    ensures forall j, k :: 0 <= j < |data| && 0 <= k < |data[j].images| ==> data[j].images[k].val == c[data[j].images[k]]
  {
    lines := [];
    for j := 0 to |data|
      invariant lines == ImageLines(data[..j], h, parse)
      invariant forall i, k :: 0 <= i < |data| && 0 <= k < |data[i].images| ==> Settled(data[i].images[k], h, c)
      invariant forall i, k :: 0 <= i < j && 0 <= k < |data[i].images| ==> data[i].images[k].val == c[data[i].images[k]]
    {
      assert data[..j + 1][..j] == data[..j];
      var d := data[j];
      assert CellsOf(d.images) <= Cells(data);
      var more := RegImageLoop(d.registry, d.images, h, c, parse);
      lines := lines + more;
    }
    assert data[..|data|] == data;
  }

  /** The chart lines of every registry (main.go:58-68). */
  method ChartLoop(data: seq<RegCharts>) returns (lines: seq<string>)
    ensures lines == ChartLines(data)
  {
    lines := [];
    for j := 0 to |data|
      invariant lines == ChartLines(data[..j])
    {
      assert data[..j + 1][..j] == data[..j];
      var more := RegChartLoop(data[j].registry, data[j].charts);
      lines := lines + more;
    }
    assert data[..|data|] == data;
  }

  /** The chart-data lines (main.go:71-77). */
  method DataLoop(dataKeys: seq<(string, string)>) returns (lines: seq<string>)
    ensures lines == DataLines(dataKeys)
  {
    lines := [];
    for i := 0 to |dataKeys|
      invariant lines == DataLines(dataKeys[..i])
    {
      lines := lines + [DataLine(dataKeys[i])];
    }
    assert dataKeys[..|dataKeys|] == dataKeys;
  }

  /** The image records (main.go:80-89). */
  method ImageRecords(lines: seq<string>) returns (artifacts: seq<ImageArtifact>)
    requires ImageSplittable(lines)
    ensures artifacts == ImageArtifacts(lines)
  {
    artifacts := [];
    for k := 0 to |lines|
      invariant artifacts == ImageArtifacts(lines[..k])
    {
      artifacts := artifacts + [ImageArtifactOf(lines[k])];
    }
    assert lines[..|lines|] == lines;
  }

  /** The chart records (main.go:90-100). */
  method ChartRecords(lines: seq<string>) returns (artifacts: seq<ChartArtifact>)
    requires ChartSplittable(lines)
    ensures artifacts == ChartArtifacts(lines)
  {
    artifacts := [];
    for k := 0 to |lines|
      invariant artifacts == ChartArtifacts(lines[..k])
    {
      artifacts := artifacts + [ChartArtifactOf(lines[k])];
    }
    assert lines[..|lines|] == lines;
  }

  /** The chart-data records (main.go:102-109). */
  method DataRecords(lines: seq<string>) returns (artifacts: seq<ChartArtifact>)
    ensures artifacts == DataArtifacts(lines)
  {
    artifacts := [];
    for k := 0 to |lines|
      invariant artifacts == DataArtifacts(lines[..k])
    {
      artifacts := artifacts + [DataArtifactOf(lines[k])];
    }
    assert lines[..|lines|] == lines;
  }

  /** `ExportOption.Run`: builds the three line lists and their records,
    * hands the document to `write` (JSON encoding and the file write),
    * and returns the image and chart lines, or the write's error with no
    * lines. Each image's `String` cache is filled on the way; the lines
    * are those of the images as they were before the run. */
  method Run(data: seq<RegImages>, data2: seq<RegCharts>, dataKeys: seq<(string, string)>,
             ghost h: Heap, parse: ParseAny, write: ExportDoc -> Option<string>)
    returns (imgOverview: seq<string>, chartOverview: seq<string>, doc: ExportDoc, err: Option<string>)
    requires AllInHeap(data, h) && Agrees(data, h)
    modifies Cells(data)
    ensures ImageSplittable(ImageLines(data, h, parse)) && ChartSplittable(ChartLines(data2))
    ensures doc == ExportDoc(ImageArtifacts(ImageLines(data, h, parse)), ChartArtifacts(ChartLines(data2)),
                             DataArtifacts(DataLines(dataKeys)))
    ensures err == write(doc)
    ensures err.None? ==> imgOverview == ImageLines(data, h, parse) && chartOverview == ChartLines(data2)
    ensures err.Some? ==> imgOverview == [] && chartOverview == []
    ensures forall p :: p in Cells(data) ==> p.val == Cached(h[p], parse)
  {
    ghost var c := map p | p in h :: Cached(h[p], parse);
    var lines := ImageLoop(data, h, c, parse);
    var clines := ChartLoop(data2);
    var dlines := DataLoop(dataKeys);
    ImageLinesSplittable(data, h, parse);
    ChartLinesSplittable(data2);
    var artifacts := ImageRecords(lines);
    var chartArtifacts := ChartRecords(clines);
    var chartData := DataRecords(dlines);
    doc := ExportDoc(artifacts, chartArtifacts, chartData);
    err := write(doc);
    if err.Some? {
      return [], [], doc, err;
    }
    return lines, clines, doc, None;
  }
}
