/** pkg/helm/serialization.go: the chart data written to and read back from
  * YAML, and the registry status maps split into string-keyed tables and
  * rebuilt from them. YAML marshalling and file access are left to the
  * caller; what is modelled is the content of the serialised records. */
module Serialization {
  import opened Wrappers
  import opened Strs
  import opened Reference
  import opened Images
  import opened Registries
  import GoPath
  import Charts
  import ChartImport

  type Chart = Charts.Chart

  // ---------------------------------------------------------------------
  // toSerializable / fromSerializable (serialization.go:24-81)
  // ---------------------------------------------------------------------

  /** One entry of the chart data: a chart and the images found in it (their
    * value paths are not written out). */
  datatype ChartEntry = ChartEntry(chart: Chart, images: seq<Image>)

  /** `Output`: the charts, every distinct image once, and per chart key the
    * texts of the chart's images. */
  datatype Output = Output(charts: seq<Chart>, images: seq<string>, mapping: map<string, seq<string>>)

  /** The mapping key of a chart: its repository URL, name and version joined
    * as a path. */
  function ChartKey(c: Chart): string
  {
    GoPath.PathJoin([c.repo.url, c.name, c.version])
  }

  /** The text `String` gives an image. */
  function Text(i: Image, parse: ParseAny): string
  {
    Render(i, parse).0
  }

  function Texts(xs: seq<Image>, parse: ParseAny): (r: seq<string>)
    ensures |r| == |xs| && forall k :: 0 <= k < |xs| ==> r[k] == Text(xs[k], parse)
  {
    seq(|xs|, k requires 0 <= k < |xs| => Text(xs[k], parse))
  }

  function ChartsOf(data: seq<ChartEntry>): (r: seq<Chart>)
    ensures |r| == |data| && forall k :: 0 <= k < |data| ==> r[k] == data[k].chart
  {
    seq(|data|, k requires 0 <= k < |data| => data[k].chart)
  }

  /** The images of every entry, entry after entry. */
  function AllImages(data: seq<ChartEntry>): seq<Image>
  {
    if data == [] then [] else AllImages(data[..|data| - 1]) + data[|data| - 1].images
  }

  /** The images in first-seen order, each reference (registry, repository,
    * tag) once. */
  function FirstSeen(xs: seq<Image>): seq<Image>
  {
    if xs == [] then []
    else
      var s := FirstSeen(xs[..|xs| - 1]);
      if In(xs[|xs| - 1], s) then s else s + [xs[|xs| - 1]]
  }

  /** Chart key to image texts; a later chart with the same key overwrites. */
  function Mapping(data: seq<ChartEntry>, parse: ParseAny): map<string, seq<string>>
  {
    if data == [] then map[]
    else
      var e := data[|data| - 1];
      Mapping(data[..|data| - 1], parse)[ChartKey(e.chart) := Texts(e.images, parse)]
  }

  function ToSerializable(data: seq<ChartEntry>, parse: ParseAny): Output
  {
    Output(ChartsOf(data), Texts(FirstSeen(AllImages(data)), parse), Mapping(data, parse))
  }

  /** `toSerializable` */
  method ToSerializableLoop(data: seq<ChartEntry>, parse: ParseAny) returns (out: Output)
    ensures out == ToSerializable(data, parse)
  {
    var charts: seq<Chart> := [];
    var imgs: seq<string> := [];
    var mapping: map<string, seq<string>> := map[];
    var seen: seq<Image> := [];
    for c := 0 to |data|
      invariant charts == ChartsOf(data[..c])
      invariant seen == FirstSeen(AllImages(data[..c])) && imgs == Texts(seen, parse)
      invariant mapping == Mapping(data[..c], parse)
    {
      EntryStep(data, c, parse);
      var chart := data[c].chart;
      var serializableImages;
      seen, imgs, serializableImages := EntryImages(data[c].images, AllImages(data[..c]), seen, imgs, parse);
      var key := GoPath.PathJoin([chart.repo.url, chart.name, chart.version]);
      mapping := mapping[key := serializableImages];
      charts := charts + [chart];
    }
    assert data[..|data|] == data;
    return Output(charts, imgs, mapping);
  }

  lemma EntryStep(data: seq<ChartEntry>, c: nat, parse: ParseAny)
    requires c < |data|
    ensures ChartsOf(data[..c + 1]) == ChartsOf(data[..c]) + [data[c].chart]
    ensures AllImages(data[..c + 1]) == AllImages(data[..c]) + data[c].images
    ensures Mapping(data[..c + 1], parse) == Mapping(data[..c], parse)[ChartKey(data[c].chart) := Texts(data[c].images, parse)]
  {
    assert data[..c + 1][..c] == data[..c];
  }

  /** The inner loop of `toSerializable`: one entry's images. */
  method EntryImages(xs: seq<Image>, ghost done: seq<Image>, seen0: seq<Image>, imgs0: seq<string>, parse: ParseAny)
    returns (seen: seq<Image>, imgs: seq<string>, serializableImages: seq<string>)
    requires seen0 == FirstSeen(done) && imgs0 == Texts(seen0, parse)
    ensures seen == FirstSeen(done + xs) && imgs == Texts(seen, parse)
    ensures serializableImages == Texts(xs, parse)
  {
    seen, imgs, serializableImages := seen0, imgs0, [];
    ghost var cur := done;
    for k := 0 to |xs|
      invariant cur == done + xs[..k]
      invariant seen == FirstSeen(cur) && imgs == Texts(seen, parse)
      invariant serializableImages == Texts(xs[..k], parse)
    {
      var img := xs[k];
      ImagesStep(done, xs, k, parse);
      var s := Render(img, parse).0;
      if !In(img, seen) {
        TextsAppend(seen, img, parse);
        seen := seen + [img];
        imgs := imgs + [s];
      }
      serializableImages := serializableImages + [s];
      cur := cur + [img];
    }
    assert xs[..|xs|] == xs;
  }

  lemma ImagesStep(done: seq<Image>, xs: seq<Image>, k: nat, parse: ParseAny)
    requires k < |xs|
    ensures done + xs[..k + 1] == (done + xs[..k]) + [xs[k]]
    ensures Texts(xs[..k + 1], parse) == Texts(xs[..k], parse) + [Text(xs[k], parse)]
  {
    assert xs[..k + 1] == xs[..k] + [xs[k]];
  }

  lemma TextsAppend(xs: seq<Image>, x: Image, parse: ParseAny)
    ensures Texts(xs + [x], parse) == Texts(xs, parse) + [Text(x, parse)]
  {
  }

  /** The serialised images are pairwise different references. */
  lemma {:induction false} FirstSeenDistinct(xs: seq<Image>)
    ensures forall i, j :: 0 <= i < j < |FirstSeen(xs)| ==> !SameRef(FirstSeen(xs)[i], FirstSeen(xs)[j])
  {
    if xs != [] {
      var s := FirstSeen(xs[..|xs| - 1]);
      FirstSeenDistinct(xs[..|xs| - 1]);
      if !In(xs[|xs| - 1], s) {
        var t := s + [xs[|xs| - 1]];
        forall i, j | 0 <= i < j < |t|
          ensures !SameRef(t[i], t[j])
        {
          if j < |s| {
            assert t[i] == s[i] && t[j] == s[j];
          } else {
            assert t[i] == s[i];
          }
        }
      }
    }
  }

  /** Every image of the data has its reference among the serialised ones,
    * and every serialised one comes from the data. */
  lemma {:induction false} FirstSeenCovers(xs: seq<Image>)
    ensures forall x :: x in xs ==> In(x, FirstSeen(xs))
    ensures forall y :: y in FirstSeen(xs) ==> y in xs
  {
    if xs != [] {
      var p := xs[..|xs| - 1];
      FirstSeenCovers(p);
      var s := FirstSeen(p);
      forall x | x in xs
        ensures In(x, FirstSeen(xs))
      {
        if x in p {
          var k :| 0 <= k < |s| && SameRef(x, s[k]);
          if !In(xs[|xs| - 1], s) {
            assert (s + [xs[|xs| - 1]])[k] == s[k];
          }
        } else {
          assert x == xs[|xs| - 1];
          if !In(x, s) {
            assert (s + [x])[|s|] == x;
          }
        }
      }
    }
  }

  /** A chart whose key no later chart shares is mapped to the texts of its
    * own images. */
  lemma {:induction false} MappingOfLast(data: seq<ChartEntry>, parse: ParseAny, k: nat)
    requires k < |data|
    requires forall j :: k < j < |data| ==> ChartKey(data[j].chart) != ChartKey(data[k].chart)
    ensures ChartKey(data[k].chart) in Mapping(data, parse)
    ensures Mapping(data, parse)[ChartKey(data[k].chart)] == Texts(data[k].images, parse)
  {
    if k < |data| - 1 {
      var p := data[..|data| - 1];
      assert p[k] == data[k];
      MappingOfLast(p, parse, k);
    }
  }

  /** The mapping holds a key iff some chart has it. */
  lemma {:induction false} MappingKeys(data: seq<ChartEntry>, parse: ParseAny)
    ensures forall key :: key in Mapping(data, parse) <==> exists k :: 0 <= k < |data| && ChartKey(data[k].chart) == key
  {
    KeysOfMapping(data, parse);
  }

  lemma {:induction false} KeysOfMapping(data: seq<ChartEntry>, parse: ParseAny)
    ensures Mapping(data, parse).Keys == ImageOf(data, KeyOf())
  {
    if data != [] {
      var p := data[..|data| - 1];
      KeysOfMapping(p, parse);
      ImageOfLast(data, KeyOf());
    }
  }

  /** A chart entry's key, as a value. */
  function KeyOf(): ChartEntry -> string
  {
    (e: ChartEntry) => ChartKey(e.chart)
  }

  /** The values `f` takes on the elements of `xs`. */
  ghost function ImageOf<T, U>(xs: seq<T>, f: T -> U): set<U>
  {
    set k | 0 <= k < |xs| :: f(xs[k])
  }

  lemma ImageOfLast<T, U>(xs: seq<T>, f: T -> U)
    requires xs != []
    ensures ImageOf(xs, f) == ImageOf(xs[..|xs| - 1], f) + {f(xs[|xs| - 1])}
  {
    var p := xs[..|xs| - 1];
    forall y | y in ImageOf(xs, f)
      ensures y in ImageOf(p, f) || y == f(xs[|xs| - 1])
    {
      var k :| 0 <= k < |xs| && f(xs[k]) == y;
      if k < |p| {
        assert f(p[k]) == y;
      }
    }
    forall y | y in ImageOf(p, f)
      ensures y in ImageOf(xs, f)
    {
      var k :| 0 <= k < |p| && f(p[k]) == y;
      assert f(xs[k]) == y;
    }
    assert f(xs[|xs| - 1]) in ImageOf(xs, f);
  }

  /** How `fromSerializable` equips a chart: OCI charts get the OCI client
    * wrapper (with their plain-HTTP setting), the others the plain client. */
  datatype Client = OciClient(plainHTTP: bool) | PlainClient

  /** One entry of the rebuilt chart data. */
  datatype Restored = Restored(chart: Chart, client: Client, images: seq<Image>)

  const ZeroChart: Chart := Charts.Chart("", "", "", Charts.RepoEntry("", ""), false, 0)

  /** The first chart with the given key; the zero chart when none has it. */
  function FindChart(key: string, cs: seq<Chart>): Chart
  {
    if cs == [] then ZeroChart
    else if ChartKey(cs[0]) == key then cs[0]
    else FindChart(key, cs[1..])
  }

  /** The chart found is the first one with the key. */
  lemma {:induction false} FindChartFirst(key: string, cs: seq<Chart>, k: nat)
    requires k < |cs| && ChartKey(cs[k]) == key
    requires forall j :: 0 <= j < k ==> ChartKey(cs[j]) != key
    ensures FindChart(key, cs) == cs[k]
    decreases k
  {
    if k > 0 {
      assert ChartKey(cs[0]) != key;
      forall j | 0 <= j < k - 1
        ensures ChartKey(cs[1..][j]) != key
      {
        assert cs[1..][j] == cs[j + 1];
      }
      FindChartFirst(key, cs[1..], k - 1);
    }
  }

  /** With no chart of the key, the zero chart is found. */
  lemma {:induction false} FindChartAbsent(key: string, cs: seq<Chart>)
    requires forall k :: 0 <= k < |cs| ==> ChartKey(cs[k]) != key
    ensures FindChart(key, cs) == ZeroChart
    decreases |cs|
  {
    if cs != [] {
      assert ChartKey(cs[0]) != key;
      forall j | 0 <= j < |cs| - 1
        ensures ChartKey(cs[1..][j]) != key
      {
        assert cs[1..][j] == cs[j + 1];
      }
      FindChartAbsent(key, cs[1..]);
    }
  }

  function ClientFor(c: Chart): Client
  {
    if HasPrefix(c.repo.url, "oci://") then OciClient(c.plainHTTP) else PlainClient
  }

  /** An image text parsed back; a text that does not parse gives the zero
    * image, the error being dropped. */
  function ParseBack(s: string, parse: ParseAny): Image
  {
    var r := RefToImage(s, parse);
    if r.Ok? then r.value else Zero
  }

  function ParseAll(texts: seq<string>, parse: ParseAny): (r: seq<Image>)
    ensures |r| == |texts| && forall k :: 0 <= k < |texts| ==> r[k] == ParseBack(texts[k], parse)
  {
    seq(|texts|, k requires 0 <= k < |texts| => ParseBack(texts[k], parse))
  }

  function Restore(key: string, texts: seq<string>, cs: seq<Chart>, parse: ParseAny): Restored
  {
    var c := FindChart(key, cs);
    Restored(c, ClientFor(c), ParseAll(texts, parse))
  }

  /** `fromSerializable`, one rebuilt entry per mapping key. */
  method FromSerializable(output: Output, parse: ParseAny) returns (res: map<string, Restored>)
    ensures res.Keys == output.mapping.Keys
    ensures forall key :: key in res ==> res[key] == Restore(key, output.mapping[key], output.charts, parse)
  {
    res := map[];
    var keys := output.mapping.Keys;
    while keys != {}
      invariant keys <= output.mapping.Keys
      invariant res.Keys == output.mapping.Keys - keys
      invariant forall key :: key in res ==> res[key] == Restore(key, output.mapping[key], output.charts, parse)
      decreases keys
    {
      var key :| key in keys;
      var chart := FindChartLoop(key, output.charts);
      var imageMap := ParseImages(output.mapping[key], parse);
      var client := if HasPrefix(chart.repo.url, "oci://") then OciClient(chart.plainHTTP) else PlainClient;
      res := res[key := Restored(chart, client, imageMap)];
      keys := keys - {key};
    }
  }

  /** The loop that parses one key's image texts back. */
  method ParseImages(texts: seq<string>, parse: ParseAny) returns (imageMap: seq<Image>)
    ensures imageMap == ParseAll(texts, parse)
  {
    imageMap := [];
    for k := 0 to |texts|
      invariant |imageMap| == k
      invariant forall q :: 0 <= q < k ==> imageMap[q] == ParseBack(texts[q], parse)
    {
      var parsed := RefToImage(texts[k], parse);
      var img := if parsed.Ok? then parsed.value else Zero;
      imageMap := imageMap + [img];
    }
  }

  /** The closure that looks a key's chart up. */
  method FindChartLoop(key: string, cs: seq<Chart>) returns (c: Chart)
    ensures c == FindChart(key, cs)
  {
    for k := 0 to |cs|
      invariant FindChart(key, cs) == FindChart(key, cs[k..])
    {
      assert cs[k..][1..] == cs[k + 1..];
      if GoPath.PathJoin([cs[k].repo.url, cs[k].name, cs[k].version]) == key {
        return cs[k];
      }
    }
    return ZeroChart;
  }

  /** Round trip: when no two charts share a key, reading the written data
    * finds every chart again under its key, with the texts of its images
    * and the client its repository calls for. */
  lemma ChartRoundTrip(data: seq<ChartEntry>, parse: ParseAny, k: nat)
    requires k < |data|
    requires forall i, j :: 0 <= i < j < |data| ==> ChartKey(data[i].chart) != ChartKey(data[j].chart)
    ensures var out := ToSerializable(data, parse);
            var key := ChartKey(data[k].chart);
            key in out.mapping
            && Restore(key, out.mapping[key], out.charts, parse)
               == Restored(data[k].chart, ClientFor(data[k].chart), ParseAll(Texts(data[k].images, parse), parse))
  {
    MappingOfLast(data, parse, k);
    var cs := ChartsOf(data);
    var key := ChartKey(data[k].chart);
    assert ChartKey(cs[k]) == key;
    forall j | 0 <= j < k
      ensures ChartKey(cs[j]) != key
    {
      assert cs[j] == data[j].chart;
    }
    FindChartFirst(key, cs, k);
  }

  /** Round trip of one image: an image read from a well-formed tagged or
    * digested reference is written as that reference and read back as the
    * same image. */
  lemma ImageRoundTrip(n: NamedRef, parse: ParseAny)
    requires WellFormed(n, parse)
    requires n.tag.Some? || n.digest.Some?
    ensures RefToImage(NamedString(n), parse).Ok?
    ensures var i := RefToImage(NamedString(n), parse).value;
            ParseBack(Text(i, parse), parse) == i
  {
    RefToImageRendersBack(n, parse);
  }

  // ---------------------------------------------------------------------
  // WriteStatusOutputToYAML / ReadStatusOutputFromYAML (serialization.go:135-232)
  // ---------------------------------------------------------------------

  /** `StatusOutput`: per registry key, the flags by chart or image key; the
    * charts, images and registries by key. */
  datatype StatusOutput = StatusOutput(
    chartStatus: map<string, map<string, bool>>,
    charts: map<string, Chart>,
    imageStatus: map<string, map<string, bool>>,
    images: map<string, Image>,
    registries: map<string, Registry>)

  function RegistryKey(r: Registry): string
  {
    r.name + ":" + r.url
  }

  function ChartStatusKey(c: Chart): string
  {
    c.name + ":" + c.version
  }

  function ImageKey(i: Image): string
  {
    i.registry + "/" + i.repository + ":" + i.tag
  }

  /** A status map: per registry, its items with their flags. */
  type StatusRows<T> = seq<(Registry, seq<(T, bool)>)>

  /** One registry's flags by item key; a later item with the same key
    * overwrites. */
  function RowFlags<T>(row: seq<(T, bool)>, key: T -> string): map<string, bool>
  {
    if row == [] then map[]
    else RowFlags(row[..|row| - 1], key)[key(row[|row| - 1].0) := row[|row| - 1].1]
  }

  /** Items added to a by-key table, later ones overwriting. */
  function AddItems<T>(m: map<string, T>, row: seq<(T, bool)>, key: T -> string): map<string, T>
  {
    if row == [] then m
    else AddItems(m, row[..|row| - 1], key)[key(row[|row| - 1].0) := row[|row| - 1].0]
  }

  function StatusTable<T>(rows: StatusRows<T>, key: T -> string): map<string, map<string, bool>>
  {
    if rows == [] then map[]
    else StatusTable(rows[..|rows| - 1], key)[RegistryKey(rows[|rows| - 1].0) := RowFlags(rows[|rows| - 1].1, key)]
  }

  function ItemTable<T>(rows: StatusRows<T>, key: T -> string): map<string, T>
  {
    if rows == [] then map[]
    else AddItems(ItemTable(rows[..|rows| - 1], key), rows[|rows| - 1].1, key)
  }

  function RegistryTable<T>(m: map<string, Registry>, rows: StatusRows<T>): map<string, Registry>
  {
    if rows == [] then m
    else RegistryTable(m, rows[..|rows| - 1])[RegistryKey(rows[|rows| - 1].0) := rows[|rows| - 1].0]
  }

  function WriteStatus(charts: StatusRows<Chart>, images: StatusRows<Image>): StatusOutput
  {
    StatusOutput(
      StatusTable(charts, ChartStatusKey), ItemTable(charts, ChartStatusKey),
      StatusTable(images, ImageKey), ItemTable(images, ImageKey),
      RegistryTable(RegistryTable(map[], charts), images))
  }

  /** One half of `WriteStatusOutputToYAML`: the loops over one status map. */
  method SplitStatus<T>(rows: StatusRows<T>, key: T -> string, registries0: map<string, Registry>)
    returns (status: map<string, map<string, bool>>, items: map<string, T>, registries: map<string, Registry>)
    ensures status == StatusTable(rows, key) && items == ItemTable(rows, key)
    ensures registries == RegistryTable(registries0, rows)
  {
    status, items, registries := map[], map[], registries0;
    for i := 0 to |rows|
      invariant status == StatusTable(rows[..i], key) && items == ItemTable(rows[..i], key)
      invariant registries == RegistryTable(registries0, rows[..i])
    {
      assert rows[..i + 1][..i] == rows[..i];
      var (registry, row) := rows[i];
      var registryKey := registry.name + ":" + registry.url;
      registries := registries[registryKey := registry];
      var flags: map<string, bool> := map[];
      ghost var before := items;
      for k := 0 to |row|
        invariant flags == RowFlags(row[..k], key) && items == AddItems(before, row[..k], key)
      {
        assert row[..k + 1][..k] == row[..k];
        var (item, b) := row[k];
        flags := flags[key(item) := b];
        items := items[key(item) := item];
      }
      assert row[..|row|] == row;
      status := status[registryKey := flags];
    }
    assert rows[..|rows|] == rows;
  }

  method WriteStatusOutput(charts: StatusRows<Chart>, images: StatusRows<Image>) returns (out: StatusOutput)
    ensures out == WriteStatus(charts, images)
  {
    var chartStatus, chartItems, registries := SplitStatus(charts, ChartStatusKey, map[]);
    var imageStatus, imageItems, allRegistries := SplitStatus(images, ImageKey, registries);
    out := StatusOutput(chartStatus, chartItems, imageStatus, imageItems, allRegistries);
  }

  function Lookup<T>(m: map<string, T>, k: string): Option<T>
  {
    if k in m then Some(m[k]) else None
  }

  /** A rebuilt registry entry: the registry stored under its key (nil when
    * missing) and, per item key, the stored item (nil when missing) and the
    * flag carried over. */
  datatype ReadEntry<T> = ReadEntry(registry: Option<Registry>, items: map<string, (Option<T>, bool)>)

  function ReadRow<T>(flags: map<string, bool>, items: map<string, T>): map<string, (Option<T>, bool)>
  {
    map k | k in flags :: (Lookup(items, k), flags[k])
  }

  function ReadTable<T>(status: map<string, map<string, bool>>, items: map<string, T>, registries: map<string, Registry>)
    : map<string, ReadEntry<T>>
  {
    map rk | rk in status :: ReadEntry(Lookup(registries, rk), ReadRow(status[rk], items))
  }

  /** One half of `ReadStatusOutputFromYAML`. */
  method JoinStatus<T>(status: map<string, map<string, bool>>, items: map<string, T>, registries: map<string, Registry>)
    returns (res: map<string, ReadEntry<T>>)
    ensures res == ReadTable(status, items, registries)
  {
    res := map[];
    var keys := status.Keys;
    while keys != {}
      invariant keys <= status.Keys
      invariant res.Keys == status.Keys - keys
      invariant forall rk :: rk in res ==> res[rk] == ReadEntry(Lookup(registries, rk), ReadRow(status[rk], items))
      decreases keys
    {
      var registryKey :| registryKey in keys;
      var registry := if registryKey in registries then Some(registries[registryKey]) else None;
      var itemMap := JoinRow(status[registryKey], items);
      res := res[registryKey := ReadEntry(registry, itemMap)];
      keys := keys - {registryKey};
    }
  }

  /** The inner loop: one registry's flags with their items looked up. */
  method JoinRow<T>(flags: map<string, bool>, items: map<string, T>) returns (itemMap: map<string, (Option<T>, bool)>)
    ensures itemMap == ReadRow(flags, items)
  {
    itemMap := map[];
    var itemKeys := flags.Keys;
    while itemKeys != {}
      invariant itemKeys <= flags.Keys
      invariant itemMap.Keys == flags.Keys - itemKeys
      invariant forall k :: k in itemMap ==> itemMap[k] == (Lookup(items, k), flags[k])
      decreases itemKeys
    {
      var itemKey :| itemKey in itemKeys;
      var item := if itemKey in items then Some(items[itemKey]) else None;
      itemMap := itemMap[itemKey := (item, flags[itemKey])];
      itemKeys := itemKeys - {itemKey};
    }
  }

  method ReadStatusOutput(out: StatusOutput) returns (charts: map<string, ReadEntry<Chart>>, images: map<string, ReadEntry<Image>>)
    ensures charts == ReadTable(out.chartStatus, out.charts, out.registries)
    ensures images == ReadTable(out.imageStatus, out.images, out.registries)
  {
    charts := JoinStatus(out.chartStatus, out.charts, out.registries);
    images := JoinStatus(out.imageStatus, out.images, out.registries);
  }

  // ---------------------------------------------------------------------
  // Round trip of the status maps
  // ---------------------------------------------------------------------

  /** With item keys distinct in a row, each item's flag is stored under its
    * key. */
  lemma {:induction false} RowFlagsLookup<T>(row: seq<(T, bool)>, key: T -> string, p: nat)
    requires p < |row|
    requires forall i, j :: 0 <= i < j < |row| ==> key(row[i].0) != key(row[j].0)
    ensures key(row[p].0) in RowFlags(row, key) && RowFlags(row, key)[key(row[p].0)] == row[p].1
  {
    if p < |row| - 1 {
      var init := row[..|row| - 1];
      assert init[p] == row[p];
      RowFlagsLookup(init, key, p);
    }
  }

  /** With registry keys distinct, each registry's row is stored under its key. */
  lemma {:induction false} StatusTableLookup<T>(rows: StatusRows<T>, key: T -> string, i: nat)
    requires i < |rows|
    requires forall a, b :: 0 <= a < b < |rows| ==> RegistryKey(rows[a].0) != RegistryKey(rows[b].0)
    ensures RegistryKey(rows[i].0) in StatusTable(rows, key)
    ensures StatusTable(rows, key)[RegistryKey(rows[i].0)] == RowFlags(rows[i].1, key)
  {
    if i < |rows| - 1 {
      var init := rows[..|rows| - 1];
      assert init[i] == rows[i];
      StatusTableLookup(init, key, i);
    }
  }

  /** Items that agree whenever their keys do. */
  predicate KeyDetermines<T(==)>(rows: StatusRows<T>, key: T -> string)
  {
    forall a, b, p, q ::
      (0 <= a < |rows| && 0 <= b < |rows| && 0 <= p < |rows[a].1| && 0 <= q < |rows[b].1|
       && key(rows[a].1[p].0) == key(rows[b].1[q].0)) ==> rows[a].1[p].0 == rows[b].1[q].0
  }

  lemma {:induction false} AddItemsAgree<T>(m: map<string, T>, row: seq<(T, bool)>, key: T -> string, x: T)
    requires forall p :: 0 <= p < |row| && key(row[p].0) == key(x) ==> row[p].0 == x
    requires key(x) in m ==> m[key(x)] == x
    ensures key(x) in AddItems(m, row, key) ==> AddItems(m, row, key)[key(x)] == x
  {
    if row != [] {
      var init := row[..|row| - 1];
      forall p | 0 <= p < |init| && key(init[p].0) == key(x)
        ensures init[p].0 == x
      {
        assert init[p] == row[p];
      }
      AddItemsAgree(m, init, key, x);
    }
  }

  lemma {:induction false} AddItemsHas<T>(m: map<string, T>, row: seq<(T, bool)>, key: T -> string, p: nat)
    requires p < |row|
    ensures key(row[p].0) in AddItems(m, row, key)
  {
    if p < |row| - 1 {
      var init := row[..|row| - 1];
      assert init[p] == row[p];
      AddItemsHas(m, init, key, p);
    }
  }

  /** Adding items never removes a key. */
  lemma {:induction false} AddItemsKeeps<T>(m: map<string, T>, row: seq<(T, bool)>, key: T -> string, k: string)
    requires k in m
    ensures k in AddItems(m, row, key)
  {
    if row != [] {
      AddItemsKeeps(m, row[..|row| - 1], key, k);
    }
  }

  /** Whatever the table holds under an item's key is that item, when keys
    * determine items. */
  lemma {:induction false} ItemTableAgrees<T>(rows: StatusRows<T>, key: T -> string, x: T)
    requires forall a, q :: 0 <= a < |rows| && 0 <= q < |rows[a].1| && key(rows[a].1[q].0) == key(x) ==> rows[a].1[q].0 == x
    ensures key(x) in ItemTable(rows, key) ==> ItemTable(rows, key)[key(x)] == x
  {
    if rows != [] {
      var init := rows[..|rows| - 1];
      forall a, q | 0 <= a < |init| && 0 <= q < |init[a].1| && key(init[a].1[q].0) == key(x)
        ensures init[a].1[q].0 == x
      {
        assert init[a] == rows[a];
      }
      ItemTableAgrees(init, key, x);
      var last := rows[|rows| - 1];
      AddItemsAgree(ItemTable(init, key), last.1, key, x);
    }
  }

  /** Every written item's key is in the table. */
  lemma {:induction false} ItemTableHas<T>(rows: StatusRows<T>, key: T -> string, i: nat, p: nat)
    requires i < |rows| && p < |rows[i].1|
    ensures key(rows[i].1[p].0) in ItemTable(rows, key)
  {
    var init := rows[..|rows| - 1];
    var last := rows[|rows| - 1];
    if i == |rows| - 1 {
      AddItemsHas(ItemTable(init, key), last.1, key, p);
    } else {
      assert init[i] == rows[i];
      ItemTableHas(init, key, i, p);
      AddItemsKeeps(ItemTable(init, key), last.1, key, key(rows[i].1[p].0));
    }
  }

  /** When keys determine items, every written item is stored under its key. */
  lemma ItemTableLookup<T>(rows: StatusRows<T>, key: T -> string, i: nat, p: nat)
    requires i < |rows| && p < |rows[i].1|
    requires KeyDetermines(rows, key)
    ensures var x := rows[i].1[p].0;
            key(x) in ItemTable(rows, key) && ItemTable(rows, key)[key(x)] == x
  {
    ItemTableHas(rows, key, i, p);
    ItemTableAgrees(rows, key, rows[i].1[p].0);
  }

  lemma {:induction false} RegistryTableAgrees<T>(m: map<string, Registry>, rows: StatusRows<T>, r: Registry)
    requires RegistryKey(r) in m ==> m[RegistryKey(r)] == r
    requires forall a :: 0 <= a < |rows| && RegistryKey(rows[a].0) == RegistryKey(r) ==> rows[a].0 == r
    ensures RegistryKey(r) in RegistryTable(m, rows) ==> RegistryTable(m, rows)[RegistryKey(r)] == r
  {
    if rows != [] {
      var init := rows[..|rows| - 1];
      forall a | 0 <= a < |init| && RegistryKey(init[a].0) == RegistryKey(r)
        ensures init[a].0 == r
      {
        assert init[a] == rows[a];
      }
      RegistryTableAgrees(m, init, r);
    }
  }

  lemma {:induction false} RegistryTableHas<T>(m: map<string, Registry>, rows: StatusRows<T>, k: string)
    requires k in m || exists a :: 0 <= a < |rows| && RegistryKey(rows[a].0) == k
    ensures k in RegistryTable(m, rows)
  {
    if rows != [] && RegistryKey(rows[|rows| - 1].0) != k {
      var init := rows[..|rows| - 1];
      if k !in m {
        var a :| 0 <= a < |rows| && RegistryKey(rows[a].0) == k;
        assert init[a] == rows[a];
      }
      RegistryTableHas(m, init, k);
    }
  }

  /** The registry of row `i` and its `p`-th item are found in `read` under
    * their keys, with the item's flag. */
  predicate ReadBackAt<T(==)>(rows: StatusRows<T>, key: T -> string, read: map<string, ReadEntry<T>>, i: nat, p: nat)
    requires i < |rows| && p < |rows[i].1|
  {
    var rk := RegistryKey(rows[i].0);
    var x := rows[i].1[p];
    rk in read && read[rk].registry == Some(rows[i].0)
    && key(x.0) in read[rk].items && read[rk].items[key(x.0)] == (Some(x.0), x.1)
  }

  /** Half of the status round trip, for one status map and the registries
    * table it is read with. */
  lemma HalfRoundTrip<T>(rows: StatusRows<T>, key: T -> string, registries: map<string, Registry>, i: nat, p: nat)
    requires i < |rows| && p < |rows[i].1|
    requires forall a, b :: 0 <= a < b < |rows| ==> RegistryKey(rows[a].0) != RegistryKey(rows[b].0)
    requires forall a, b :: 0 <= a < b < |rows[i].1| ==> key(rows[i].1[a].0) != key(rows[i].1[b].0)
    requires KeyDetermines(rows, key)
    requires RegistryKey(rows[i].0) in registries && registries[RegistryKey(rows[i].0)] == rows[i].0
    ensures ReadBackAt(rows, key, ReadTable(StatusTable(rows, key), ItemTable(rows, key), registries), i, p)
  {
    StatusTableLookup(rows, key, i);
    RowFlagsLookup(rows[i].1, key, p);
    ItemTableLookup(rows, key, i, p);
  }

  /** Registries whose keys determine them across both status maps. */
  predicate RegistriesAgree(charts: StatusRows<Chart>, images: StatusRows<Image>)
  {
    (forall a, b :: 0 <= a < |charts| && 0 <= b < |images| && RegistryKey(charts[a].0) == RegistryKey(images[b].0)
       ==> charts[a].0 == images[b].0)
    && (forall a, b :: 0 <= a < b < |charts| ==> RegistryKey(charts[a].0) != RegistryKey(charts[b].0))
    && (forall a, b :: 0 <= a < b < |images| ==> RegistryKey(images[a].0) != RegistryKey(images[b].0))
  }

  /** Every registry of either status map is written under its key. */
  lemma WrittenRegistries(charts: StatusRows<Chart>, images: StatusRows<Image>)
    requires RegistriesAgree(charts, images)
    ensures var regs := WriteStatus(charts, images).registries;
            (forall a :: 0 <= a < |charts| ==> RegistryKey(charts[a].0) in regs && regs[RegistryKey(charts[a].0)] == charts[a].0)
            && (forall b :: 0 <= b < |images| ==> RegistryKey(images[b].0) in regs && regs[RegistryKey(images[b].0)] == images[b].0)
  {
    var inner := RegistryTable(map[], charts);
    forall a | 0 <= a < |charts|
      ensures RegistryKey(charts[a].0) in RegistryTable(inner, images)
      ensures RegistryTable(inner, images)[RegistryKey(charts[a].0)] == charts[a].0
    {
      var r := charts[a].0;
      RegistryTableHas(map[], charts, RegistryKey(r));
      RegistryTableAgrees(map[], charts, r);
      RegistryTableHas(inner, images, RegistryKey(r));
      RegistryTableAgrees(inner, images, r);
    }
    forall b | 0 <= b < |images|
      ensures RegistryKey(images[b].0) in RegistryTable(inner, images)
      ensures RegistryTable(inner, images)[RegistryKey(images[b].0)] == images[b].0
    {
      var r := images[b].0;
      RegistryTableAgrees(map[], charts, r);
      RegistryTableHas(inner, images, RegistryKey(r));
      RegistryTableAgrees(inner, images, r);
    }
  }

  /** Every registry, item and flag of `rows` is found in `read` under its keys. */
  predicate ReadBack<T(==)>(rows: StatusRows<T>, key: T -> string, read: map<string, ReadEntry<T>>)
  {
    forall i, p :: 0 <= i < |rows| && 0 <= p < |rows[i].1| ==> ReadBackAt(rows, key, read, i, p)
  }

  /** Round trip of the status maps: when registry keys are distinct and
    * agree across both maps, item keys are distinct within a registry and
    * determine their items, reading what was written gives every registry,
    * chart and image back under its key with its flag unchanged. */
  lemma StatusRoundTrip(charts: StatusRows<Chart>, images: StatusRows<Image>)
    requires RegistriesAgree(charts, images)
    requires forall i, a, b :: 0 <= i < |charts| && 0 <= a < b < |charts[i].1| ==> ChartStatusKey(charts[i].1[a].0) != ChartStatusKey(charts[i].1[b].0)
    requires forall i, a, b :: 0 <= i < |images| && 0 <= a < b < |images[i].1| ==> ImageKey(images[i].1[a].0) != ImageKey(images[i].1[b].0)
    requires KeyDetermines(charts, ChartStatusKey) && KeyDetermines(images, ImageKey)
    ensures var out := WriteStatus(charts, images);
            ReadBack(charts, ChartStatusKey, ReadTable(out.chartStatus, out.charts, out.registries))
            && ReadBack(images, ImageKey, ReadTable(out.imageStatus, out.images, out.registries))
  {
    var out := WriteStatus(charts, images);
    WrittenRegistries(charts, images);
    assert forall a, b :: 0 <= a < b < |charts| ==> RegistryKey(charts[a].0) != RegistryKey(charts[b].0);
    assert forall a, b :: 0 <= a < b < |images| ==> RegistryKey(images[a].0) != RegistryKey(images[b].0);
    AllReadBack(charts, ChartStatusKey, out.registries);
    AllReadBack(images, ImageKey, out.registries);
    assert out.chartStatus == StatusTable(charts, ChartStatusKey) && out.charts == ItemTable(charts, ChartStatusKey);
    assert out.imageStatus == StatusTable(images, ImageKey) && out.images == ItemTable(images, ImageKey);
  }

  /** Half of the status round trip, for every entry of one status map. */
  lemma AllReadBack<T>(rows: StatusRows<T>, key: T -> string, registries: map<string, Registry>)
    requires forall a, b :: 0 <= a < b < |rows| ==> RegistryKey(rows[a].0) != RegistryKey(rows[b].0)
    requires forall i, a, b :: 0 <= i < |rows| && 0 <= a < b < |rows[i].1| ==> key(rows[i].1[a].0) != key(rows[i].1[b].0)
    requires KeyDetermines(rows, key)
    requires forall i :: 0 <= i < |rows| ==> RegistryKey(rows[i].0) in registries && registries[RegistryKey(rows[i].0)] == rows[i].0
    ensures ReadBack(rows, key, ReadTable(StatusTable(rows, key), ItemTable(rows, key), registries))
  {
    var read := ReadTable(StatusTable(rows, key), ItemTable(rows, key), registries);
    forall i, p | 0 <= i < |rows| && 0 <= p < |rows[i].1|
      ensures ReadBackAt(rows, key, read, i, p)
    {
      HalfRoundTrip(rows, key, registries, i, p);
    }
  }

  /** The status maps as `IdentifyImportCandidates` builds them, with a key
    * per (chart, registry) pair, do not survive the write: all keys of one
    * registry share its registry key, and the last one written replaces the
    * others. With two charts and one registry, the file keeps the status of
    * whichever chart the map iteration visits last; the map grouped by
    * registry keeps both. */
  lemma PointerKeyedStatusKeepsOneChart(c1: Chart, c2: Chart, r: Registry, all: bool, fetch: Fetch)
    requires c1.name != "images" && c2.name != "images" && ChartStatusKey(c1) != ChartStatusKey(c2)
    ensures var rows := ChartImport.PointerKeyedChartStatus([c1, c2], [r], all, fetch);
            |rows| == 2
            && RegistryKey(r) in StatusTable(rows, ChartStatusKey)
            && StatusTable(rows, ChartStatusKey)[RegistryKey(r)].Keys == {ChartStatusKey(c2)}
            && RegistryKey(r) in StatusTable([rows[1], rows[0]], ChartStatusKey)
            && StatusTable([rows[1], rows[0]], ChartStatusKey)[RegistryKey(r)].Keys == {ChartStatusKey(c1)}
    ensures var grouped := [(r, ChartImport.ChartFlags([c1, c2], r, all, fetch))];
            RegistryKey(r) in StatusTable(grouped, ChartStatusKey)
            && StatusTable(grouped, ChartStatusKey)[RegistryKey(r)].Keys == {ChartStatusKey(c1), ChartStatusKey(c2)}
  {
    var f1 := ChartImport.ChartFlag(r, c1, all, fetch);
    var f2 := ChartImport.ChartFlag(r, c2, all, fetch);
    PointerKeyedTwoCharts(c1, c2, r, all, fetch);
    SameRegistryTwice(r, c1, f1, c2, f2, ChartStatusKey);
    SameRegistryTwice(r, c2, f2, c1, f1, ChartStatusKey);
    GroupedTwoCharts(c1, c2, r, all, fetch);
    OneRegistry(r, [(c1, f1), (c2, f2)], ChartStatusKey);
  }

  lemma PointerKeyedTwoCharts(c1: Chart, c2: Chart, r: Registry, all: bool, fetch: Fetch)
    requires c1.name != "images" && c2.name != "images"
    ensures ChartImport.PointerKeyedChartStatus([c1, c2], [r], all, fetch)
            == [(r, [(c1, ChartImport.ChartFlag(r, c1, all, fetch))]), (r, [(c2, ChartImport.ChartFlag(r, c2, all, fetch))])]
  {
    assert [c1, c2][..1] == [c1] && [c1][..0] == [];
    var f1 := ChartImport.ChartFlag(r, c1, all, fetch);
    var f2 := ChartImport.ChartFlag(r, c2, all, fetch);
    assert ChartImport.PointerKeyedChartStatus([c1], [r], all, fetch) == [(r, [(c1, f1)])];
    assert ChartImport.PointerKeyedChartStatus([c1, c2], [r], all, fetch) == [(r, [(c1, f1)])] + [(r, [(c2, f2)])];
  }

  lemma GroupedTwoCharts(c1: Chart, c2: Chart, r: Registry, all: bool, fetch: Fetch)
    requires c1.name != "images" && c2.name != "images"
    ensures ChartImport.ChartFlags([c1, c2], r, all, fetch)
            == [(c1, ChartImport.ChartFlag(r, c1, all, fetch)), (c2, ChartImport.ChartFlag(r, c2, all, fetch))]
  {
    assert [c1, c2][..1] == [c1] && [c1][..0] == [];
    assert ChartImport.ChartFlags([c1], r, all, fetch) == [(c1, ChartImport.ChartFlag(r, c1, all, fetch))];
  }

  /** Two one-entry rows of the same registry: the second replaces the first. */
  lemma SameRegistryTwice<T>(r: Registry, a: T, fa: bool, b: T, fb: bool, key: T -> string)
    ensures var rows: StatusRows<T> := [(r, [(a, fa)]), (r, [(b, fb)])];
            RegistryKey(r) in StatusTable(rows, key) && StatusTable(rows, key)[RegistryKey(r)] == map[key(b) := fb]
  {
    var rows: StatusRows<T> := [(r, [(a, fa)]), (r, [(b, fb)])];
    OneEntry(a, fa, key);
    OneEntry(b, fb, key);
    assert rows[..1] == [rows[0]] && rows[..1][..0] == [];
  }

  lemma OneEntry<T>(a: T, fa: bool, key: T -> string)
    ensures RowFlags([(a, fa)], key) == map[key(a) := fa]
  {
    var row := [(a, fa)];
    assert row[..0] == [];
  }

  /** A single row of a two-entry map keeps both keys. */
  lemma OneRegistry<T>(r: Registry, row: seq<(T, bool)>, key: T -> string)
    requires |row| == 2
    ensures RegistryKey(r) in StatusTable([(r, row)], key)
            && StatusTable([(r, row)], key)[RegistryKey(r)].Keys == {key(row[0].0), key(row[1].0)}
  {
    var rows: StatusRows<T> := [(r, row)];
    assert rows[..0] == [];
    assert row[..1] == [row[0]] && row[..1][..0] == [];
    assert RowFlags(row[..1], key) == map[key(row[0].0) := row[0].1];
    assert RowFlags(row, key) == map[key(row[0].0) := row[0].1][key(row[1].0) := row[1].1];
    assert StatusTable(rows, key) == map[RegistryKey(r) := RowFlags(row, key)];
  }
}
