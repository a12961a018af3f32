/** internal/bootstrap/viper.go: loading the configuration. The file is found
  * and decoded, flag defaults are filled in, the charts' inline values are
  * moved to files, the import section is validated and completed, and the
  * registries and images are converted to their runtime types. Reading and
  * decoding the file, the values-file writes and existence checks, the
  * environment and the reference parser are parameters. */
module Bootstrap {
  import opened Wrappers
  import opened Strs
  import opened Reference
  import Registries
  import Images
  import HelmValues
  import Charts

  // ---------------------------------------------------------------------
  // Mirrors (viper.go:86-100)
  // ---------------------------------------------------------------------

  /** `MirrorConfigSection` */
  datatype MirrorConfig = MirrorConfig(registry: string, mirror: string)

  /** `helm.Mirror` */
  datatype Mirror = Mirror(registry: string, mirror: string)

  /** The section a mirror was read from. */
  function SectionOf(m: Mirror): (c: MirrorConfig)
    ensures c.registry == m.registry && c.mirror == m.mirror
  {
    MirrorConfig(m.registry, m.mirror)
  }

  /** `ConvertToHelmMirrors`: one mirror per section, in order, field for
    * field (an empty input gives a nil slice, here the empty sequence). */
  method ConvertToHelmMirrors(configs: seq<MirrorConfig>) returns (mirrors: seq<Mirror>)
    ensures |mirrors| == |configs|
    ensures forall k :: 0 <= k < |configs| ==>
              mirrors[k].registry == configs[k].registry && mirrors[k].mirror == configs[k].mirror
  {
    mirrors := [];
    for k := 0 to |configs|
      invariant |mirrors| == k
      invariant forall i :: 0 <= i < k ==>
                  mirrors[i].registry == configs[i].registry && mirrors[i].mirror == configs[i].mirror
    {
      mirrors := mirrors + [Mirror(configs[k].registry, configs[k].mirror)];
    }
  }

  /** The conversion loses nothing: mapping the mirrors back gives the
    * sections. */
  method MirrorsRoundTrip(configs: seq<MirrorConfig>) returns (back: seq<MirrorConfig>)
    ensures back == configs
  {
    var mirrors := ConvertToHelmMirrors(configs);
    back := seq(|mirrors|, k requires 0 <= k < |mirrors| => SectionOf(mirrors[k]));
    assert forall k :: 0 <= k < |configs| ==> back[k] == configs[k];
  }

  // ---------------------------------------------------------------------
  // Where the file is looked for and the flag defaults (viper.go:114-141)
  // ---------------------------------------------------------------------

  /** The value of the "f" flag when it is not given. */
  const Unused: string := "unused"

  /** The places the configuration is read from: the search path for a
    * file named "helmper" when "-f" is not given, the named file otherwise. */
  function ConfigPaths(f: string): (r: seq<string>)
    ensures f == Unused ==> |r| == 3 && Unused !in r
    ensures f != Unused ==> r == [f]
  {
    if f == Unused then ["/etc/helmper/", "$HOME/.config/helmper", "."] else [f]
  }

  /** The four flags that get defaults; `None` when neither a flag nor the
    * file sets them. */
  datatype Flags = Flags(all: Option<bool>, verbose: Option<bool>, update: Option<bool>, k8sVersion: Option<string>)

  datatype Settings = Settings(all: bool, verbose: bool, update: bool, k8sVersion: string)

  const DefaultK8sVersion: string := "1.31.1"

  /** `SetDefault`: a value that is set wins; otherwise all, verbose and
    * update are false and the Kubernetes version is "1.31.1". */
  function Defaults(f: Flags): (s: Settings)
    ensures s.all == (f.all == Some(true)) && s.verbose == (f.verbose == Some(true))
    ensures s.update == (f.update == Some(true))
    ensures f.k8sVersion.None? ==> s.k8sVersion == DefaultK8sVersion
    ensures f.k8sVersion.Some? ==> s.k8sVersion == f.k8sVersion.value
  {
    Settings(f.all.UnwrapOr(false), f.verbose.UnwrapOr(false), f.update.UnwrapOr(false),
             f.k8sVersion.UnwrapOr(DefaultK8sVersion))
  }

  // ---------------------------------------------------------------------
  // Charts (viper.go:158-202)
  // ---------------------------------------------------------------------

  /** A chart as decoded, with its inline `values` map (entries in order). */
  datatype ChartInput = ChartInput(chart: Charts.Chart, values: seq<HelmValues.Entry>)

  /** A prepared chart: its values file resolved, and whether it is served
    * by the OCI registry client. */
  datatype LoadedChart = LoadedChart(chart: Charts.Chart, ociClient: bool)

  /** Writing inline values to a fresh temporary file: its name, or the
    * (already wrapped) error of marshalling, creating or writing. */
  type WriteValues = seq<HelmValues.Entry> -> Result<string>

  const BothValuesError: string :=
    "invalid chart configuration: cannot have both ValuesFilePath and Values defined at the same time"

  function MissingValuesError(path: string): string
  {
    "values file " + path + " does not exist"
  }

  /** The values file a chart ends up with: its own, or the temporary file
    * its inline values were written to. */
  function ValuesPath(c: ChartInput, write: WriteValues): Result<string>
  {
    if c.chart.valuesFilePath == "" && |c.values| > 0 then write(c.values) else Ok(c.chart.valuesFilePath)
  }

  /** One pass of the chart loop. */
  function PrepareChart(c: ChartInput, failOnMissingValues: bool, fileExists: string -> bool,
                        write: WriteValues): Result<LoadedChart>
  {
    if c.chart.valuesFilePath != "" && |c.values| > 0 then Err(BothValuesError)
    else
      match ValuesPath(c, write)
      case Err(e) => Err(e)
      case Ok(path) =>
        if failOnMissingValues && path != "" && !fileExists(path) then Err(MissingValuesError(path))
        else Ok(LoadedChart(c.chart.(valuesFilePath := path), HasPrefix(c.chart.repo.url, "oci://")))
  }

  /** A chart is rejected when it has both a values file and inline values;
    * inline values alone are written out and the chart points at the
    * written file; with `failOnMissingValues` a chart is accepted only when
    * it has no values file or the file exists; nothing else about the chart
    * changes, and an "oci://" repository selects the OCI client. */
  lemma PrepareChartRules(c: ChartInput, failOnMissingValues: bool, fileExists: string -> bool, write: WriteValues)
    ensures c.chart.valuesFilePath != "" && |c.values| > 0 ==>
              PrepareChart(c, failOnMissingValues, fileExists, write) == Err(BothValuesError)
    ensures var r := PrepareChart(c, failOnMissingValues, fileExists, write);
            r.Ok? ==>
              r.value.chart == c.chart.(valuesFilePath := r.value.chart.valuesFilePath)
              && r.value.ociClient == HasPrefix(c.chart.repo.url, "oci://")
              && (|c.values| > 0 ==> write(c.values) == Ok(r.value.chart.valuesFilePath))
              && (|c.values| == 0 ==> r.value.chart == c.chart)
              && (failOnMissingValues && r.value.chart.valuesFilePath != "" ==> fileExists(r.value.chart.valuesFilePath))
    ensures failOnMissingValues && c.chart.valuesFilePath != "" && |c.values| == 0 ==>
              (PrepareChart(c, failOnMissingValues, fileExists, write).Ok? <==> fileExists(c.chart.valuesFilePath))
    ensures !failOnMissingValues && |c.values| == 0 ==>
              PrepareChart(c, failOnMissingValues, fileExists, write).Ok?
  {
  }

  // ---------------------------------------------------------------------
  // First error of a sequence of steps
  // ---------------------------------------------------------------------

  /** The values of `rs` when every step succeeded, otherwise the first
    * error: a loop that returns on the first failure. */
  function AllOk<T>(rs: seq<Result<T>>): (r: Result<seq<T>>)
    ensures r.Ok? ==> |r.value| == |rs|
  {
    if rs == [] then Ok([])
    else
      match AllOk(rs[..|rs| - 1])
      case Err(e) => Err(e)
      case Ok(vs) =>
        match rs[|rs| - 1]
        case Err(e) => Err(e)
        case Ok(v) => Ok(vs + [v])
  }

  /** The position of the first failed step. */
  predicate FirstFailure<T>(rs: seq<Result<T>>, n: nat)
  {
    n < |rs| && rs[n].Err? && forall k :: 0 <= k < n ==> rs[k].Ok?
  }

  /** `AllOk` succeeds iff every step does, and then gives every step's
    * value in order; otherwise it gives the error of the first failed
    * step. */
  lemma {:induction false} AllOkIff<T>(rs: seq<Result<T>>)
    ensures AllOk(rs).Ok? <==> forall k :: 0 <= k < |rs| ==> rs[k].Ok?
    ensures AllOk(rs).Ok? ==> forall k :: 0 <= k < |rs| ==> AllOk(rs).value[k] == rs[k].value
    ensures AllOk(rs).Err? ==> exists n: nat :: FirstFailure(rs, n) && AllOk(rs).error == rs[n].error
  {
    if rs != [] {
      var init := rs[..|rs| - 1];
      AllOkIff(init);
      assert forall k :: 0 <= k < |init| ==> init[k] == rs[k];
      if AllOk(init).Err? {
        var n: nat :| FirstFailure(init, n) && AllOk(init).error == init[n].error;
        assert FirstFailure(rs, n);
      } else if rs[|rs| - 1].Err? {
        assert FirstFailure(rs, |rs| - 1);
      }
    }
  }

  /** Steps run one by one; the first failure ends the loop. */
  lemma AllOkNext<T>(rs: seq<Result<T>>, k: nat)
    requires k < |rs|
    ensures AllOk(rs[..k + 1]) == (match AllOk(rs[..k])
                                   case Err(e) => Err(e)
                                   case Ok(vs) => (match rs[k]
                                                   case Err(e) => Err(e)
                                                   case Ok(v) => Ok(vs + [v])))
  {
    assert rs[..k + 1][..k] == rs[..k];
  }

  lemma {:induction false} AllOkErrSticks<T>(rs: seq<Result<T>>, n: nat)
    requires n <= |rs| && AllOk(rs[..n]).Err?
    ensures AllOk(rs) == AllOk(rs[..n])
    decreases |rs| - n
  {
    if n < |rs| {
      assert rs[..|rs| - 1][..n] == rs[..n];
      AllOkErrSticks(rs[..|rs| - 1], n);
    } else {
      assert rs[..n] == rs;
    }
  }

  function ChartSteps(cs: seq<ChartInput>, failOnMissingValues: bool, fileExists: string -> bool,
                      write: WriteValues): (r: seq<Result<LoadedChart>>)
    ensures |r| == |cs|
    ensures forall k :: 0 <= k < |cs| ==> r[k] == PrepareChart(cs[k], failOnMissingValues, fileExists, write)
  {
    seq(|cs|, k requires 0 <= k < |cs| => PrepareChart(cs[k], failOnMissingValues, fileExists, write))
  }

  /** The chart loop: every chart is prepared in order; the first rejected
    * chart ends the load with its error. */
  method PrepareCharts(cs: seq<ChartInput>, failOnMissingValues: bool, fileExists: string -> bool,
                       write: WriteValues) returns (r: Result<seq<LoadedChart>>)
    ensures r == AllOk(ChartSteps(cs, failOnMissingValues, fileExists, write))
  {
    ghost var steps := ChartSteps(cs, failOnMissingValues, fileExists, write);
    var out: seq<LoadedChart> := [];
    for k := 0 to |cs|
      invariant AllOk(steps[..k]) == Ok(out)
    {
      AllOkNext(steps, k);
      var c := cs[k];
      if c.chart.valuesFilePath != "" && |c.values| > 0 {
        AllOkErrSticks(steps, k + 1);
        assert steps[..|steps|] == steps;
        return Err(BothValuesError);
      }
      var path := c.chart.valuesFilePath;
      if path == "" && |c.values| > 0 {
        var w := write(c.values);
        if w.Err? {
          AllOkErrSticks(steps, k + 1);
          assert steps[..|steps|] == steps;
          return Err(w.error);
        }
        path := w.value;
      }
      if failOnMissingValues {
        if path != "" && !fileExists(path) {
          AllOkErrSticks(steps, k + 1);
          assert steps[..|steps|] == steps;
          return Err(MissingValuesError(path));
        }
      }
      out := out + [LoadedChart(c.chart.(valuesFilePath := path), HasPrefix(c.chart.repo.url, "oci://"))];
    }
    assert steps[..|steps|] == steps;
    return Ok(out);
  }

  // ---------------------------------------------------------------------
  // The import section (viper.go:24-64, 205-278)
  // ---------------------------------------------------------------------

  datatype Buildkitd = Buildkitd(addr: string, caCertPath: string, certPath: string, keyPath: string)
  datatype TrivyConfig = TrivyConfig(addr: string, insecure: bool, ignoreUnfixed: bool)
  datatype OutputFolder = OutputFolder(clean: bool, folder: string)
  datatype CopaConfig = CopaConfig(enabled: bool, ignoreErrors: bool, buildkitd: Buildkitd, trivy: TrivyConfig,
                                   tars: OutputFolder, reports: OutputFolder)
  datatype CosignConfig = CosignConfig(enabled: bool, verifyExisting: bool, keyRef: string,
                                       keyRefPass: Option<string>, pubKeyRef: Option<string>,
                                       allowHTTPRegistry: bool, allowInsecure: bool)
  /** `ImportConfigSection.Import` */
  datatype ImportConfig = ImportConfig(enabled: bool, architecture: Option<string>, replaceRegistryReferences: bool,
                                       copacetic: CopaConfig, cosign: CosignConfig)

  const DefaultBuildkitAddr: string := "unix:///run/buildkit/buildkitd.sock"

  const CosignKeyRefError: string :=
    "You have enabled cosign but did not specify any keyRef. Please specify a keyRef and try again..\nExample config:\n"
    + "\nimport:\n  cosign:\n    enabled: true\n    keyRef: \"\"     <---\n"

  const TrivyAddrError: string :=
    "You have enabled copacetic patching but did not specify the path to the Trivy server. Please add the value and try again...\nExample config:\n"
    + "\nimport:\n  copacetic:\n    enabled: true\n    trivy:\n      addr: http://0.0.0.0:8887  <---\n"

  const ReportsFolderError: string :=
    "You have enabled copacetic patching but did not specify the path to the reports output folder'. Please add the value and try again\nExample:\n"
    + "\ncopacetic:\n  enabled: true\n  output:\n    reports:\n      folder: /workspace/.out/reports  <---\n"

  const TarsFolderError: string :=
    "You have enabled copacetic patching but did not specify the path to the tars output folder'. Please add the value and try again\nExample:\n"
    + "\ncopacetic:\n  enabled: true\n  output:\n    tars:\n      folder: /workspace/.out/tars  <---\n"

  /** The public key next to a private key, as written: when the reference
    * ends in ".key", the FIRST ".key" in it becomes ".pub". */
  function PubKeyRefAsWritten(keyRef: string): string
  {
    if HasSuffix(keyRef, ".key") then ReplaceFirst(keyRef, ".key", ".pub") else keyRef
  }

  /** A key kept in a directory whose name contains ".key" gets its
    * directory renamed instead of its extension. */
  lemma PubKeyRefAsWrittenRenamesDirectory()
    ensures PubKeyRefAsWritten(".keys/cosign.key") == ".pubs/cosign.key"
    ensures !HasSuffix(PubKeyRefAsWritten(".keys/cosign.key"), ".pub")
  {
    var rest := "s/cosign.key";
    var s := ".key" + rest;
    assert s == ".keys/cosign.key";
    assert s[..4] == ".key" && s[|s| - 4..] == rest[|rest| - 4..] == ".key";
    ReplaceFirstLeading(s, ".key", ".pub");
    assert s[4..] == rest;
    var r := ".pub" + rest;
    assert r == ".pubs/cosign.key";
    assert r[|r| - 4..] == rest[|rest| - 4..];
  }

  /** The public key next to a private key: a trailing ".key" becomes
    * ".pub"; any other reference is used as it is. */
  function PubKeyRef(keyRef: string): (r: string)
    ensures HasSuffix(keyRef, ".key") ==>
              HasSuffix(r, ".pub") && |r| == |keyRef| && r[..|r| - 4] == keyRef[..|keyRef| - 4]
    ensures !HasSuffix(keyRef, ".key") ==> r == keyRef
  {
    if HasSuffix(keyRef, ".key") then keyRef[..|keyRef| - 4] + ".pub" else keyRef
  }

  /** Where ".key" occurs only at the end, the code as written agrees with
    * the corrected rule. */
  lemma PubKeyRefAgrees(keyRef: string)
    requires HasSuffix(keyRef, ".key")
    requires forall j: nat :: j < |keyRef| - 4 ==> !OccursAt(keyRef, ".key", j)
    ensures PubKeyRefAsWritten(keyRef) == PubKeyRef(keyRef)
  {
    assert OccursAt(keyRef, ".key", |keyRef| - 4);
    IndexOfIs(keyRef, ".key", |keyRef| - 4);
    assert keyRef[|keyRef| - 4 + 4..] == [];
  }

  /** Cosign's completed settings: the password from `COSIGN_PASSWORD` and
    * the public key next to the private one, each when not given. */
  function CosignDefaults(c: CosignConfig, cosignPassword: string): (o: CosignConfig)
  {
    if !c.enabled then c
    else c.(keyRefPass := if c.keyRefPass.None? then Some(cosignPassword) else c.keyRefPass,
            pubKeyRef := if c.pubKeyRef.None? then Some(PubKeyRefAsWritten(c.keyRef)) else c.pubKeyRef)
  }

  /** Copacetic's checked settings: the local buildkit socket when no
    * address is given; the Trivy address and both output folders are
    * required, and checked in that order. */
  function CopaChecked(c: CopaConfig): Result<CopaConfig>
  {
    if !c.enabled then Ok(c)
    else if c.trivy.addr == "" then Err(TrivyAddrError)
    else if c.reports.folder == "" then Err(ReportsFolderError)
    else if c.tars.folder == "" then Err(TarsFolderError)
    else Ok(c.(buildkitd := c.buildkitd.(addr := if c.buildkitd.addr == "" then DefaultBuildkitAddr else c.buildkitd.addr)))
  }

  /** The import section after validation: cosign needs a key reference,
    * then both sections are completed and Copacetic's is checked. */
  function ImportChecked(ic: ImportConfig, cosignPassword: string): Result<ImportConfig>
  {
    if ic.cosign.enabled && ic.cosign.keyRef == "" then Err(CosignKeyRefError)
    else
      match CopaChecked(ic.copacetic)
      case Err(e) => Err(e)
      case Ok(copa) => Ok(ic.(cosign := CosignDefaults(ic.cosign, cosignPassword), copacetic := copa))
  }

  /** Cosign's settings change only where they are unset and cosign is
    * enabled: the password becomes the environment's, and a private key
    * that does not end in ".key" is its own public key. */
  lemma CosignDefaultsRules(c: CosignConfig, cosignPassword: string)
    ensures var o := CosignDefaults(c, cosignPassword);
            o == c.(keyRefPass := o.keyRefPass, pubKeyRef := o.pubKeyRef)
            && (!c.enabled || c.keyRefPass.Some? ==> o.keyRefPass == c.keyRefPass)
            && (c.enabled && c.keyRefPass.None? ==> o.keyRefPass == Some(cosignPassword))
            && (!c.enabled || c.pubKeyRef.Some? ==> o.pubKeyRef == c.pubKeyRef)
            && (c.enabled && c.pubKeyRef.None? && !HasSuffix(c.keyRef, ".key") ==> o.pubKeyRef == Some(c.keyRef))
  {
  }

  /** A missing public key next to a private key ending in ".key" is the
    * private key with its FIRST ".key" turned into ".pub". */
  lemma CosignDefaultsPubKey(c: CosignConfig, cosignPassword: string)
    requires c.enabled && c.pubKeyRef.None? && HasSuffix(c.keyRef, ".key")
    ensures var o := CosignDefaults(c, cosignPassword);
            o.pubKeyRef.Some?
            && exists i: nat :: OccursAt(c.keyRef, ".key", i) && !Contains(c.keyRef[..i], ".key")
                                && o.pubKeyRef.value == c.keyRef[..i] + ".pub" + c.keyRef[i + 4..]
  {
    assert CosignDefaults(c, cosignPassword).pubKeyRef == Some(ReplaceFirst(c.keyRef, ".key", ".pub"));
    assert OccursAt(c.keyRef, ".key", |c.keyRef| - 4);
    ReplaceFirstFound(c.keyRef, ".key", ".pub");
  }

  /** Where the only ".key" is the trailing one, the default public key is
    * the private key with its extension turned into ".pub". */
  lemma CosignDefaultsTrailingKey(c: CosignConfig, cosignPassword: string)
    requires c.enabled && c.pubKeyRef.None? && HasSuffix(c.keyRef, ".key")
    requires forall j: nat :: j < |c.keyRef| - 4 ==> !OccursAt(c.keyRef, ".key", j)
    ensures var o := CosignDefaults(c, cosignPassword);
            o.pubKeyRef.Some? && HasSuffix(o.pubKeyRef.value, ".pub")
            && o.pubKeyRef.value[..|o.pubKeyRef.value| - 4] == c.keyRef[..|c.keyRef| - 4]
  {
    PubKeyRefAgrees(c.keyRef);
  }

  /** Copacetic's check fails iff it is enabled and the Trivy address or an
    * output folder is missing, reporting the first missing one; otherwise
    * only an empty buildkit address of an enabled section changes, to the
    * local socket. */
  lemma CopaCheckedRules(c: CopaConfig)
    ensures CopaChecked(c).Ok? <==> !(c.enabled && (c.trivy.addr == "" || c.reports.folder == "" || c.tars.folder == ""))
    ensures c.enabled && c.trivy.addr == "" ==> CopaChecked(c) == Err(TrivyAddrError)
    ensures c.enabled && c.trivy.addr != "" && c.reports.folder == "" ==> CopaChecked(c) == Err(ReportsFolderError)
    ensures c.enabled && c.trivy.addr != "" && c.reports.folder != "" && c.tars.folder == "" ==>
              CopaChecked(c) == Err(TarsFolderError)
    ensures var r := CopaChecked(c);
            r.Ok? ==>
              r.value == c.(buildkitd := c.buildkitd.(addr := r.value.buildkitd.addr))
              && (c.enabled && c.buildkitd.addr == "" ==> r.value.buildkitd.addr == DefaultBuildkitAddr)
              && (!c.enabled || c.buildkitd.addr != "" ==> r.value.buildkitd.addr == c.buildkitd.addr)
  {
  }

  /** A missing cosign key reference is reported before anything about
    * Copacetic; the rest of the section is kept. */
  lemma ImportCheckedRules(ic: ImportConfig, cosignPassword: string)
    ensures ic.cosign.enabled && ic.cosign.keyRef == "" ==> ImportChecked(ic, cosignPassword) == Err(CosignKeyRefError)
    ensures ImportChecked(ic, cosignPassword).Ok? <==>
              !(ic.cosign.enabled && ic.cosign.keyRef == "") && CopaChecked(ic.copacetic).Ok?
    ensures var r := ImportChecked(ic, cosignPassword);
            r.Ok? ==>
              r.value.enabled == ic.enabled && r.value.architecture == ic.architecture
              && r.value.replaceRegistryReferences == ic.replaceRegistryReferences
  {
  }

  /** The validation, setting field after field (viper.go:210-278). */
  method CheckImport(ic: ImportConfig, cosignPassword: string) returns (r: Result<ImportConfig>)
    ensures r == ImportChecked(ic, cosignPassword)
  {
    if ic.cosign.enabled && ic.cosign.keyRef == "" {
      return Err(CosignKeyRefError);
    }
    var cosign := CompleteCosign(ic.cosign, cosignPassword);
    var copa := CheckCopacetic(ic.copacetic);
    if copa.Err? {
      return Err(copa.error);
    }
    return Ok(ic.(cosign := cosign, copacetic := copa.value));
  }

  /** The cosign part of `CheckImport`, one setting at a time. */
  method CompleteCosign(c: CosignConfig, cosignPassword: string) returns (o: CosignConfig)
    ensures o == CosignDefaults(c, cosignPassword)
  {
    o := c;
    if o.enabled && o.keyRefPass.None? {
      o := o.(keyRefPass := Some(cosignPassword));
    }
    if o.enabled && o.pubKeyRef.None? {
      o := o.(pubKeyRef := Some(PubKeyRefAsWritten(o.keyRef)));
    }
  }

  /** The Copacetic part of `CheckImport`: the socket default is set before
    * the required settings are checked. */
  method CheckCopacetic(c: CopaConfig) returns (r: Result<CopaConfig>)
    ensures r == CopaChecked(c)
  {
    var conf := c;
    if conf.enabled {
      if conf.buildkitd.addr == "" {
        conf := conf.(buildkitd := conf.buildkitd.(addr := DefaultBuildkitAddr));
      }
      if conf.trivy.addr == "" {
        return Err(TrivyAddrError);
      }
      if conf.reports.folder == "" {
        return Err(ReportsFolderError);
      }
      if conf.tars.folder == "" {
        return Err(TarsFolderError);
      }
    }
    return Ok(conf);
  }

  // ---------------------------------------------------------------------
  // Registries and images (viper.go:66-77, 282-304)
  // ---------------------------------------------------------------------

  /** `imageConfigSection` */
  datatype ImageConfig = ImageConfig(ref: string, patch: Option<bool>)

  /** `registryConfigSection` */
  datatype RegistryConfig = RegistryConfig(name: string, url: string, insecure: bool, plainHTTP: bool, sourcePrefix: bool)

  /** The section a registry was read from. */
  function RegistrySectionOf(r: Registries.Registry): (c: RegistryConfig)
    ensures c.name == r.name && c.url == r.url && c.insecure == r.insecure
    ensures c.plainHTTP == r.plainHTTP && c.sourcePrefix == r.prefixSource
  {
    RegistryConfig(r.name, r.url, r.insecure, r.plainHTTP, r.prefixSource)
  }

  /** One registry per section, in order, field for field. */
  method ConvertRegistries(configs: seq<RegistryConfig>) returns (rs: seq<Registries.Registry>)
    ensures |rs| == |configs|
    ensures forall k :: 0 <= k < |configs| ==> RegistrySectionOf(rs[k]) == configs[k]
  {
    rs := [];
    for k := 0 to |configs|
      invariant |rs| == k
      invariant forall i :: 0 <= i < k ==> RegistrySectionOf(rs[i]) == configs[i]
    {
      var r := configs[k];
      rs := rs + [Registries.Registry(r.name, r.url, r.insecure, r.plainHTTP, r.sourcePrefix)];
    }
  }

  function ImageSteps(configs: seq<ImageConfig>, parse: ParseAny): (r: seq<Result<Images.Image>>)
    ensures |r| == |configs|
    ensures forall k :: 0 <= k < |configs| ==> r[k] == Images.RefToImage(configs[k].ref, parse)
  {
    seq(|configs|, k requires 0 <= k < |configs| => Images.RefToImage(configs[k].ref, parse))
  }

  /** The image loop: every reference is converted in order; the first
    * that does not convert ends the load with its error. */
  method ConvertImages(configs: seq<ImageConfig>, parse: ParseAny) returns (r: Result<seq<Images.Image>>)
    ensures r == AllOk(ImageSteps(configs, parse))
  {
    ghost var steps := ImageSteps(configs, parse);
    var out: seq<Images.Image> := [];
    for k := 0 to |configs|
      invariant AllOk(steps[..k]) == Ok(out)
    {
      AllOkNext(steps, k);
      var img := Images.RefToImage(configs[k].ref, parse);
      if img.Err? {
        AllOkErrSticks(steps, k + 1);
        assert steps[..|steps|] == steps;
        return Err(img.error);
      }
      out := out + [img.value];
    }
    assert steps[..|steps|] == steps;
    return Ok(out);
  }

  /** The images loaded from the configuration never carry its `patch`
    * setting: each is the converted reference alone. */
  lemma LoadedImagesIgnorePatch(configs: seq<ImageConfig>, parse: ParseAny)
    ensures var r := AllOk(ImageSteps(configs, parse));
            r.Ok? ==> forall k :: 0 <= k < |configs| ==> r.value[k].patch.None? && r.value[k].parsedRef.None?
  {
    AllOkIff(ImageSteps(configs, parse));
  }

  // ---------------------------------------------------------------------
  // `LoadViperConfiguration` (viper.go:111-312)
  // ---------------------------------------------------------------------

  /** `ParserConfigSection` */
  datatype ParserConfig = ParserConfig(disableImageDetection: bool, useCustomValues: bool,
                                       failOnMissingValues: bool, failOnMissingImages: bool)

  /** `config` */
  datatype Config = Config(parser: ParserConfig, images: seq<ImageConfig>, registries: seq<RegistryConfig>,
                           mirrors: seq<MirrorConfig>)

  /** What the configuration decodes into, or the decoder's error. */
  datatype Decoded = Decoded(conf: Result<Config>, charts: Result<seq<ChartInput>>, importConf: Result<ImportConfig>)

  /** The state stored in viper. */
  datatype Loaded = Loaded(settings: Settings, config: Config, charts: seq<LoadedChart>, importConfig: ImportConfig,
                           registries: seq<Registries.Registry>, images: seq<Images.Image>)

  /** The outcome: the state (absent when the load stopped early) and the
    * error. A reference that does not convert returns the state stored so
    * far, without images, together with the error. */
  datatype Outcome = Outcome(state: Option<Loaded>, err: Option<string>)

  /** `LoadViperConfiguration`. `read` finds and reads the file among the
    * given places; `flags` are the flag values and the file's values for
    * the defaulted keys. */
  method Load(f: string, read: seq<string> -> Option<string>, flags: Flags, decoded: Decoded,
              fileExists: string -> bool, write: WriteValues, cosignPassword: string, parse: ParseAny)
    returns (out: Outcome)
    ensures read(ConfigPaths(f)).Some? ==> out == Outcome(None, read(ConfigPaths(f)))
    ensures out.err.None? <==>
              read(ConfigPaths(f)).None? && decoded.conf.Ok? && decoded.charts.Ok? && decoded.importConf.Ok?
              && AllOk(ChartSteps(decoded.charts.value, decoded.conf.value.parser.failOnMissingValues, fileExists, write)).Ok?
              && ImportChecked(decoded.importConf.value, cosignPassword).Ok?
              && AllOk(ImageSteps(decoded.conf.value.images, parse)).Ok?
    ensures out.err.None? ==>
              var conf := decoded.conf.value;
              out.state.Some?
              && out.state.value.settings == Defaults(flags)
              && out.state.value.config == conf
              && out.state.value.charts == AllOk(ChartSteps(decoded.charts.value, conf.parser.failOnMissingValues, fileExists, write)).value
              && Ok(out.state.value.importConfig) == ImportChecked(decoded.importConf.value, cosignPassword)
              && |out.state.value.registries| == |conf.registries|
              && (forall k :: 0 <= k < |conf.registries| ==> RegistrySectionOf(out.state.value.registries[k]) == conf.registries[k])
              && out.state.value.images == AllOk(ImageSteps(conf.images, parse)).value
    ensures out.state.Some? && out.err.Some? ==> out.state.value.images == []
  {
    var readErr := read(ConfigPaths(f));
    if readErr.Some? {
      return Outcome(None, readErr);
    }
    var settings := Defaults(flags);
    if decoded.conf.Err? {
      return Outcome(None, Some(decoded.conf.error));
    }
    var conf := decoded.conf.value;
    if decoded.charts.Err? {
      return Outcome(None, Some(decoded.charts.error));
    }
    var charts := PrepareCharts(decoded.charts.value, conf.parser.failOnMissingValues, fileExists, write);
    if charts.Err? {
      return Outcome(None, Some(charts.error));
    }
    if decoded.importConf.Err? {
      return Outcome(None, Some(decoded.importConf.error));
    }
    var importConf := CheckImport(decoded.importConf.value, cosignPassword);
    if importConf.Err? {
      return Outcome(None, Some(importConf.error));
    }
    var rs := ConvertRegistries(conf.registries);
    var state := Loaded(settings, conf, charts.value, importConf.value, rs, []);
    var imgs := ConvertImages(conf.images, parse);
    AllOkIff(ImageSteps(conf.images, parse));
    if imgs.Err? {
      return Outcome(Some(state), Some(imgs.error));
    }
    return Outcome(Some(state.(images := imgs.value)), None);
  }
}
