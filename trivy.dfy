/** pkg/trivy: the Trivy command line that helmper builds for a scan, and the
  * one question it asks of a scan report (does it list OS packages). The
  * trivy binary, its JSON output and its result filter are parameters. */
module Trivy {
  import opened Wrappers

  /** One finding of a scan; helmper never looks inside it. */
  datatype Vulnerability = Vulnerability(id: string, pkgName: string, status: string, severity: string)

  /** `types.Result`: one scanned target, its class ("os-pkgs",
    * "lang-pkgs", ...) and its findings. */
  datatype ScanResult = ScanResult(target: string, resultClass: string, vulnerabilities: seq<Vulnerability>)

  /** `types.OS` as reported in the scan metadata. */
  datatype OS = OS(family: string, name: string)

  /** `types.Report`: the artifact, the OS Trivy detected (nil when none) and
    * the per-target results. */
  datatype Report = Report(artifactName: string, os: Option<OS>, results: seq<ScanResult>)

  /** `types.Report{}` */
  const EmptyReport: Report := Report("", None, [])

  /** The class of every result, in order. */
  function Classes(rs: seq<ScanResult>): (cs: seq<string>)
    ensures |cs| == |rs|
    ensures forall k :: 0 <= k < |rs| ==> cs[k] == rs[k].resultClass
  {
    if rs == [] then [] else [rs[0].resultClass] + Classes(rs[1..])
  }

  /** `ContainsOsPkgs`: the early-return search for a result of class
    * "os-pkgs". Only the classes decide the answer, so a result of that class
    * counts whether or not it lists vulnerabilities, and an empty list gives
    * false. */
  method ContainsOsPkgs(rs: seq<ScanResult>) returns (b: bool)
    ensures b <==> "os-pkgs" in Classes(rs)
  {
    var k := 0;
    while k < |rs|
      invariant 0 <= k <= |rs|
      invariant forall j :: 0 <= j < k ==> rs[j].resultClass != "os-pkgs"
    {
      if rs[k].resultClass == "os-pkgs" {
        assert Classes(rs)[k] == "os-pkgs";
        return true;
      }
      k := k + 1;
    }
    var cs := Classes(rs);
    assert forall j :: 0 <= j < |cs| ==> cs[j] != "os-pkgs";
    return false;
  }

  /** The answer the package's own test expects: a result of class
    * "os-pkgs" counts only when it lists at least one vulnerability. */
  function HasOsPkgFindings(rs: seq<ScanResult>): (b: bool)
    ensures b <==> exists k :: 0 <= k < |rs| && rs[k].resultClass == "os-pkgs" && rs[k].vulnerabilities != []
  {
    if rs == [] then false
    else
      var rest := HasOsPkgFindings(rs[1..]);
      assert forall k :: 1 <= k < |rs| ==> rs[k] == rs[1..][k - 1];
      (rs[0].resultClass == "os-pkgs" && rs[0].vulnerabilities != []) || rest
  }

  /** Whatever the test expects to count also counts for the code. */
  lemma OsPkgFindingsAreOsPkgs(rs: seq<ScanResult>)
    requires HasOsPkgFindings(rs)
    ensures "os-pkgs" in Classes(rs)
  {
    var k :| 0 <= k < |rs| && rs[k].resultClass == "os-pkgs" && rs[k].vulnerabilities != [];
    assert Classes(rs)[k] == "os-pkgs";
  }

  /** The two disagree on an "os-pkgs" result without vulnerabilities: the
    * code answers true (so the image is sent to patching), the test false. */
  lemma EmptyOsPkgsDisagree()
    ensures var rs := [ScanResult("", "os-pkgs", [])];
            "os-pkgs" in Classes(rs) && !HasOsPkgFindings(rs)
  {
    var rs := [ScanResult("", "os-pkgs", [])];
    assert Classes(rs)[0] == "os-pkgs";
  }

  /** `ScanOption`: the Docker host is carried but never reaches the command
    * line. */
  datatype ScanOption = ScanOption(
    dockerHost: string,
    trivyServer: string,
    insecure: bool,
    ignoreUnfixed: bool,
    architecture: Option<string>)

  /** The fixed start of every scan command line. */
  const ScanPrefix: seq<string> := ["image", "--format", "json"]

  /** The command line of `Scan`, as the concatenation of its optional
    * parts. */
  function ScanArgList(o: ScanOption, reference: string): (args: seq<string>)
  {
    ScanPrefix + PlatformPart(o) + ServerPart(o) + InsecurePart(o) + UnfixedPart(o) + [reference]
  }

  function PlatformPart(o: ScanOption): seq<string>
  {
    if o.architecture.Some? then ["--platform", o.architecture.value] else []
  }

  function ServerPart(o: ScanOption): seq<string>
  {
    if o.trivyServer != "" then ["--server", o.trivyServer] else []
  }

  function InsecurePart(o: ScanOption): seq<string>
  {
    if o.insecure then ["--insecure"] else []
  }

  function UnfixedPart(o: ScanOption): seq<string>
  {
    if o.ignoreUnfixed then ["--ignore-unfixed"] else []
  }

  /** `Scan` grows `args` by successive appends before running trivy. */
  method ScanArgs(o: ScanOption, reference: string) returns (args: seq<string>)
    ensures args == ScanArgList(o, reference)
  {
    args := ["image", "--format", "json"];
    if o.architecture.Some? {
      args := args + ["--platform", o.architecture.value];
    }
    if o.trivyServer != "" {
      args := args + ["--server", o.trivyServer];
    }
    if o.insecure {
      args := args + ["--insecure"];
    }
    if o.ignoreUnfixed {
      args := args + ["--ignore-unfixed"];
    }
    args := args + [reference];
  }

  /** What a command line says about the options that produced it. */
  datatype ScanArgsView = ScanArgsView(
    architecture: Option<string>,
    trivyServer: string,
    insecure: bool,
    ignoreUnfixed: bool,
    reference: string)

  /** Takes "flag value" off the front when something is left after it. */
  function TakeValueFlag(r: seq<string>, flag: string): (Option<string>, seq<string>)
  {
    if |r| >= 3 && r[0] == flag then (Some(r[1]), r[2..]) else (None, r)
  }

  /** Takes "flag" off the front when something is left after it. */
  function TakeFlag(r: seq<string>, flag: string): (bool, seq<string>)
  {
    if |r| >= 2 && r[0] == flag then (true, r[1..]) else (false, r)
  }

  /** Reads a scan command line back: the fixed prefix, then each optional
    * flag in its place, then exactly one reference. A flag is only taken
    * when something is left after it for the reference. */
  function ReadScanArgs(args: seq<string>): (v: Option<ScanArgsView>)
  {
    if |args| < 4 || args[..3] != ScanPrefix then None else ReadScanTail(args[3..])
  }

  /** The part of `ReadScanArgs` after the fixed prefix. */
  function ReadScanTail(r0: seq<string>): (v: Option<ScanArgsView>)
  {
    var a := TakeValueFlag(r0, "--platform");
    var b := TakeValueFlag(a.1, "--server");
    var c := TakeFlag(b.1, "--insecure");
    var d := TakeFlag(c.1, "--ignore-unfixed");
    if |d.1| == 1 then Some(ScanArgsView(a.0, b.0.UnwrapOr(""), c.0, d.0, d.1[0])) else None
  }

  /** The tail of a command line after the platform part: optional flags
    * among `flags`, then the reference. */
  predicate TailAfter(r: seq<string>, flags: seq<string>, reference: string)
  {
    |r| >= 1 && r[|r| - 1] == reference && (|r| >= 2 ==> r[0] in flags)
  }

  lemma TakeValueFlagStep(present: bool, flag: string, v: string, rest: seq<string>, reference: string, flags: seq<string>)
    requires TailAfter(rest, flags, reference) && flag !in flags
    ensures TakeValueFlag((if present then [flag, v] else []) + rest, flag)
            == (if present then Some(v) else None, rest)
  {
    if present {
      assert ([flag, v] + rest)[0] == flag;
      assert ([flag, v] + rest)[1] == v;
      assert ([flag, v] + rest)[2..] == rest;
    } else {
      assert [] + rest == rest;
      assert |rest| >= 3 ==> rest[0] != flag;
    }
  }

  lemma TakeFlagStep(present: bool, flag: string, rest: seq<string>, reference: string, flags: seq<string>)
    requires TailAfter(rest, flags, reference) && flag !in flags
    ensures TakeFlag((if present then [flag] else []) + rest, flag) == (present, rest)
  {
    if present {
      assert ([flag] + rest)[0] == flag;
      assert ([flag] + rest)[1..] == rest;
    } else {
      assert [] + rest == rest;
      assert |rest| >= 2 ==> rest[0] != flag;
    }
  }

  /** The optional flags after the prefix are read back one by one. */
  lemma ScanTailRoundTrip(o: ScanOption, reference: string)
    ensures ReadScanTail(PlatformPart(o) + (ServerPart(o) + (InsecurePart(o) + (UnfixedPart(o) + [reference]))))
            == Some(ScanArgsView(o.architecture, o.trivyServer, o.insecure, o.ignoreUnfixed, reference))
  {
    var r3 := UnfixedPart(o) + [reference];
    var r2 := InsecurePart(o) + r3;
    var r1 := ServerPart(o) + r2;
    assert TailAfter([reference], [], reference);
    TakeFlagStep(o.ignoreUnfixed, "--ignore-unfixed", [reference], reference, []);
    assert TailAfter(r3, ["--ignore-unfixed"], reference);
    TakeFlagStep(o.insecure, "--insecure", r3, reference, ["--ignore-unfixed"]);
    assert TailAfter(r2, ["--insecure", "--ignore-unfixed"], reference);
    TakeValueFlagStep(o.trivyServer != "", "--server", o.trivyServer, r2, reference, ["--insecure", "--ignore-unfixed"]);
    assert TailAfter(r1, ["--server", "--insecure", "--ignore-unfixed"], reference);
    TakeValueFlagStep(o.architecture.Some?, "--platform", o.architecture.UnwrapOr(""), r1, reference, ["--server", "--insecure", "--ignore-unfixed"]);
  }

  /** Every option that reaches the command line can be read back from it,
    * whatever the reference is: the platform is present iff an architecture
    * is set, the server iff it is non-empty, each boolean flag iff it is set,
    * and the reference is the last argument. */
  lemma ScanArgsRoundTrip(o: ScanOption, reference: string)
    ensures ReadScanArgs(ScanArgList(o, reference))
            == Some(ScanArgsView(o.architecture, o.trivyServer, o.insecure, o.ignoreUnfixed, reference))
  {
    var args := ScanArgList(o, reference);
    var tail := PlatformPart(o) + (ServerPart(o) + (InsecurePart(o) + (UnfixedPart(o) + [reference])));
    assert args == ScanPrefix + tail;
    assert args[..3] == ScanPrefix;
    assert args[3..] == tail;
    ScanTailRoundTrip(o, reference);
  }

  /** The command line always starts "image --format json" and ends with the
    * reference. */
  lemma ScanArgsShape(o: ScanOption, reference: string)
    ensures |ScanArgList(o, reference)| >= 4
    ensures ScanArgList(o, reference)[..3] == ScanPrefix
    ensures ScanArgList(o, reference)[|ScanArgList(o, reference)| - 1] == reference
  {
    ScanArgsRoundTrip(o, reference);
  }

  /** The trivy binary as seen from helmper: the command line in, the JSON
    * output or the execution error out. */
  type Exec = seq<string> -> Result<string>

  /** JSON decoding of a report. */
  type Decode = string -> Result<Report>

  /** The severity/status filter applied when unfixed findings are ignored. */
  type Filter = Report -> Report

  /** `ScanOption.Scan`: run trivy, decode its output, and apply the filter
    * when `IgnoreUnfixed` is set. A failure of either step gives the empty
    * report together with the error. */
  function Scan(o: ScanOption, reference: string, exec: Exec, decode: Decode, filter: Filter): (r: (Report, Option<string>))
    ensures r.1.Some? ==> r.0 == EmptyReport
    ensures exec(ScanArgList(o, reference)).Err? ==> r == (EmptyReport, Some(exec(ScanArgList(o, reference)).error))
    ensures exec(ScanArgList(o, reference)).Ok? ==>
              var d := decode(exec(ScanArgList(o, reference)).value);
              (d.Err? ==> r == (EmptyReport, Some(d.error)))
              && (d.Ok? && !o.ignoreUnfixed ==> r == (d.value, None))
              && (d.Ok? && o.ignoreUnfixed ==> r == (filter(d.value), None))
  {
    match exec(ScanArgList(o, reference))
    case Err(e) => (EmptyReport, Some(e))
    case Ok(out) =>
      match decode(out)
      case Err(e) => (EmptyReport, Some(e))
      case Ok(report) => if o.ignoreUnfixed then (filter(report), None) else (report, None)
  }
}
