/** pkg/copa/main.go and pkg/copa/util.go: which OS families Copacetic can
  * patch, and the patch run that invokes `copa patch` once per distinct
  * image, saves each patched image to a tar file, and pushes the flagged
  * images from their tars, recording the pushed digest in the shared image.
  * The copa and docker binaries, the tar store and the registry copy are
  * parameters. */
module Copa {
  import opened Wrappers
  import opened Strs
  import opened Reference
  import opened Images
  import opened Registries
  import Trivy

  /** `SupportedOS(string)` of main.go: every OS name but "photon". */
  function SupportedOSName(os: string): (b: bool)
    ensures b <==> os != "photon"
  {
    if os == "photon" then false else true
  }

  /** `SupportedOS(*types.OS)` of util.go: a missing OS is supported, and
    * otherwise only the family decides, exactly as the string version does. */
  function SupportedOS(os: Option<Trivy.OS>): (b: bool)
    ensures os.None? ==> b
    ensures os.Some? ==> (b <==> SupportedOSName(os.value.family))
  {
    match os
    case None => true
    case Some(o) => o.family != "photon"
  }

  // ---------------------------------------------------------------------
  // The copa command line (main.go:82-98)
  // ---------------------------------------------------------------------

  /** `PatchOption.Buildkit` */
  datatype Buildkit = Buildkit(addr: string, caCertPath: string, certPath: string, keyPath: string)

  /** `PatchOption` without its `Data`, which `Run` receives as entries. */
  datatype PatchOption = PatchOption(
    tarFolder: string,
    reportFolder: string,
    buildkit: Buildkit,
    ignoreErrors: bool,
    architecture: Option<string>)

  /** A flag and its value, present only when the value is non-empty. */
  function ValueFlag(flag: string, v: string): seq<string>
  {
    if v != "" then [flag, v] else []
  }

  const CopaPrefix: seq<string> := ["patch", "--timeout", "30m", "--image"]

  function CopaArgList(b: Buildkit, ref: string, report: string, tag: string): seq<string>
  {
    CopaPrefix + [ref, "--report", report, "--tag", tag]
    + ValueFlag("--addr", b.addr) + ValueFlag("--cacert", b.caCertPath)
    + ValueFlag("--cert", b.certPath) + ValueFlag("--key", b.keyPath)
  }

  /** `cmdArgs`, grown by appends. */
  method CopaArgs(b: Buildkit, ref: string, report: string, tag: string) returns (args: seq<string>)
    ensures args == CopaArgList(b, ref, report, tag)
  {
    args := ["patch", "--timeout", "30m", "--image", ref, "--report", report, "--tag", tag];
    ghost var head := args;
    assert head == CopaPrefix + [ref, "--report", report, "--tag", tag];
    if b.addr != "" {
      args := args + ["--addr", b.addr];
    }
    assert args == head + ValueFlag("--addr", b.addr);
    ghost var a := args;
    if b.caCertPath != "" {
      args := args + ["--cacert", b.caCertPath];
    }
    assert args == a + ValueFlag("--cacert", b.caCertPath);
    ghost var c := args;
    if b.certPath != "" {
      args := args + ["--cert", b.certPath];
    }
    assert args == c + ValueFlag("--cert", b.certPath);
    ghost var d := args;
    if b.keyPath != "" {
      args := args + ["--key", b.keyPath];
    }
    assert args == d + ValueFlag("--key", b.keyPath);
  }

  /** What a copa command line says about its image, report, tag and
    * buildkit connection. */
  datatype CopaArgsView = CopaArgsView(ref: string, report: string, tag: string, buildkit: Buildkit)

  /** Takes "flag value" off the front; a missing flag reads as "". */
  function TakeValue(r: seq<string>, flag: string): (string, seq<string>)
  {
    if |r| >= 2 && r[0] == flag then (r[1], r[2..]) else ("", r)
  }

  /** Reads a copa command line back: the fixed nine-argument start, then
    * the four optional buildkit flags in their order, and nothing else. */
  function ReadCopaArgs(args: seq<string>): Option<CopaArgsView>
  {
    if |args| < 9 || args[..4] != CopaPrefix || args[5] != "--report" || args[7] != "--tag" then None
    else
      match ReadBuildkitFlags(args[9..])
      case None => None
      case Some(b) => Some(CopaArgsView(args[4], args[6], args[8], b))
  }

  /** The buildkit flags after the fixed start. */
  function ReadBuildkitFlags(r: seq<string>): Option<Buildkit>
  {
    var a := TakeValue(r, "--addr");
    var c := TakeValue(a.1, "--cacert");
    var d := TakeValue(c.1, "--cert");
    var k := TakeValue(d.1, "--key");
    if k.1 == [] then Some(Buildkit(a.0, c.0, d.0, k.0)) else None
  }

  lemma TakeValueStep(flag: string, v: string, rest: seq<string>, later: seq<string>)
    requires rest == [] || rest[0] in later
    requires flag !in later
    ensures TakeValue(ValueFlag(flag, v) + rest, flag) == (v, rest)
  {
    if v != "" {
      assert (ValueFlag(flag, v) + rest)[2..] == rest;
    } else {
      assert ValueFlag(flag, v) + rest == rest;
    }
  }

  /** The buildkit flags read back one by one. */
  lemma BuildkitFlagsRoundTrip(b: Buildkit)
    ensures ReadBuildkitFlags(ValueFlag("--addr", b.addr) + (ValueFlag("--cacert", b.caCertPath)
              + (ValueFlag("--cert", b.certPath) + ValueFlag("--key", b.keyPath)))) == Some(b)
  {
    var r3 := ValueFlag("--key", b.keyPath);
    var r2 := ValueFlag("--cert", b.certPath) + r3;
    var r1 := ValueFlag("--cacert", b.caCertPath) + r2;
    assert r3 + [] == r3;
    TakeValueStep("--key", b.keyPath, [], []);
    TakeValueStep("--cert", b.certPath, r3, ["--key"]);
    TakeValueStep("--cacert", b.caCertPath, r2, ["--cert", "--key"]);
    TakeValueStep("--addr", b.addr, r1, ["--cacert", "--cert", "--key"]);
  }

  /** The command line always starts "patch --timeout 30m --image ref
    * --report path --tag tag", and each buildkit flag can be read back: it is
    * present, in the order addr, cacert, cert, key, iff its field is
    * non-empty. */
  lemma CopaArgsRoundTrip(b: Buildkit, ref: string, report: string, tag: string)
    ensures ReadCopaArgs(CopaArgList(b, ref, report, tag)) == Some(CopaArgsView(ref, report, tag, b))
  {
    var args := CopaArgList(b, ref, report, tag);
    var flags := ValueFlag("--addr", b.addr) + (ValueFlag("--cacert", b.caCertPath)
                 + (ValueFlag("--cert", b.certPath) + ValueFlag("--key", b.keyPath)));
    var head := CopaPrefix + [ref, "--report", report, "--tag", tag];
    assert |args| >= 9 && args[..4] == CopaPrefix && args[4] == ref && args[5] == "--report"
           && args[6] == report && args[7] == "--tag" && args[8] == tag && args[9..] == flags by {
      assert args == head + flags;
      assert args[..9] == head;
    }
    BuildkitFlagsRoundTrip(b);
  }

  // ---------------------------------------------------------------------
  // PatchOption.Run (main.go:51-192)
  // ---------------------------------------------------------------------

  /** One (registry, image, flag) entry of `Data`, in iteration order. The
    * image is a pointer: the same image may be listed under several
    * registries. */
  datatype Entry = Entry(registry: Registry, image: ImagePtr, flag: bool)

  /** The values behind the image pointers. */
  type Heap = map<ImagePtr, Image>

  function HeapOf(ps: seq<ImagePtr>): (h: Heap)
    reads ps
  {
    map p | p in ps :: p.val
  }

  /** The heap of the pointers agrees with them and records nothing else. */
  lemma HeapOfAgrees(ps: seq<ImagePtr>)
    ensures HeapOf(ps).Keys == set p | p in ps
    ensures Agrees(ps, HeapOf(ps))
  {
  }

  function PtrsOf(es: seq<Entry>): (ps: seq<ImagePtr>)
    ensures |ps| == |es| && forall k :: 0 <= k < |es| ==> ps[k] == es[k].image
  {
    seq(|es|, k requires 0 <= k < |es| => es[k].image)
  }

  /** A lookup in `reportFilePaths` or `outFilePaths`: "" when absent. */
  function Lookup(m: map<ImagePtr, string>, p: ImagePtr): string
  {
    if p in m then m[p] else ""
  }

  /** The number of true flags: the run's workload `size`. */
  function CountFlags(es: seq<Entry>): nat
    decreases |es|
  {
    if es == [] then 0 else CountFlags(es[..|es| - 1]) + (if es[|es| - 1].flag then 1 else 0)
  }

  method CountSize(es: seq<Entry>) returns (size: nat)
    ensures size == CountFlags(es)
  {
    size := 0;
    for k := 0 to |es|
      invariant size == CountFlags(es[..k])
    {
      assert es[..k + 1][..k] == es[..k];
      if es[k].flag {
        size := size + 1;
      }
    }
    assert es[..|es|] == es;
  }

  /** The workload is zero exactly when no flag is true. */
  lemma {:induction false} CountFlagsZeroIff(es: seq<Entry>)
    ensures CountFlags(es) == 0 <==> forall k :: 0 <= k < |es| ==> !es[k].flag
    decreases |es|
  {
    if es != [] {
      var init := es[..|es| - 1];
      CountFlagsZeroIff(init);
      assert forall k :: 0 <= k < |init| ==> init[k] == es[k];
    }
  }

  /** The external programs of the patch pass: each returns its error and
    * its combined output on failure. */
  datatype PatchEnv = PatchEnv(
    copa: seq<string> -> Option<(string, string)>,
    docker: seq<string> -> Option<(string, string)>)

  /** Patching one image: `copa patch`, then `docker save` of the result to
    * its tar path. */
  function PatchImage(o: PatchOption, i: Image, ref: string, p: ImagePtr,
                      reports: map<ImagePtr, string>, outs: map<ImagePtr, string>, env: PatchEnv): (r: Option<string>)
  {
    match env.copa(CopaArgList(o.buildkit, ref, Lookup(reports, p), i.tag))
    case Some((e, out)) => Some("error patching image " + ref + " :: " + e + " :: " + out)
    case None =>
      match env.docker(["save", "-o", Lookup(outs, p), ref])
      case Some((e, out)) => Some("error saving image " + i.tag + " to tar :: " + e + " :: " + out)
      case None => None
  }

  /** The state of the patch pass: the images (with their `String` caches),
    * `seenImages`, and the error that ended the pass. */
  datatype PatchState = PatchState(heap: Heap, seen: seq<Image>, err: Option<string>)

  /** One image of the patch pass: render the reference (filling the
    * cache), skip the image if it was already seen, otherwise record it and
    * patch it. */
  function PatchStep(o: PatchOption, prev: PatchState, p: ImagePtr, reports: map<ImagePtr, string>,
                     outs: map<ImagePtr, string>, parse: ParseAny, env: PatchEnv): (s: PatchState)
    requires p in prev.heap
    ensures s.heap == prev.heap[p := prev.heap[p].(parsedRef := Render(prev.heap[p], parse).1)]
  {
    var r := Render(prev.heap[p], parse);
    var i := prev.heap[p].(parsedRef := r.1);
    var heap := prev.heap[p := i];
    if In(i, prev.seen) then PatchState(heap, prev.seen, None)
    else PatchState(heap, prev.seen + [i], PatchImage(o, i, r.0, p, reports, outs, env))
  }

  /** The patch pass over every image of `Data`, flagged or not; the first
    * failure ends it. */
  function PatchPass(o: PatchOption, ps: seq<ImagePtr>, h: Heap, reports: map<ImagePtr, string>,
                     outs: map<ImagePtr, string>, parse: ParseAny, env: PatchEnv): (s: PatchState)
    ensures s.heap.Keys == h.Keys
    decreases |ps|
  {
    if ps == [] then PatchState(h, [], None)
    else
      var prev := PatchPass(o, ps[..|ps| - 1], h, reports, outs, parse, env);
      if prev.err.Some? || ps[|ps| - 1] !in prev.heap then prev
      else PatchStep(o, prev, ps[|ps| - 1], reports, outs, parse, env)
  }

  /** No two images of `seen` are the same reference. */
  predicate NoRepeats(seen: seq<Image>)
  {
    forall a, b :: 0 <= a < b < |seen| ==> !SameRef(seen[a], seen[b])
  }

  /** A patch step adds to `seenImages` only an image that is not yet there. */
  lemma PatchStepNoRepeats(o: PatchOption, prev: PatchState, p: ImagePtr, reports: map<ImagePtr, string>,
                           outs: map<ImagePtr, string>, parse: ParseAny, env: PatchEnv)
    requires p in prev.heap
    requires NoRepeats(prev.seen)
    ensures NoRepeats(PatchStep(o, prev, p, reports, outs, parse, env).seen)
  {
    var s := PatchStep(o, prev, p, reports, outs, parse, env);
    if s.seen != prev.seen {
      var x := s.heap[p];
      assert s.seen == prev.seen + [x] && !In(x, prev.seen);
      forall a, b | 0 <= a < b < |s.seen|
        ensures !SameRef(s.seen[a], s.seen[b])
      {
        assert s.seen[a] == prev.seen[a];
        if b < |prev.seen| {
          assert s.seen[b] == prev.seen[b];
        }
      }
    }
  }

  /** Each distinct image (by registry, repository and tag) is patched at
    * most once: the images handed to copa are pairwise different. */
  lemma {:induction false} PatchPassSeenDistinct(o: PatchOption, ps: seq<ImagePtr>, h: Heap, reports: map<ImagePtr, string>,
                                                 outs: map<ImagePtr, string>, parse: ParseAny, env: PatchEnv)
    requires forall k :: 0 <= k < |ps| ==> ps[k] in h
    ensures NoRepeats(PatchPass(o, ps, h, reports, outs, parse, env).seen)
    decreases |ps|
  {
    if ps != [] {
      var init := ps[..|ps| - 1];
      PatchPassSeenDistinct(o, init, h, reports, outs, parse, env);
      var prev := PatchPass(o, init, h, reports, outs, parse, env);
      if prev.err.None? {
        PatchStepNoRepeats(o, prev, ps[|ps| - 1], reports, outs, parse, env);
      }
    }
  }

  /** A patch step only appends to `seenImages`, and afterwards the image
    * it rendered is among them. */
  lemma PatchStepGrows(o: PatchOption, prev: PatchState, p: ImagePtr, reports: map<ImagePtr, string>,
                       outs: map<ImagePtr, string>, parse: ParseAny, env: PatchEnv)
    requires p in prev.heap
    ensures var s := PatchStep(o, prev, p, reports, outs, parse, env);
            |prev.seen| <= |s.seen| && s.seen[..|prev.seen|] == prev.seen
            && In(prev.heap[p], s.seen)
  {
    var s := PatchStep(o, prev, p, reports, outs, parse, env);
    var x := s.heap[p];
    assert SameRef(prev.heap[p], x);
    if s.seen == prev.seen {
      assert In(x, prev.seen);
      var j :| 0 <= j < |prev.seen| && SameRef(x, prev.seen[j]);
      assert SameRef(prev.heap[p], s.seen[j]);
    } else {
      assert s.seen == prev.seen + [x];
      assert SameRef(prev.heap[p], s.seen[|prev.seen|]);
    }
  }

  /** Membership survives extending the list. */
  lemma InExtended(x: Image, a: seq<Image>, b: seq<Image>)
    requires |a| <= |b| && b[..|a|] == a
    requires In(x, a)
    ensures In(x, b)
  {
    var j :| 0 <= j < |a| && SameRef(x, a[j]);
    assert b[j] == a[j];
  }

  /** The patch pass changes nothing but the `String` caches. */
  lemma {:induction false} PatchPassOnlyCaches(o: PatchOption, ps: seq<ImagePtr>, h: Heap, reports: map<ImagePtr, string>,
                                               outs: map<ImagePtr, string>, parse: ParseAny, env: PatchEnv)
    ensures var s := PatchPass(o, ps, h, reports, outs, parse, env);
            forall p :: p in h ==> s.heap[p] == h[p].(parsedRef := s.heap[p].parsedRef)
    decreases |ps|
  {
    if ps != [] {
      PatchPassOnlyCaches(o, ps[..|ps| - 1], h, reports, outs, parse, env);
    }
  }

  /** Every image behind `ps` is the same reference as one of `seen`. */
  predicate Covered(ps: seq<ImagePtr>, h: Heap, seen: seq<Image>)
  {
    forall k :: 0 <= k < |ps| ==> ps[k] in h && In(h[ps[k]], seen)
  }

  lemma CoveredExtended(ps: seq<ImagePtr>, h: Heap, a: seq<Image>, b: seq<Image>)
    requires |a| <= |b| && b[..|a|] == a
    requires Covered(ps, h, a)
    ensures Covered(ps, h, b)
  {
    forall k | 0 <= k < |ps|
      ensures In(h[ps[k]], b)
    {
      InExtended(h[ps[k]], a, b);
    }
  }

  /** A pass that ends without error has patched every image of `Data`:
    * each one is the same reference as a patched image. */
  lemma {:induction false} PatchPassCovers(o: PatchOption, ps: seq<ImagePtr>, h: Heap, reports: map<ImagePtr, string>,
                                           outs: map<ImagePtr, string>, parse: ParseAny, env: PatchEnv)
    requires forall k :: 0 <= k < |ps| ==> ps[k] in h
    ensures var s := PatchPass(o, ps, h, reports, outs, parse, env);
            s.err.None? ==> Covered(ps, h, s.seen)
    decreases |ps|
  {
    if ps != [] && PatchPass(o, ps, h, reports, outs, parse, env).err.None? {
      var init := ps[..|ps| - 1];
      var p := ps[|ps| - 1];
      var prev := PatchPass(o, init, h, reports, outs, parse, env);
      var seen := PatchPassLast(o, ps, h, reports, outs, parse, env);
      assert forall k :: 0 <= k < |init| ==> init[k] == ps[k];
      PatchPassCovers(o, init, h, reports, outs, parse, env);
      CoveredLast(ps, h, prev.seen, seen);
    }
  }

  /** The last step of a patch pass without error extends the images seen
    * so far by ones that include the last image. */
  lemma PatchPassLast(o: PatchOption, ps: seq<ImagePtr>, h: Heap, reports: map<ImagePtr, string>,
                      outs: map<ImagePtr, string>, parse: ParseAny, env: PatchEnv) returns (seen: seq<Image>)
    requires ps != [] && (forall k :: 0 <= k < |ps| ==> ps[k] in h)
    requires PatchPass(o, ps, h, reports, outs, parse, env).err.None?
    ensures seen == PatchPass(o, ps, h, reports, outs, parse, env).seen
    ensures var prev := PatchPass(o, ps[..|ps| - 1], h, reports, outs, parse, env);
            prev.err.None? && |prev.seen| <= |seen| && seen[..|prev.seen|] == prev.seen
            && In(h[ps[|ps| - 1]], seen)
  {
    var init := ps[..|ps| - 1];
    var p := ps[|ps| - 1];
    var prev := PatchPass(o, init, h, reports, outs, parse, env);
    seen := PatchPass(o, ps, h, reports, outs, parse, env).seen;
    assert SameRef(h[p], prev.heap[p]) by {
      PatchPassOnlyCaches(o, init, h, reports, outs, parse, env);
    }
    PatchStepGrows(o, prev, p, reports, outs, parse, env);
    InSameRef(h[p], prev.heap[p], seen);
  }

  lemma CoveredLast(ps: seq<ImagePtr>, h: Heap, a: seq<Image>, b: seq<Image>)
    requires ps != [] && |a| <= |b| && b[..|a|] == a
    requires Covered(ps[..|ps| - 1], h, a) && ps[|ps| - 1] in h && In(h[ps[|ps| - 1]], b)
    ensures Covered(ps, h, b)
  {
    CoveredExtended(ps[..|ps| - 1], h, a, b);
    forall k | 0 <= k < |ps| - 1
      ensures ps[k] == ps[..|ps| - 1][k]
    {
    }
  }

  lemma InSameRef(x: Image, y: Image, seen: seq<Image>)
    requires SameRef(x, y) && In(y, seen)
    ensures In(x, seen)
  {
    var j :| 0 <= j < |seen| && SameRef(y, seen[j]);
    assert SameRef(x, seen[j]);
  }

  /** The pointers hold the values the heap records for them. */
  ghost predicate Agrees(ps: seq<ImagePtr>, h: Heap)
    reads ps
  {
    forall j :: 0 <= j < |ps| ==> ps[j] in h && ps[j].val == h[ps[j]]
  }

  /** One pass of the patch loop body. */
  method PatchOne(o: PatchOption, p: ImagePtr, ghost prev: PatchState, seen: seq<Image>, reports: map<ImagePtr, string>,
                  outs: map<ImagePtr, string>, parse: ParseAny, env: PatchEnv) returns (seen': seq<Image>, err: Option<string>)
    requires p in prev.heap && p.val == prev.heap[p] && seen == prev.seen
    modifies p
    ensures var s := PatchStep(o, prev, p, reports, outs, parse, env);
            p.val == s.heap[p] && seen' == s.seen && err == s.err
  {
    var ref := p.String(parse);
    if In(p.val, seen) {
      return seen, None;
    }
    seen' := seen + [p.val];
    err := PatchImage(o, p.val, ref, p, reports, outs, env);
  }

  /** The pass over one more image is one more step. */
  lemma PatchPassNext(o: PatchOption, ps: seq<ImagePtr>, k: nat, h: Heap, reports: map<ImagePtr, string>,
                      outs: map<ImagePtr, string>, parse: ParseAny, env: PatchEnv)
    requires k < |ps|
    requires forall j :: 0 <= j < |ps| ==> ps[j] in h
    requires PatchPass(o, ps[..k], h, reports, outs, parse, env).err.None?
    ensures ps[k] in PatchPass(o, ps[..k], h, reports, outs, parse, env).heap
    ensures PatchPass(o, ps[..k + 1], h, reports, outs, parse, env)
            == PatchStep(o, PatchPass(o, ps[..k], h, reports, outs, parse, env), ps[k], reports, outs, parse, env)
  {
    assert ps[..k + 1][..k] == ps[..k];
  }

  /** One iteration of the patch loop, stated against the pass over the
    * images before it and the pass over the images up to it. */
  method PatchNext(o: PatchOption, ps: seq<ImagePtr>, k: nat, ghost h0: Heap, ghost st: PatchState, seen: seq<Image>,
                   reports: map<ImagePtr, string>, outs: map<ImagePtr, string>, parse: ParseAny, env: PatchEnv)
    returns (ghost st': PatchState, seen': seq<Image>, err: Option<string>)
    requires k < |ps| && (forall j :: 0 <= j < |ps| ==> ps[j] in h0)
    requires st == PatchPass(o, ps[..k], h0, reports, outs, parse, env) && st.err.None? && seen == st.seen
    requires Agrees(ps, st.heap)
    modifies ps[k]
    ensures st' == PatchPass(o, ps[..k + 1], h0, reports, outs, parse, env)
    ensures seen' == st'.seen && err == st'.err
    ensures Agrees(ps, st'.heap)
  {
    PatchPassNext(o, ps, k, h0, reports, outs, parse, env);
    st' := PatchStep(o, st, ps[k], reports, outs, parse, env);
    seen', err := PatchOne(o, ps[k], st, seen, reports, outs, parse, env);
  }

  /** The patch loop: `ref := i.String()` (which fills the pointer's cache),
    * the `In(seenImages)` check, and one patch per new image. */
  method PatchLoop(o: PatchOption, es: seq<Entry>, ghost h0: Heap, reports: map<ImagePtr, string>,
                   outs: map<ImagePtr, string>, parse: ParseAny, env: PatchEnv) returns (err: Option<string>)
    requires Agrees(PtrsOf(es), h0)
    modifies set k | 0 <= k < |es| :: es[k].image
    ensures var s := PatchPass(o, PtrsOf(es), h0, reports, outs, parse, env);
            err == s.err && Agrees(PtrsOf(es), s.heap)
  {
    var ps := PtrsOf(es);
    ghost var st := PatchState(h0, [], None);
    assert ps[..0] == [];
    var seen: seq<Image> := [];
    err := None;
    for k := 0 to |ps|
      invariant st == PatchPass(o, ps[..k], h0, reports, outs, parse, env)
      invariant st.err.None? && err.None? && seen == st.seen
      invariant Agrees(ps, st.heap)
    {
      st, seen, err := PatchNext(o, ps, k, h0, st, seen, reports, outs, parse, env);
      if err.Some? {
        PatchPassErrSticks(o, ps, k + 1, h0, reports, outs, parse, env);
        assert ps[..|ps|] == ps;
        return;
      }
    }
    assert ps[..|ps|] == ps;
  }

  /** Once the pass has failed, later images change nothing. */
  lemma {:induction false} PatchPassErrSticks(o: PatchOption, ps: seq<ImagePtr>, n: nat, h: Heap, reports: map<ImagePtr, string>,
                                              outs: map<ImagePtr, string>, parse: ParseAny, env: PatchEnv)
    requires n <= |ps|
    requires PatchPass(o, ps[..n], h, reports, outs, parse, env).err.Some?
    ensures PatchPass(o, ps, h, reports, outs, parse, env) == PatchPass(o, ps[..n], h, reports, outs, parse, env)
    decreases |ps| - n
  {
    if n < |ps| {
      assert ps[..|ps| - 1][..n] == ps[..n];
      PatchPassErrSticks(o, ps[..|ps| - 1], n, h, reports, outs, parse, env);
    } else {
      assert ps[..n] == ps;
    }
  }

  /** The registry side of the push pass: opening the tar and resolving the
    * tag, the target repository, the platform, and the copy. */
  datatype PushEnv = PushEnv(
    resolve: (string, string) -> Result<string>,
    repository: string -> Option<string>,
    platform: string -> Option<string>,
    copy: (string, string, string, bool) -> Result<string>)

  /** The image name `ImageName` gives, or "" when it fails. */
  function NameOr(i: Image, parse: ParseAny, named: ParseNamed): string
  {
    var n := ImageName(i, parse, named);
    if n.Ok? then n.value else ""
  }

  /** The repository an entry is pushed to: the registry URL without
    * "oci://", then the image name, which with PrefixSource is recomputed
    * (from the image carrying its new digest) by `UpdateNameWithPrefixSource`. */
  function Target(r: Registry, before: Image, after: Image, parse: ParseAny, named: ParseNamed): string
  {
    var name := if r.prefixSource then
                  var u := UpdateNameWithPrefixSource(after, parse, named);
                  if u.Ok? then u.value else ""
                else NameOr(before, parse, named);
    CutPrefix(r.url, "oci://").0 + "/" + name
  }

  datatype PushState = PushState(heap: Heap, err: Option<string>)

  /** Pushing one entry of `Data`. An unflagged entry is left alone. A
    * flagged one gets the digest of its tar's manifest, then, once pushed,
    * the digest of the pushed manifest. */
  function PushEntry(o: PatchOption, e: Entry, h: Heap, outs: map<ImagePtr, string>,
                     parse: ParseAny, named: ParseNamed, env: PushEnv): (s: PushState)
    requires e.image in h
    ensures e.image in s.heap
    ensures s.heap == h[e.image := h[e.image].(digest := s.heap[e.image].digest)]
    ensures !e.flag ==> s == PushState(h, None)
  {
    if !e.flag then PushState(h, None)
    else
      var p := e.image;
      var i := h[p];
      var tar := Lookup(outs, p);
      match env.resolve(tar, i.tag)
      case Err(err) => PushState(h, Some(err))
      case Ok(d) =>
        var i1 := i.(digest := d);
        var h1 := h[p := i1];
        var target := Target(e.registry, i, i1, parse, named);
        if env.repository(target).Some? then PushState(h1, env.repository(target))
        else if o.architecture.Some? && env.platform(o.architecture.value).Some? then
          PushState(h1, env.platform(o.architecture.value))
        else
          match env.copy(tar, i.tag, target, e.registry.plainHTTP)
          case Err(err) => PushState(h1, Some(err))
          case Ok(d2) => PushState(h[p := i.(digest := d2)], None)
  }

  /** A flagged entry that is pushed without error carries, from then on,
    * the digest the copy to its target repository returned; the target is
    * the registry URL without "oci://" and the image name. */
  lemma PushEntryPushed(o: PatchOption, e: Entry, h: Heap, outs: map<ImagePtr, string>,
                        parse: ParseAny, named: ParseNamed, env: PushEnv)
    requires e.image in h && e.flag
    ensures var s := PushEntry(o, e, h, outs, parse, named, env);
            var i := h[e.image];
            var tar := Lookup(outs, e.image);
            s.err.None? ==>
              env.resolve(tar, i.tag).Ok?
              && var target := Target(e.registry, i, i.(digest := env.resolve(tar, i.tag).value), parse, named);
                 HasPrefix(target, CutPrefix(e.registry.url, "oci://").0 + "/")
                 && env.copy(tar, i.tag, target, e.registry.plainHTTP).Ok?
                 && s.heap[e.image].digest == env.copy(tar, i.tag, target, e.registry.plainHTTP).value
  {
  }

  /** The push pass over every entry of `Data`; the first failure ends it. */
  function PushPass(o: PatchOption, es: seq<Entry>, h: Heap, outs: map<ImagePtr, string>,
                    parse: ParseAny, named: ParseNamed, env: PushEnv): (s: PushState)
    ensures s.heap.Keys == h.Keys
    decreases |es|
  {
    if es == [] then PushState(h, None)
    else
      var prev := PushPass(o, es[..|es| - 1], h, outs, parse, named, env);
      if prev.err.Some? || es[|es| - 1].image !in prev.heap then prev
      else PushEntry(o, es[|es| - 1], prev.heap, outs, parse, named, env)
  }

  /** Only digests change in the push pass, and only those of images that
    * some flagged entry lists. */
  lemma {:induction false} PushPassOnlyFlaggedDigests(o: PatchOption, es: seq<Entry>, h: Heap, outs: map<ImagePtr, string>,
                                                      parse: ParseAny, named: ParseNamed, env: PushEnv)
    ensures var s := PushPass(o, es, h, outs, parse, named, env);
            forall p :: p in h ==>
              s.heap[p] == h[p].(digest := s.heap[p].digest)
              && ((forall k :: 0 <= k < |es| && es[k].image == p ==> !es[k].flag) ==> s.heap[p] == h[p])
    decreases |es|
  {
    if es != [] {
      var init := es[..|es| - 1];
      PushPassOnlyFlaggedDigests(o, init, h, outs, parse, named, env);
      var prev := PushPass(o, init, h, outs, parse, named, env);
      var s := PushPass(o, es, h, outs, parse, named, env);
      var e := es[|es| - 1];
      if prev.err.None? && e.image in prev.heap {
        assert s == PushEntry(o, e, prev.heap, outs, parse, named, env);
        forall p | p in h
          ensures s.heap[p] == h[p].(digest := s.heap[p].digest)
          ensures (forall k :: 0 <= k < |es| && es[k].image == p ==> !es[k].flag) ==> s.heap[p] == h[p]
        {
          if (forall k :: 0 <= k < |es| && es[k].image == p ==> !es[k].flag) {
            assert forall k :: 0 <= k < |init| && init[k].image == p ==> !init[k].flag by {
              assert forall k :: 0 <= k < |init| ==> init[k] == es[k];
            }
            assert prev.heap[p] == h[p];
          }
        }
      } else {
        assert s == prev;
        assert forall k :: 0 <= k < |init| ==> init[k] == es[k];
      }
    }
  }

  /** Once the push pass has failed, later entries change nothing. */
  lemma {:induction false} PushPassErrSticks(o: PatchOption, es: seq<Entry>, n: nat, h: Heap, outs: map<ImagePtr, string>,
                                             parse: ParseAny, named: ParseNamed, env: PushEnv)
    requires n <= |es|
    requires PushPass(o, es[..n], h, outs, parse, named, env).err.Some?
    ensures PushPass(o, es, h, outs, parse, named, env) == PushPass(o, es[..n], h, outs, parse, named, env)
    decreases |es| - n
  {
    if n < |es| {
      assert es[..|es| - 1][..n] == es[..n];
      PushPassErrSticks(o, es[..|es| - 1], n, h, outs, parse, named, env);
    } else {
      assert es[..n] == es;
    }
  }

  /** After a pass without error, an image's digest is the one its last
    * flagged entry pushed: later entries do not touch it. */
  lemma {:induction false} PushPassLastDigest(o: PatchOption, es: seq<Entry>, k: nat, h: Heap, outs: map<ImagePtr, string>,
                                              parse: ParseAny, named: ParseNamed, env: PushEnv)
    requires forall j :: 0 <= j < |es| ==> es[j].image in h
    requires k < |es| && es[k].flag
    requires forall j :: k < j < |es| && es[j].image == es[k].image ==> !es[j].flag
    requires PushPass(o, es, h, outs, parse, named, env).err.None?
    ensures var before := PushPass(o, es[..k], h, outs, parse, named, env);
            PushPass(o, es, h, outs, parse, named, env).heap[es[k].image]
            == PushEntry(o, es[k], before.heap, outs, parse, named, env).heap[es[k].image]
    decreases |es|
  {
    var init := es[..|es| - 1];
    assert forall j :: 0 <= j < |init| ==> init[j] == es[j];
    if k == |es| - 1 {
      assert init == es[..k];
    } else {
      var prev := PushPass(o, init, h, outs, parse, named, env);
      var e := es[|es| - 1];
      assert prev.err.None?;
      assert e.image in prev.heap;
      assert PushPass(o, es, h, outs, parse, named, env) == PushEntry(o, e, prev.heap, outs, parse, named, env);
      PushPassLastDigest(o, init, k, h, outs, parse, named, env);
      assert init[..k] == es[..k];
    }
  }

  /** One pass of the push loop body. */
  method PushOne(o: PatchOption, e: Entry, ghost h: Heap, outs: map<ImagePtr, string>,
                 parse: ParseAny, named: ParseNamed, env: PushEnv) returns (err: Option<string>)
    requires e.image in h && e.image.val == h[e.image]
    modifies e.image
    ensures var s := PushEntry(o, e, h, outs, parse, named, env);
            e.image.val == s.heap[e.image] && err == s.err
  {
    if !e.flag {
      return None;
    }
    var p := e.image;
    var i := p.val;
    var name := NameOr(i, parse, named);
    var tar := Lookup(outs, p);
    var resolved := env.resolve(tar, i.tag);
    if resolved.Err? {
      return Some(resolved.error);
    }
    p.val := i.(digest := resolved.value);
    if e.registry.prefixSource {
      var u := UpdateNameWithPrefixSource(p.val, parse, named);
      name := if u.Ok? then u.value else "";
    }
    var target := CutPrefix(e.registry.url, "oci://").0 + "/" + name;
    assert target == Target(e.registry, i, p.val, parse, named);
    if env.repository(target).Some? {
      return env.repository(target);
    }
    if o.architecture.Some? && env.platform(o.architecture.value).Some? {
      return env.platform(o.architecture.value);
    }
    var pushed := env.copy(tar, i.tag, target, e.registry.plainHTTP);
    if pushed.Err? {
      return Some(pushed.error);
    }
    p.val := i.(digest := pushed.value);
    return None;
  }

  /** The pass over one more entry is one more step. */
  lemma PushPassNext(o: PatchOption, es: seq<Entry>, k: nat, h: Heap, outs: map<ImagePtr, string>,
                     parse: ParseAny, named: ParseNamed, env: PushEnv)
    requires k < |es|
    requires forall j :: 0 <= j < |es| ==> es[j].image in h
    requires PushPass(o, es[..k], h, outs, parse, named, env).err.None?
    ensures es[k].image in PushPass(o, es[..k], h, outs, parse, named, env).heap
    ensures PushPass(o, es[..k + 1], h, outs, parse, named, env)
            == PushEntry(o, es[k], PushPass(o, es[..k], h, outs, parse, named, env).heap, outs, parse, named, env)
  {
    assert es[..k + 1][..k] == es[..k];
  }

  /** One iteration of the push loop, stated against the pass over the
    * entries before it and the pass over the entries up to it. */
  method PushNext(o: PatchOption, es: seq<Entry>, k: nat, ghost h0: Heap, ghost st: PushState, outs: map<ImagePtr, string>,
                  parse: ParseAny, named: ParseNamed, env: PushEnv) returns (ghost st': PushState, err: Option<string>)
    requires k < |es| && (forall j :: 0 <= j < |es| ==> es[j].image in h0)
    requires st == PushPass(o, es[..k], h0, outs, parse, named, env) && st.err.None?
    requires Agrees(PtrsOf(es), st.heap)
    modifies es[k].image
    ensures st' == PushPass(o, es[..k + 1], h0, outs, parse, named, env) && err == st'.err
    ensures Agrees(PtrsOf(es), st'.heap)
  {
    PushPassNext(o, es, k, h0, outs, parse, named, env);
    st' := PushEntry(o, es[k], st.heap, outs, parse, named, env);
    assert PtrsOf(es)[k] == es[k].image;
    err := PushOne(o, es[k], st.heap, outs, parse, named, env);
  }

  /** The push loop: for each flagged entry, resolve the tar's manifest and
    * store its digest in the image, push to the target repository, and store
    * the pushed digest. */
  method PushLoop(o: PatchOption, es: seq<Entry>, ghost h0: Heap, outs: map<ImagePtr, string>,
                  parse: ParseAny, named: ParseNamed, env: PushEnv) returns (err: Option<string>)
    requires Agrees(PtrsOf(es), h0)
    modifies set k | 0 <= k < |es| :: es[k].image
    ensures var s := PushPass(o, es, h0, outs, parse, named, env);
            err == s.err && Agrees(PtrsOf(es), s.heap)
  {
    ghost var st := PushState(h0, None);
    assert es[..0] == [];
    assert forall j :: 0 <= j < |es| ==> es[j].image in h0 by {
      assert forall j :: 0 <= j < |es| ==> PtrsOf(es)[j] == es[j].image;
    }
    err := None;
    for k := 0 to |es|
      invariant st == PushPass(o, es[..k], h0, outs, parse, named, env)
      invariant st.err.None? && err.None?
      invariant Agrees(PtrsOf(es), st.heap)
    {
      st, err := PushNext(o, es, k, h0, st, outs, parse, named, env);
      if err.Some? {
        PushPassErrSticks(o, es, k + 1, h0, outs, parse, named, env);
        assert es[..|es|] == es;
        return;
      }
    }
    assert es[..|es|] == es;
  }

  /** The outcome of `PatchOption.Run` on the images `h`: nothing at all
    * happens when no flag is true; otherwise the patch pass over every image
    * and, if it succeeds, the push pass over the entries, starting from the
    * images as the patch pass left them. */
  function RunPass(o: PatchOption, es: seq<Entry>, h: Heap, reports: map<ImagePtr, string>, outs: map<ImagePtr, string>,
                   parse: ParseAny, named: ParseNamed, penv: PatchEnv, uenv: PushEnv): (r: (Option<string>, Heap))
  {
    if CountFlags(es) == 0 then (None, h)
    else
      var patched := PatchPass(o, PtrsOf(es), h, reports, outs, parse, penv);
      if patched.err.Some? then (patched.err, patched.heap)
      else
        var pushed := PushPass(o, es, patched.heap, outs, parse, named, uenv);
        (pushed.err, pushed.heap)
  }

  /** A run changes an image only in its `String` cache and its digest, and
    * changes the digest only of an image listed with a true flag. */
  lemma RunPassOnlyCachesAndDigests(o: PatchOption, es: seq<Entry>, h: Heap, reports: map<ImagePtr, string>,
                                    outs: map<ImagePtr, string>, parse: ParseAny, named: ParseNamed,
                                    penv: PatchEnv, uenv: PushEnv)
    ensures var r := RunPass(o, es, h, reports, outs, parse, named, penv, uenv);
            r.1.Keys == h.Keys
            && forall p :: p in h ==>
                 r.1[p] == h[p].(parsedRef := r.1[p].parsedRef, digest := r.1[p].digest)
                 && ((forall k :: 0 <= k < |es| && es[k].image == p ==> !es[k].flag) ==> r.1[p].digest == h[p].digest)
  {
    if CountFlags(es) > 0 {
      var patched := PatchPass(o, PtrsOf(es), h, reports, outs, parse, penv);
      PatchPassOnlyCaches(o, PtrsOf(es), h, reports, outs, parse, penv);
      if patched.err.None? {
        PushPassOnlyFlaggedDigests(o, es, patched.heap, outs, parse, named, uenv);
      }
    }
  }

  /** `PatchOption.Run`, updating the images in place. */
  method Run(o: PatchOption, es: seq<Entry>, reports: map<ImagePtr, string>, outs: map<ImagePtr, string>,
             parse: ParseAny, named: ParseNamed, penv: PatchEnv, uenv: PushEnv) returns (err: Option<string>)
    modifies set k | 0 <= k < |es| :: es[k].image
    ensures var r := RunPass(o, es, old(HeapOf(PtrsOf(es))), reports, outs, parse, named, penv, uenv);
            err == r.0 && Agrees(PtrsOf(es), r.1)
  {
    ghost var ps := PtrsOf(es);
    ghost var h0 := HeapOf(ps);
    HeapOfAgrees(ps);
    ghost var r := RunPass(o, es, h0, reports, outs, parse, named, penv, uenv);
    var size := CountSize(es);
    if size <= 0 {
      assert r == (None, h0);
      return None;
    }
    err := PatchLoop(o, es, h0, reports, outs, parse, penv);
    ghost var patched := PatchPass(o, ps, h0, reports, outs, parse, penv);
    if err.Some? {
      assert r == (patched.err, patched.heap);
      return;
    }
    ghost var pushed := PushPass(o, es, patched.heap, outs, parse, named, uenv);
    assert r == (pushed.err, pushed.heap);
    err := PushLoop(o, es, patched.heap, outs, parse, named, uenv);
  }
}
