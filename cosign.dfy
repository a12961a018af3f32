/** pkg/cosign: the error-message classifiers and the two verification runs
  * that turn cosign's verdicts into "needs signing" flags. Cosign's verify
  * command and the registry's digest fetch are parameters. */
module Cosign {
  import opened Wrappers
  import opened Strs
  import opened Reference
  import opened RegistryImages
  import opened Registries
  import Charts

  // ---------------------------------------------------------------------
  // Error classifiers (error.go:35-45)
  // ---------------------------------------------------------------------

  predicate IsNoCertificateFoundOnSignatureErr(err: string)
  {
    Contains(err, "no certificate found on signature")
  }

  predicate IsNoMatchingSignatureErr(err: string)
  {
    Contains(err, "no matching signatures")
  }

  predicate IsImageWithoutSignatureErr(err: string)
  {
    Contains(err, "image without signature")
  }

  /** The classifiers are substring tests: text around a matching message
    * keeps it matching. */
  lemma ClassifiersWrapped(err: string, before: string, after: string)
    ensures IsNoCertificateFoundOnSignatureErr(err) ==> IsNoCertificateFoundOnSignatureErr(before + err + after)
    ensures IsNoMatchingSignatureErr(err) ==> IsNoMatchingSignatureErr(before + err + after)
    ensures IsImageWithoutSignatureErr(err) ==> IsImageWithoutSignatureErr(before + err + after)
  {
    if IsNoCertificateFoundOnSignatureErr(err) {
      ContainsWrapped(err, "no certificate found on signature", before, after);
    }
    if IsNoMatchingSignatureErr(err) {
      ContainsWrapped(err, "no matching signatures", before, after);
    }
    if IsImageWithoutSignatureErr(err) {
      ContainsWrapped(err, "image without signature", before, after);
    }
  }

  // ---------------------------------------------------------------------
  // The work size (verify.go:31-47, verifyChart.go:32-48)
  // ---------------------------------------------------------------------

  /** Cosign's verify command: the error message it fails with, if any. */
  type VerifyExec = string -> Option<string>

  /** `Registry.Fetch`: the digest of name:tag in the registry. */
  type DigestFetch = (Registry, string, string) -> Result<string>

  /** The one verify error that means "not signed yet". */
  const NoSignaturesFound := "no signatures found"

  /** The options of both runs that the model uses. */
  datatype VerifyOption = VerifyOption(verifyExisting: bool, keyRef: string, allowInsecure: bool, allowHTTPRegistry: bool)

  /** An entry is verified when it is flagged or VerifyExisting is set. */
  predicate Selected(vo: VerifyOption, flag: bool)
  {
    flag || vo.verifyExisting
  }

  /** The number of selected flags of one registry. */
  function CountIn(vo: VerifyOption, flags: seq<bool>): nat
    decreases |flags|
  {
    if flags == [] then 0
    else CountIn(vo, flags[..|flags| - 1]) + (if Selected(vo, flags[|flags| - 1]) then 1 else 0)
  }

  /** The number of selected flags of every registry. */
  function Size(vo: VerifyOption, flags: seq<seq<bool>>): nat
    decreases |flags|
  {
    if flags == [] then 0 else Size(vo, flags[..|flags| - 1]) + CountIn(vo, flags[|flags| - 1])
  }

  /** The `size` closure: a nested counting loop. */
  method SizeLoop(vo: VerifyOption, flags: seq<seq<bool>>) returns (size: nat)
    ensures size == Size(vo, flags)
  {
    size := 0;
    for r := 0 to |flags|
      invariant size == Size(vo, flags[..r])
    {
      assert flags[..r + 1][..r] == flags[..r];
      var m := flags[r];
      var c := 0;
      for k := 0 to |m|
        invariant c == CountIn(vo, m[..k])
      {
        assert m[..k + 1][..k] == m[..k];
        if m[k] || vo.verifyExisting {
          c := c + 1;
        }
      }
      assert m[..|m|] == m;
      size := size + c;
    }
    assert flags[..|flags|] == flags;
  }

  lemma {:induction false} CountInZeroIff(vo: VerifyOption, flags: seq<bool>)
    ensures CountIn(vo, flags) == 0 <==> forall k :: 0 <= k < |flags| ==> !Selected(vo, flags[k])
    decreases |flags|
  {
    if flags != [] {
      var init := flags[..|flags| - 1];
      CountInZeroIff(vo, init);
      assert forall k :: 0 <= k < |init| ==> init[k] == flags[k];
    }
  }

  /** The size is zero exactly when no entry is selected: the early
    * return. */
  lemma {:induction false} SizeZeroIff(vo: VerifyOption, flags: seq<seq<bool>>)
    ensures Size(vo, flags) == 0 <==>
            forall r, k :: 0 <= r < |flags| && 0 <= k < |flags[r]| ==> !Selected(vo, flags[r][k])
    decreases |flags|
  {
    if flags != [] {
      var init := flags[..|flags| - 1];
      SizeZeroIff(vo, init);
      CountInZeroIff(vo, flags[|flags| - 1]);
      assert forall r :: 0 <= r < |init| ==> init[r] == flags[r];
    }
  }

  // ---------------------------------------------------------------------
  // Verifying images (verify.go:29-185)
  // ---------------------------------------------------------------------

  /** `*registry.Image`: the pointer through which the run stores a fetched
    * digest. */
  class ImageCell {
    var val: Image

    constructor (v: Image)
      ensures val == v
    {
      val := v;
    }
  }

  /** One (image pointer, flag) entry of a registry's map. */
  datatype Entry = Entry(image: ImageCell, flag: bool)

  /** A registry with its entries, in iteration order; a nil map is an empty
    * one. */
  datatype RegEntries = RegEntries(registry: Registry, entries: seq<Entry>)

  /** The values behind the image pointers. */
  type Heap = map<ImageCell, Image>

  function FlagsIn(es: seq<Entry>): (r: seq<bool>)
    ensures |r| == |es| && forall k :: 0 <= k < |es| ==> r[k] == es[k].flag
  {
    seq(|es|, k requires 0 <= k < |es| => es[k].flag)
  }

  function Flags(data: seq<RegEntries>): (r: seq<seq<bool>>)
    ensures |r| == |data| && forall j :: 0 <= j < |data| ==> r[j] == FlagsIn(data[j].entries)
  {
    seq(|data|, j requires 0 <= j < |data| => FlagsIn(data[j].entries))
  }

  function CellsIn(es: seq<Entry>): set<ImageCell>
  {
    set k | 0 <= k < |es| :: es[k].image
  }

  function Cells(data: seq<RegEntries>): set<ImageCell>
  {
    set j, k | 0 <= j < |data| && 0 <= k < |data[j].entries| :: data[j].entries[k].image
  }

  predicate InHeap(es: seq<Entry>, h: Heap)
  {
    forall k :: 0 <= k < |es| ==> es[k].image in h
  }

  predicate AllInHeap(data: seq<RegEntries>, h: Heap)
  {
    forall j :: 0 <= j < |data| ==> InHeap(data[j].entries, h)
  }

  /** The pointers of `es` hold the values the heap records for them. */
  ghost predicate AgreesOn(es: seq<Entry>, h: Heap)
    reads CellsIn(es)
  {
    forall k :: 0 <= k < |es| ==> es[k].image in h && es[k].image.val == h[es[k].image]
  }

  ghost predicate Agrees(data: seq<RegEntries>, h: Heap)
    reads Cells(data)
  {
    forall j, k :: 0 <= j < |data| && 0 <= k < |data[j].entries| ==>
      data[j].entries[k].image in h && data[j].entries[k].image.val == h[data[j].entries[k].image]
  }

  /** What one entry comes to: its new flag, the images afterwards, and the
    * error that ends the run, if any. */
  datatype Outcome = Outcome(flag: bool, heap: Heap, err: Option<string>)

  /** One entry of the inner loop. An unselected entry keeps its flag. A
    * selected one is named (a failure ends the run); an unflagged one with
    * no digest gets the registry's digest stored in the image (a failure
    * ends the run); then "URL/name@digest" is verified: success clears the
    * flag, "no signatures found" sets it, any other error ends the run. */
  function VerifyEntry(vo: VerifyOption, reg: Registry, e: Entry, h: Heap,
                       parse: ParseAny, fetch: DigestFetch, exec: VerifyExec): (o: Outcome)
    requires e.image in h
    ensures e.image in o.heap
    ensures o.heap == h[e.image := h[e.image].(digest := o.heap[e.image].digest)]
  {
    if !Selected(vo, e.flag) then Outcome(e.flag, h, None)
    else
      var i := h[e.image];
      match ImageName(i, parse)
      case Err(err) => Outcome(e.flag, h, Some(err))
      case Ok(name) =>
        var fetched := if !e.flag && i.digest == "" then fetch(reg, name, i.tag) else Ok(i.digest);
        match fetched
        case Err(err) => Outcome(e.flag, h, Some(err))
        case Ok(d) =>
          var h' := h[e.image := i.(digest := d)];
          match exec(reg.url + "/" + name + "@" + d)
          case None => Outcome(false, h', None)
          case Some(msg) =>
            if msg == NoSignaturesFound then Outcome(true, h', None) else Outcome(e.flag, h', Some(msg))
  }

  /** An unselected entry is not touched. A selected entry that does not end
    * the run is verified under the digest the image holds afterwards, and
    * its flag is set iff cosign answered "no signatures found". The digest
    * is replaced only for an unflagged entry whose digest was empty. */
  lemma VerifyEntryVerdict(vo: VerifyOption, reg: Registry, e: Entry, h: Heap,
                           parse: ParseAny, fetch: DigestFetch, exec: VerifyExec)
    requires e.image in h
    ensures var o := VerifyEntry(vo, reg, e, h, parse, fetch, exec);
            (!Selected(vo, e.flag) ==> o == Outcome(e.flag, h, None))
            && (Selected(vo, e.flag) && o.err.None? ==>
                  ImageName(h[e.image], parse).Ok?
                  && var ref := reg.url + "/" + ImageName(h[e.image], parse).value + "@" + o.heap[e.image].digest;
                     (o.flag <==> exec(ref) == Some(NoSignaturesFound))
                     && (!o.flag <==> exec(ref).None?))
            && (o.heap[e.image] == h[e.image] || (!e.flag && h[e.image].digest == ""))
  {
  }

  /** The state of the inner loop: the registry's entries so far with their
    * new flags, the images, and the error that ended the run. */
  datatype RegState = RegState(entries: seq<Entry>, heap: Heap, err: Option<string>)

  /** The inner loop over one registry's entries; the first error ends it. */
  function RegPass(vo: VerifyOption, reg: Registry, es: seq<Entry>, h: Heap,
                   parse: ParseAny, fetch: DigestFetch, exec: VerifyExec): (s: RegState)
    requires InHeap(es, h)
    ensures s.heap.Keys == h.Keys
    decreases |es|
  {
    if es == [] then RegState([], h, None)
    else
      var prev := RegPass(vo, reg, es[..|es| - 1], h, parse, fetch, exec);
      var e := es[|es| - 1];
      if prev.err.Some? then prev
      else
        var o := VerifyEntry(vo, reg, e, prev.heap, parse, fetch, exec);
        RegState(prev.entries + [Entry(e.image, o.flag)], o.heap, o.err)
  }

  /** The state of the outer loop: the output map so far, the images, and
    * the error that ended the run. */
  datatype RunState = RunState(out: seq<RegEntries>, heap: Heap, err: Option<string>)

  /** The outer loop over every registry: each registry that completes is
    * put in the output with its entries. */
  function DataPass(vo: VerifyOption, data: seq<RegEntries>, h: Heap,
                    parse: ParseAny, fetch: DigestFetch, exec: VerifyExec): (s: RunState)
    requires AllInHeap(data, h)
    ensures s.heap.Keys == h.Keys
    decreases |data|
  {
    if data == [] then RunState([], h, None)
    else
      var prev := DataPass(vo, data[..|data| - 1], h, parse, fetch, exec);
      var d := data[|data| - 1];
      if prev.err.Some? then prev
      else
        var rs := RegPass(vo, d.registry, d.entries, prev.heap, parse, fetch, exec);
        if rs.err.Some? then RunState(prev.out, rs.heap, rs.err)
        else RunState(prev.out + [RegEntries(d.registry, rs.entries)], rs.heap, None)
  }

  /** `VerifyOption.Run`: with nothing selected, an empty map and no
    * verification; otherwise the loops, with an empty map on error. The
    * digests stored before an error stay stored. */
  function VerifyRun(vo: VerifyOption, data: seq<RegEntries>, h: Heap,
                     parse: ParseAny, fetch: DigestFetch, exec: VerifyExec): RunState
    requires AllInHeap(data, h)
  {
    if Size(vo, Flags(data)) == 0 then RunState([], h, None)
    else
      var s := DataPass(vo, data, h, parse, fetch, exec);
      if s.err.Some? then RunState([], s.heap, s.err) else s
  }

  /** One iteration of the inner loop. */
  method VerifyOne(vo: VerifyOption, reg: Registry, e: Entry, ghost h: Heap,
                   parse: ParseAny, fetch: DigestFetch, exec: VerifyExec) returns (flag: bool, err: Option<string>)
    requires e.image in h && e.image.val == h[e.image]
    modifies e.image
    ensures var o := VerifyEntry(vo, reg, e, h, parse, fetch, exec);
            flag == o.flag && err == o.err && e.image.val == o.heap[e.image]
  {
    flag := e.flag;
    if !(e.flag || vo.verifyExisting) {
      return flag, None;
    }
    var i := e.image;
    var name := ImageName(i.val, parse);
    if name.Err? {
      return flag, Some(name.error);
    }
    if !e.flag {
      if i.val.digest == "" {
        var d := fetch(reg, name.value, i.val.tag);
        if d.Err? {
          return flag, Some(d.error);
        }
        i.val := i.val.(digest := d.value);
      }
    }
    var verdict := exec(reg.url + "/" + name.value + "@" + i.val.digest);
    if verdict.Some? {
      if verdict.value == NoSignaturesFound {
        return true, None;
      }
      return flag, verdict;
    }
    return false, None;
  }

  /** The inner loop pass over one more entry is one more step. */
  lemma RegPassNext(vo: VerifyOption, reg: Registry, es: seq<Entry>, k: nat, h: Heap,
                    parse: ParseAny, fetch: DigestFetch, exec: VerifyExec)
    requires k < |es| && InHeap(es, h)
    requires RegPass(vo, reg, es[..k], h, parse, fetch, exec).err.None?
    ensures var prev := RegPass(vo, reg, es[..k], h, parse, fetch, exec);
            es[k].image in prev.heap
            && RegPass(vo, reg, es[..k + 1], h, parse, fetch, exec)
               == var o := VerifyEntry(vo, reg, es[k], prev.heap, parse, fetch, exec);
                  RegState(prev.entries + [Entry(es[k].image, o.flag)], o.heap, o.err)
  {
    assert es[..k + 1][..k] == es[..k];
  }

  /** Once the inner pass has failed, later entries change nothing. */
  lemma {:induction false} RegPassErrSticks(vo: VerifyOption, reg: Registry, es: seq<Entry>, n: nat, h: Heap,
                                            parse: ParseAny, fetch: DigestFetch, exec: VerifyExec)
    requires n <= |es| && InHeap(es, h)
    requires RegPass(vo, reg, es[..n], h, parse, fetch, exec).err.Some?
    ensures RegPass(vo, reg, es, h, parse, fetch, exec) == RegPass(vo, reg, es[..n], h, parse, fetch, exec)
    decreases |es| - n
  {
    if n < |es| {
      assert es[..|es| - 1][..n] == es[..n];
      RegPassErrSticks(vo, reg, es[..|es| - 1], n, h, parse, fetch, exec);
    } else {
      assert es[..n] == es;
    }
  }

  /** The inner pass changes only the images of its own entries. */
  lemma {:induction false} RegPassFrame(vo: VerifyOption, reg: Registry, es: seq<Entry>, h: Heap,
                                        parse: ParseAny, fetch: DigestFetch, exec: VerifyExec)
    requires InHeap(es, h)
    ensures var s := RegPass(vo, reg, es, h, parse, fetch, exec);
            forall p :: p in h && p !in CellsIn(es) ==> s.heap[p] == h[p]
    decreases |es|
  {
    if es != [] {
      var init := es[..|es| - 1];
      assert InHeap(init, h);
      RegPassFrame(vo, reg, init, h, parse, fetch, exec);
      assert CellsIn(init) <= CellsIn(es);
    }
  }

  /** One iteration of the inner loop against the pass. */
  method RegNext(vo: VerifyOption, reg: Registry, es: seq<Entry>, k: nat, ghost h0: Heap, ghost st: RegState,
                 parse: ParseAny, fetch: DigestFetch, exec: VerifyExec)
    returns (ghost st': RegState, flag: bool, err: Option<string>)
    requires k < |es| && InHeap(es, h0)
    requires st == RegPass(vo, reg, es[..k], h0, parse, fetch, exec) && st.err.None?
    requires AgreesOn(es, st.heap)
    modifies es[k].image
    ensures st' == RegPass(vo, reg, es[..k + 1], h0, parse, fetch, exec)
    ensures st'.entries == st.entries + [Entry(es[k].image, flag)] && err == st'.err
    ensures AgreesOn(es, st'.heap)
  {
    RegPassNext(vo, reg, es, k, h0, parse, fetch, exec);
    var o := VerifyEntry(vo, reg, es[k], st.heap, parse, fetch, exec);
    st' := RegState(st.entries + [Entry(es[k].image, o.flag)], o.heap, o.err);
    flag, err := VerifyOne(vo, reg, es[k], st.heap, parse, fetch, exec);
  }

  /** The inner loop over one registry's entries, writing each selected
    * entry's new flag. */
  method RegLoop(vo: VerifyOption, reg: Registry, es: seq<Entry>, ghost h0: Heap,
                 parse: ParseAny, fetch: DigestFetch, exec: VerifyExec)
    returns (entries: seq<Entry>, err: Option<string>, ghost s: RegState)
    requires InHeap(es, h0) && AgreesOn(es, h0)
    modifies CellsIn(es)
    ensures s == RegPass(vo, reg, es, h0, parse, fetch, exec)
    ensures entries == s.entries && err == s.err && AgreesOn(es, s.heap)
  {
    s := RegState([], h0, None);
    assert es[..0] == [];
    entries, err := [], None;
    for k := 0 to |es|
      invariant s == RegPass(vo, reg, es[..k], h0, parse, fetch, exec)
      invariant s.err.None? && err.None? && entries == s.entries
      invariant AgreesOn(es, s.heap)
    {
      var flag;
      s, flag, err := RegNext(vo, reg, es, k, h0, s, parse, fetch, exec);
      entries := entries + [Entry(es[k].image, flag)];
      if err.Some? {
        RegPassErrSticks(vo, reg, es, k + 1, h0, parse, fetch, exec);
        assert es[..|es|] == es;
        return;
      }
    }
    assert es[..|es|] == es;
  }

  /** The outer loop pass over one more registry is one more step. */
  lemma DataPassNext(vo: VerifyOption, data: seq<RegEntries>, r: nat, h: Heap,
                     parse: ParseAny, fetch: DigestFetch, exec: VerifyExec)
    requires r < |data| && AllInHeap(data, h)
    requires DataPass(vo, data[..r], h, parse, fetch, exec).err.None?
    ensures var prev := DataPass(vo, data[..r], h, parse, fetch, exec);
            InHeap(data[r].entries, prev.heap)
            && DataPass(vo, data[..r + 1], h, parse, fetch, exec)
               == var rs := RegPass(vo, data[r].registry, data[r].entries, prev.heap, parse, fetch, exec);
                  if rs.err.Some? then RunState(prev.out, rs.heap, rs.err)
                  else RunState(prev.out + [RegEntries(data[r].registry, rs.entries)], rs.heap, None)
  {
    assert data[..r + 1][..r] == data[..r];
    assert AllInHeap(data[..r], h);
  }

  /** Once the outer pass has failed, later registries change nothing. */
  lemma {:induction false} DataPassErrSticks(vo: VerifyOption, data: seq<RegEntries>, n: nat, h: Heap,
                                             parse: ParseAny, fetch: DigestFetch, exec: VerifyExec)
    requires n <= |data| && AllInHeap(data, h)
    requires DataPass(vo, data[..n], h, parse, fetch, exec).err.Some?
    ensures DataPass(vo, data, h, parse, fetch, exec) == DataPass(vo, data[..n], h, parse, fetch, exec)
    decreases |data| - n
  {
    if n < |data| {
      assert data[..|data| - 1][..n] == data[..n];
      DataPassErrSticks(vo, data[..|data| - 1], n, h, parse, fetch, exec);
    } else {
      assert data[..n] == data;
    }
  }

  /** After the inner loop, the pointers of every registry still agree with
    * the heap: those of the loop's registry by the loop, the others because
    * neither they nor their heap entries changed. */
  lemma AgreesAfterReg(data: seq<RegEntries>, r: nat, h: Heap, h': Heap)
    requires r < |data|
    requires AgreesOn(data[r].entries, h')
    requires forall j, k :: 0 <= j < |data| && 0 <= k < |data[j].entries| ==> data[j].entries[k].image in h
    requires forall p :: p in h && p !in CellsIn(data[r].entries) ==> p in h' && h'[p] == h[p]
    requires forall j, k :: 0 <= j < |data| && 0 <= k < |data[j].entries| && data[j].entries[k].image !in CellsIn(data[r].entries)
               ==> data[j].entries[k].image.val == h[data[j].entries[k].image]
    ensures Agrees(data, h')
  {
    forall j, k | 0 <= j < |data| && 0 <= k < |data[j].entries|
      ensures data[j].entries[k].image in h' && data[j].entries[k].image.val == h'[data[j].entries[k].image]
    {
      var p := data[j].entries[k].image;
      if p in CellsIn(data[r].entries) {
        var m :| 0 <= m < |data[r].entries| && data[r].entries[m].image == p;
      }
    }
  }

  /** One iteration of the outer loop against the pass. */
  method DataNext(vo: VerifyOption, data: seq<RegEntries>, r: nat, ghost h0: Heap, ghost st: RunState,
                  parse: ParseAny, fetch: DigestFetch, exec: VerifyExec)
    returns (ghost st': RunState, entries: seq<Entry>, err: Option<string>)
    requires r < |data| && AllInHeap(data, h0)
    requires st == DataPass(vo, data[..r], h0, parse, fetch, exec) && st.err.None?
    requires Agrees(data, st.heap)
    modifies Cells(data)
    ensures st' == DataPass(vo, data[..r + 1], h0, parse, fetch, exec) && err == st'.err
    ensures err.None? ==> st'.out == st.out + [RegEntries(data[r].registry, entries)]
    ensures Agrees(data, st'.heap)
  {
    DataPassNext(vo, data, r, h0, parse, fetch, exec);
    var es := data[r].entries;
    assert CellsIn(es) <= Cells(data);
    assert AgreesOn(es, st.heap);
    ghost var rs;
    entries, err, rs := RegLoop(vo, data[r].registry, es, st.heap, parse, fetch, exec);
    st' := if rs.err.Some? then RunState(st.out, rs.heap, rs.err)
           else RunState(st.out + [RegEntries(data[r].registry, rs.entries)], rs.heap, None);
    RegPassFrame(vo, data[r].registry, es, st.heap, parse, fetch, exec);
    AgreesAfterReg(data, r, st.heap, rs.heap);
  }

  /** `VerifyOption.Run` on the pointers of `data`, whose values `h0`
    * records. */
  method Run(vo: VerifyOption, data: seq<RegEntries>, ghost h0: Heap,
             parse: ParseAny, fetch: DigestFetch, exec: VerifyExec) returns (out: seq<RegEntries>, err: Option<string>)
    requires AllInHeap(data, h0) && Agrees(data, h0)
    modifies Cells(data)
    ensures var s := VerifyRun(vo, data, h0, parse, fetch, exec);
            out == s.out && err == s.err && Agrees(data, s.heap)
  {
    var flags := Flags(data);
    var size := SizeLoop(vo, flags);
    if !(size > 0) {
      return [], None;
    }
    ghost var st := RunState([], h0, None);
    assert data[..0] == [];
    out, err := [], None;
    for r := 0 to |data|
      invariant st == DataPass(vo, data[..r], h0, parse, fetch, exec)
      invariant st.err.None? && err.None? && out == st.out
      invariant Agrees(data, st.heap)
    {
      var entries;
      st, entries, err := DataNext(vo, data, r, h0, st, parse, fetch, exec);
      if err.Some? {
        DataPassErrSticks(vo, data, r + 1, h0, parse, fetch, exec);
        assert data[..|data|] == data;
        return [], err;
      }
      out := out + [RegEntries(data[r].registry, entries)];
    }
    assert data[..|data|] == data;
  }

  /** `out` lists the pointers of `es` in order, and unselected entries
    * keep their flags. */
  predicate EntriesKept(vo: VerifyOption, out: seq<Entry>, es: seq<Entry>)
  {
    |out| == |es|
    && forall k :: 0 <= k < |es| ==>
         out[k].image == es[k].image && (!Selected(vo, es[k].flag) ==> out[k].flag == es[k].flag)
  }

  /** `out` lists every registry of `data` in order, each with its entries
    * kept. */
  predicate OutKept(vo: VerifyOption, out: seq<RegEntries>, data: seq<RegEntries>)
  {
    |out| == |data|
    && forall j :: 0 <= j < |data| ==>
         out[j].registry == data[j].registry && EntriesKept(vo, out[j].entries, data[j].entries)
  }

  lemma EntriesKeptAppend(vo: VerifyOption, out: seq<Entry>, es: seq<Entry>, e: Entry, flag: bool)
    requires EntriesKept(vo, out, es)
    requires !Selected(vo, e.flag) ==> flag == e.flag
    ensures EntriesKept(vo, out + [Entry(e.image, flag)], es + [e])
  {
  }

  lemma OutKeptAppend(vo: VerifyOption, out: seq<RegEntries>, data: seq<RegEntries>, reg: Registry, es': seq<Entry>, es: seq<Entry>)
    requires OutKept(vo, out, data) && EntriesKept(vo, es', es)
    ensures OutKept(vo, out + [RegEntries(reg, es')], data + [RegEntries(reg, es)])
  {
  }

  /** A registry pass without error keeps the entries' pointers in order
    * and the flags of unselected entries. */
  lemma {:induction false} RegPassShape(vo: VerifyOption, reg: Registry, es: seq<Entry>, h: Heap,
                                        parse: ParseAny, fetch: DigestFetch, exec: VerifyExec)
    requires InHeap(es, h)
    ensures var s := RegPass(vo, reg, es, h, parse, fetch, exec);
            s.err.None? ==> EntriesKept(vo, s.entries, es)
    decreases |es|
  {
    if es != [] && RegPass(vo, reg, es, h, parse, fetch, exec).err.None? {
      var init := es[..|es| - 1];
      assert InHeap(init, h);
      var flag := RegPassLast(vo, reg, es, h, parse, fetch, exec);
      RegPassShape(vo, reg, init, h, parse, fetch, exec);
      EntriesKeptLast(vo, RegPass(vo, reg, init, h, parse, fetch, exec).entries, es, flag);
    }
  }

  /** The last step of a registry pass without error: the entry gets a flag
    * that an unselected entry keeps. */
  lemma RegPassLast(vo: VerifyOption, reg: Registry, es: seq<Entry>, h: Heap,
                    parse: ParseAny, fetch: DigestFetch, exec: VerifyExec) returns (flag: bool)
    requires es != [] && InHeap(es, h) && RegPass(vo, reg, es, h, parse, fetch, exec).err.None?
    ensures InHeap(es[..|es| - 1], h)
    ensures RegPass(vo, reg, es[..|es| - 1], h, parse, fetch, exec).err.None?
    ensures RegPass(vo, reg, es, h, parse, fetch, exec).entries
            == RegPass(vo, reg, es[..|es| - 1], h, parse, fetch, exec).entries + [Entry(es[|es| - 1].image, flag)]
    ensures !Selected(vo, es[|es| - 1].flag) ==> flag == es[|es| - 1].flag
  {
    var init := es[..|es| - 1];
    assert InHeap(init, h);
    var prev := RegPass(vo, reg, init, h, parse, fetch, exec);
    var e := es[|es| - 1];
    VerifyEntryVerdict(vo, reg, e, prev.heap, parse, fetch, exec);
    flag := VerifyEntry(vo, reg, e, prev.heap, parse, fetch, exec).flag;
  }

  lemma EntriesKeptLast(vo: VerifyOption, out: seq<Entry>, es: seq<Entry>, flag: bool)
    requires es != [] && EntriesKept(vo, out, es[..|es| - 1])
    requires !Selected(vo, es[|es| - 1].flag) ==> flag == es[|es| - 1].flag
    ensures EntriesKept(vo, out + [Entry(es[|es| - 1].image, flag)], es)
  {
    EntriesKeptAppend(vo, out, es[..|es| - 1], es[|es| - 1], flag);
    assert es[..|es| - 1] + [es[|es| - 1]] == es;
  }

  /** A run without error puts every input registry in the output, in
    * order, with the same pointers; unselected entries keep their flags. */
  lemma {:induction false} DataPassShape(vo: VerifyOption, data: seq<RegEntries>, h: Heap,
                                         parse: ParseAny, fetch: DigestFetch, exec: VerifyExec)
    requires AllInHeap(data, h)
    ensures var s := DataPass(vo, data, h, parse, fetch, exec);
            s.err.None? ==> OutKept(vo, s.out, data)
    decreases |data|
  {
    if data != [] {
      var init := data[..|data| - 1];
      assert AllInHeap(init, h);
      DataPassShape(vo, init, h, parse, fetch, exec);
      var prev := DataPass(vo, init, h, parse, fetch, exec);
      var s := DataPass(vo, data, h, parse, fetch, exec);
      if s.err.None? {
        var d := data[|data| - 1];
        assert prev.err.None?;
        RegPassShape(vo, d.registry, d.entries, prev.heap, parse, fetch, exec);
        var rs := RegPass(vo, d.registry, d.entries, prev.heap, parse, fetch, exec);
        assert s.out == prev.out + [RegEntries(d.registry, rs.entries)];
        OutKeptAppend(vo, prev.out, init, d.registry, rs.entries, d.entries);
        assert init + [RegEntries(d.registry, d.entries)] == data;
      }
    }
  }

  /** The whole run: with nothing selected it returns an empty map and
    * changes no image, whatever the registry and cosign would answer; an
    * error returns an empty map; a run without error that verified anything
    * puts every registry in the output, with unselected entries' flags
    * kept. */
  lemma VerifyRunOutcome(vo: VerifyOption, data: seq<RegEntries>, h: Heap,
                         parse: ParseAny, fetch: DigestFetch, exec: VerifyExec)
    requires AllInHeap(data, h)
    ensures (forall j, k :: 0 <= j < |data| && 0 <= k < |data[j].entries| ==> !Selected(vo, data[j].entries[k].flag))
            ==> VerifyRun(vo, data, h, parse, fetch, exec) == RunState([], h, None)
    ensures var s := VerifyRun(vo, data, h, parse, fetch, exec);
            (s.err.Some? ==> s.out == [])
            && (s.err.None? && s.out != [] ==> OutKept(vo, s.out, data))
  {
    assert forall j, k :: 0 <= j < |data| && 0 <= k < |data[j].entries| ==> Flags(data)[j][k] == data[j].entries[k].flag;
    SizeZeroIff(vo, Flags(data));
    DataPassShape(vo, data, h, parse, fetch, exec);
  }

  /** From `h` to `h'` the images change only in their digests, and only
    * those whose digest was empty. */
  predicate OnlyEmptyDigestsFilled(h: Heap, h': Heap)
  {
    forall p :: p in h ==> p in h' && (h'[p] == h[p] || (h[p].digest == "" && h'[p] == h[p].(digest := h'[p].digest)))
  }

  lemma OnlyEmptyDigestsFilledTrans(h: Heap, h': Heap, h'': Heap)
    requires OnlyEmptyDigestsFilled(h, h') && OnlyEmptyDigestsFilled(h', h'')
    ensures OnlyEmptyDigestsFilled(h, h'')
  {
  }

  lemma {:induction false} RegPassDigests(vo: VerifyOption, reg: Registry, es: seq<Entry>, h: Heap,
                                          parse: ParseAny, fetch: DigestFetch, exec: VerifyExec)
    requires InHeap(es, h)
    ensures OnlyEmptyDigestsFilled(h, RegPass(vo, reg, es, h, parse, fetch, exec).heap)
    decreases |es|
  {
    if es != [] {
      var init := es[..|es| - 1];
      assert InHeap(init, h);
      RegPassDigests(vo, reg, init, h, parse, fetch, exec);
      var prev := RegPass(vo, reg, init, h, parse, fetch, exec);
      if prev.err.None? {
        var e := es[|es| - 1];
        var o := VerifyEntry(vo, reg, e, prev.heap, parse, fetch, exec);
        assert OnlyEmptyDigestsFilled(prev.heap, o.heap) by {
          VerifyEntryVerdict(vo, reg, e, prev.heap, parse, fetch, exec);
        }
        OnlyEmptyDigestsFilledTrans(h, prev.heap, o.heap);
      }
    }
  }

  /** The run changes the images only in their digests, and only those whose
    * digest was empty: a digest is fetched only for an unflagged entry
    * without one. */
  lemma {:induction false} DataPassDigests(vo: VerifyOption, data: seq<RegEntries>, h: Heap,
                                           parse: ParseAny, fetch: DigestFetch, exec: VerifyExec)
    requires AllInHeap(data, h)
    ensures OnlyEmptyDigestsFilled(h, DataPass(vo, data, h, parse, fetch, exec).heap)
    decreases |data|
  {
    if data != [] {
      var init := data[..|data| - 1];
      assert AllInHeap(init, h);
      DataPassDigests(vo, init, h, parse, fetch, exec);
      var prev := DataPass(vo, init, h, parse, fetch, exec);
      if prev.err.None? {
        var d := data[|data| - 1];
        RegPassDigests(vo, d.registry, d.entries, prev.heap, parse, fetch, exec);
        OnlyEmptyDigestsFilledTrans(h, prev.heap, RegPass(vo, d.registry, d.entries, prev.heap, parse, fetch, exec).heap);
      }
    }
  }

  // ---------------------------------------------------------------------
  // Verifying charts (verifyChart.go:30-180)
  // ---------------------------------------------------------------------

  /** One (chart, flag) entry of a registry's map. */
  datatype ChartEntry = ChartEntry(chart: Charts.Chart, flag: bool)

  /** A registry with its chart entries, in iteration order. */
  datatype RegCharts = RegCharts(registry: Registry, entries: seq<ChartEntry>)

  function ChartFlags(data: seq<RegCharts>): (r: seq<seq<bool>>)
    ensures |r| == |data|
    ensures forall j, k :: 0 <= j < |data| && 0 <= k < |data[j].entries| ==>
              |r[j]| == |data[j].entries| && r[j][k] == data[j].entries[k].flag
  {
    seq(|data|, j requires 0 <= j < |data| =>
      seq(|data[j].entries|, k requires 0 <= k < |data[j].entries| => data[j].entries[k].flag))
  }

  /** The reference a chart is verified under. */
  function ChartRef(reg: Registry, c: Charts.Chart, digest: string): string
  {
    reg.url + "/charts/" + c.name + "@" + digest
  }

  /** One entry of the inner loop: an unselected entry keeps its flag; a
    * selected one has the digest of "charts/name" at its version fetched
    * and verified: success clears the flag, "no signatures found" sets it,
    * a fetch error or any other verify error ends the run. */
  function ChartVerdict(vo: VerifyOption, reg: Registry, e: ChartEntry,
                        fetch: DigestFetch, exec: VerifyExec): Result<bool>
  {
    if !Selected(vo, e.flag) then Ok(e.flag)
    else
      match fetch(reg, "charts/" + e.chart.name, e.chart.version)
      case Err(err) => Err(err)
      case Ok(d) =>
        match exec(ChartRef(reg, e.chart, d))
        case None => Ok(false)
        case Some(msg) => if msg == NoSignaturesFound then Ok(true) else Err(msg)
  }

  /** A selected chart is flagged iff its digest was fetched and cosign
    * answered "no signatures found" for it, and cleared iff cosign accepted
    * it; an unselected one keeps its flag. */
  lemma ChartVerdictIff(vo: VerifyOption, reg: Registry, e: ChartEntry, fetch: DigestFetch, exec: VerifyExec)
    ensures !Selected(vo, e.flag) ==> ChartVerdict(vo, reg, e, fetch, exec) == Ok(e.flag)
    ensures Selected(vo, e.flag) ==>
              var d := fetch(reg, "charts/" + e.chart.name, e.chart.version);
              (ChartVerdict(vo, reg, e, fetch, exec) == Ok(true) <==>
                 d.Ok? && exec(ChartRef(reg, e.chart, d.value)) == Some(NoSignaturesFound))
    ensures Selected(vo, e.flag) ==>
              var d := fetch(reg, "charts/" + e.chart.name, e.chart.version);
              (ChartVerdict(vo, reg, e, fetch, exec) == Ok(false) <==>
                 d.Ok? && exec(ChartRef(reg, e.chart, d.value)).None?)
  {
  }

  /** The inner loop over one registry's charts; the first error ends it. */
  function ChartRegPass(vo: VerifyOption, reg: Registry, es: seq<ChartEntry>,
                        fetch: DigestFetch, exec: VerifyExec): Result<seq<ChartEntry>>
    decreases |es|
  {
    if es == [] then Ok([])
    else
      match ChartRegPass(vo, reg, es[..|es| - 1], fetch, exec)
      case Err(err) => Err(err)
      case Ok(prev) =>
        var e := es[|es| - 1];
        match ChartVerdict(vo, reg, e, fetch, exec)
        case Err(err) => Err(err)
        case Ok(flag) => Ok(prev + [ChartEntry(e.chart, flag)])
  }

  /** The outer loop over every registry. */
  function ChartDataPass(vo: VerifyOption, data: seq<RegCharts>,
                         fetch: DigestFetch, exec: VerifyExec): Result<seq<RegCharts>>
    decreases |data|
  {
    if data == [] then Ok([])
    else
      match ChartDataPass(vo, data[..|data| - 1], fetch, exec)
      case Err(err) => Err(err)
      case Ok(prev) =>
        var d := data[|data| - 1];
        match ChartRegPass(vo, d.registry, d.entries, fetch, exec)
        case Err(err) => Err(err)
        case Ok(es) => Ok(prev + [RegCharts(d.registry, es)])
  }

  /** `VerifyChartOption.Run`: an empty map when nothing is selected;
    * otherwise the loops; an error comes with an empty map. */
  function VerifyChartRun(vo: VerifyOption, data: seq<RegCharts>,
                          fetch: DigestFetch, exec: VerifyExec): Result<seq<RegCharts>>
  {
    if Size(vo, ChartFlags(data)) == 0 then Ok([]) else ChartDataPass(vo, data, fetch, exec)
  }

  /** The inner loop over one registry's charts. */
  method ChartRegLoop(vo: VerifyOption, reg: Registry, es: seq<ChartEntry>,
                      fetch: DigestFetch, exec: VerifyExec) returns (r: Result<seq<ChartEntry>>)
    ensures r == ChartRegPass(vo, reg, es, fetch, exec)
  {
    var out: seq<ChartEntry> := [];
    for k := 0 to |es|
      invariant ChartRegPass(vo, reg, es[..k], fetch, exec) == Ok(out)
    {
      assert es[..k + 1][..k] == es[..k];
      var c := es[k];
      if c.flag || vo.verifyExisting {
        var d := fetch(reg, "charts/" + c.chart.name, c.chart.version);
        if d.Err? {
          ChartRegPassErrSticks(vo, reg, es, k + 1, fetch, exec);
          assert es[..|es|] == es;
          return Err(d.error);
        }
        var verdict := exec(reg.url + "/charts/" + c.chart.name + "@" + d.value);
        if verdict.Some? {
          if verdict.value == NoSignaturesFound {
            out := out + [ChartEntry(c.chart, true)];
            continue;
          }
          ChartRegPassErrSticks(vo, reg, es, k + 1, fetch, exec);
          assert es[..|es|] == es;
          return Err(verdict.value);
        }
        out := out + [ChartEntry(c.chart, false)];
      } else {
        out := out + [c];
      }
    }
    assert es[..|es|] == es;
    return Ok(out);
  }

  lemma {:induction false} ChartRegPassErrSticks(vo: VerifyOption, reg: Registry, es: seq<ChartEntry>, n: nat,
                                                 fetch: DigestFetch, exec: VerifyExec)
    requires n <= |es| && ChartRegPass(vo, reg, es[..n], fetch, exec).Err?
    ensures ChartRegPass(vo, reg, es, fetch, exec) == ChartRegPass(vo, reg, es[..n], fetch, exec)
    decreases |es| - n
  {
    if n < |es| {
      assert es[..|es| - 1][..n] == es[..n];
      ChartRegPassErrSticks(vo, reg, es[..|es| - 1], n, fetch, exec);
    } else {
      assert es[..n] == es;
    }
  }

  lemma {:induction false} ChartDataPassErrSticks(vo: VerifyOption, data: seq<RegCharts>, n: nat,
                                                  fetch: DigestFetch, exec: VerifyExec)
    requires n <= |data| && ChartDataPass(vo, data[..n], fetch, exec).Err?
    ensures ChartDataPass(vo, data, fetch, exec) == ChartDataPass(vo, data[..n], fetch, exec)
    decreases |data| - n
  {
    if n < |data| {
      assert data[..|data| - 1][..n] == data[..n];
      ChartDataPassErrSticks(vo, data[..|data| - 1], n, fetch, exec);
    } else {
      assert data[..n] == data;
    }
  }

  /** `VerifyChartOption.Run`. */
  method RunCharts(vo: VerifyOption, data: seq<RegCharts>, fetch: DigestFetch, exec: VerifyExec)
    returns (r: Result<seq<RegCharts>>)
    ensures r == VerifyChartRun(vo, data, fetch, exec)
  {
    var size := SizeLoop(vo, ChartFlags(data));
    if !(size > 0) {
      return Ok([]);
    }
    var m: seq<RegCharts> := [];
    for j := 0 to |data|
      invariant ChartDataPass(vo, data[..j], fetch, exec) == Ok(m)
    {
      assert data[..j + 1][..j] == data[..j];
      var rs := ChartRegLoop(vo, data[j].registry, data[j].entries, fetch, exec);
      if rs.Err? {
        ChartDataPassErrSticks(vo, data, j + 1, fetch, exec);
        assert data[..|data|] == data;
        return Err(rs.error);
      }
      m := m + [RegCharts(data[j].registry, rs.value)];
    }
    assert data[..|data|] == data;
    return Ok(m);
  }

  /** `out` lists the charts of `es` in order, and unselected entries keep
    * their flags. */
  predicate ChartsKept(vo: VerifyOption, out: seq<ChartEntry>, es: seq<ChartEntry>)
  {
    |out| == |es|
    && forall k :: 0 <= k < |es| ==>
         out[k].chart == es[k].chart && (!Selected(vo, es[k].flag) ==> out[k].flag == es[k].flag)
  }

  lemma {:induction false} ChartRegPassShape(vo: VerifyOption, reg: Registry, es: seq<ChartEntry>,
                                             fetch: DigestFetch, exec: VerifyExec)
    ensures var r := ChartRegPass(vo, reg, es, fetch, exec);
            r.Ok? ==> ChartsKept(vo, r.value, es)
    decreases |es|
  {
    if es != [] {
      var init := es[..|es| - 1];
      ChartRegPassShape(vo, reg, init, fetch, exec);
      var r := ChartRegPass(vo, reg, es, fetch, exec);
      if r.Ok? {
        var prev := ChartRegPass(vo, reg, init, fetch, exec).value;
        var e := es[|es| - 1];
        var v := ChartVerdict(vo, reg, e, fetch, exec);
        assert r.value == prev + [ChartEntry(e.chart, v.value)];
        assert !Selected(vo, e.flag) ==> v.value == e.flag;
        assert init + [e] == es;
      }
    }
  }

  /** A chart run without error that verified anything puts every input
    * registry in the output, in order, with its charts in order and the
    * unselected entries' flags kept; with nothing selected the result is an
    * empty map, whatever the registry and cosign would answer. */
  lemma {:induction false} ChartDataPassShape(vo: VerifyOption, data: seq<RegCharts>,
                                              fetch: DigestFetch, exec: VerifyExec)
    ensures var r := ChartDataPass(vo, data, fetch, exec);
            r.Ok? ==>
              |r.value| == |data|
              && forall j :: 0 <= j < |data| ==>
                   r.value[j].registry == data[j].registry && ChartsKept(vo, r.value[j].entries, data[j].entries)
    decreases |data|
  {
    if data != [] {
      var init := data[..|data| - 1];
      ChartDataPassShape(vo, init, fetch, exec);
      var r := ChartDataPass(vo, data, fetch, exec);
      if r.Ok? {
        var d := data[|data| - 1];
        ChartRegPassShape(vo, d.registry, d.entries, fetch, exec);
        var prev := ChartDataPass(vo, init, fetch, exec).value;
        var es := ChartRegPass(vo, d.registry, d.entries, fetch, exec).value;
        assert r.value == prev + [RegCharts(d.registry, es)];
        assert forall j :: 0 <= j < |init| ==> init[j] == data[j];
      }
    }
  }

  lemma VerifyChartRunNothingSelected(vo: VerifyOption, data: seq<RegCharts>, fetch: DigestFetch, exec: VerifyExec)
    requires forall j, k :: 0 <= j < |data| && 0 <= k < |data[j].entries| ==> !Selected(vo, data[j].entries[k].flag)
    ensures VerifyChartRun(vo, data, fetch, exec) == Ok([])
  {
    SizeZeroIff(vo, ChartFlags(data));
  }
}
