/** pkg/helm/chartCollection.go: setting Helm up for a collection of charts.
  * The charts are pointers (`[]*Chart`); expanding a version range writes
  * `Version` through them. Version resolution, adding a repository, updating
  * the repositories and pulling are given as their outcomes per chart. */
module ChartCollection {
  import opened Wrappers
  import opened Seqs
  import opened Strs
  import opened HelmOptions
  import opened Charts

  /** A `*Chart`. */
  class ChartPtr {
    var val: Chart

    constructor (c: Chart)
      ensures val == c
    {
      val := c;
    }
  }

  /** Outcomes of the chart operations `SetupHelm` calls: `resolveVersions`
    * and `resolveVersion` of a chart value, `addRepo` the error of adding its
    * repository, `update` the error of updating the repositories for the
    * (verbose, update) options, `pull` the error of pulling a chart. */
  datatype Ops = Ops(
    resolveVersions: Chart -> Result<seq<string>>,
    resolveVersion: Chart -> Result<string>,
    addRepo: Chart -> Option<string>,
    update: (bool, bool) -> Option<string>,
    pull: Chart -> Option<string>)

  function Values(ps: seq<ChartPtr>): (r: seq<Chart>)
    reads set p | p in ps
    ensures |r| == |ps| && forall k :: 0 <= k < |ps| ==> r[k] == ps[k].val
  {
    seq(|ps|, k reads set p | p in ps requires 0 <= k < |ps| => ps[k].val)
  }

  predicate Distinct(ps: seq<ChartPtr>)
  {
    forall i, j :: 0 <= i < j < |ps| ==> ps[i] != ps[j]
  }

  // ---------------------------------------------------------------------
  // addToHelmRepositoryConfig (chartCollection.go:22-34)
  // ---------------------------------------------------------------------

  /** The first error of adding a repository, OCI charts skipped. */
  function AddError(cs: seq<Chart>, ops: Ops): Option<string>
  {
    if cs == [] then None
    else if !IsOci(cs[0]) && ops.addRepo(cs[0]).Some? then ops.addRepo(cs[0])
    else AddError(cs[1..], ops)
  }

  method AddToHelmRepositoryConfig(cs: seq<Chart>, ops: Ops) returns (err: Option<string>)
    ensures err == AddError(cs, ops)
  {
    for i := 0 to |cs|
      invariant AddError(cs, ops) == AddError(cs[i..], ops)
    {
      assert cs[i..][1..] == cs[i + 1..];
      if HasPrefix(cs[i].repo.url, "oci://") {
        continue;
      }
      var e := ops.addRepo(cs[i]);
      if e.Some? {
        return e;
      }
    }
    return None;
  }

  /** OCI charts are never added: a collection of OCI charts adds nothing and
    * cannot fail here. */
  lemma {:induction false} OciChartsNotAdded(cs: seq<Chart>, ops: Ops)
    requires forall k :: 0 <= k < |cs| ==> IsOci(cs[k])
    ensures AddError(cs, ops) == None
  {
    if cs != [] {
      OciChartsNotAdded(cs[1..], ops);
    }
  }

  /** The error reported is the one of the first failing non-OCI chart. */
  lemma {:induction false} AddErrorIsFirst(cs: seq<Chart>, ops: Ops, j: nat)
    requires j < |cs| && !IsOci(cs[j]) && ops.addRepo(cs[j]).Some?
    requires forall k :: 0 <= k < j ==> IsOci(cs[k]) || ops.addRepo(cs[k]).None?
    ensures AddError(cs, ops) == ops.addRepo(cs[j])
  {
    if j > 0 {
      AddErrorIsFirst(cs[1..], ops, j - 1);
    }
  }

  // ---------------------------------------------------------------------
  // pull (chartCollection.go:13-20)
  // ---------------------------------------------------------------------

  /** The first error of pulling the charts in order. */
  function PullError(cs: seq<Chart>, ops: Ops): Option<string>
  {
    if cs == [] then None
    else if ops.pull(cs[0]).Some? then ops.pull(cs[0])
    else PullError(cs[1..], ops)
  }

  method Pull(cs: seq<Chart>, ops: Ops) returns (err: Option<string>)
    ensures err == PullError(cs, ops)
  {
    for i := 0 to |cs|
      invariant PullError(cs, ops) == PullError(cs[i..], ops)
    {
      assert cs[i..][1..] == cs[i + 1..];
      var e := ops.pull(cs[i]);
      if e.Some? {
        return e;
      }
    }
    return None;
  }

  /** Pulling stops at the first failure: it fails iff some chart fails, and
    * then with the first chart's error. */
  lemma {:induction false} PullErrorIff(cs: seq<Chart>, ops: Ops)
    ensures PullError(cs, ops).None? <==> forall k :: 0 <= k < |cs| ==> ops.pull(cs[k]).None?
    ensures PullError(cs, ops).Some? ==>
              exists j :: 0 <= j < |cs| && PullError(cs, ops) == ops.pull(cs[j])
                          && forall k :: 0 <= k < j ==> ops.pull(cs[k]).None?
  {
    if cs != [] && ops.pull(cs[0]).None? {
      PullErrorIff(cs[1..], ops);
      if PullError(cs[1..], ops).Some? {
        var j :| 0 <= j < |cs[1..]| && PullError(cs[1..], ops) == ops.pull(cs[1..][j])
                 && forall k :: 0 <= k < j ==> ops.pull(cs[1..][k]).None?;
        assert cs[j + 1] == cs[1..][j];
        forall k | 0 <= k < j + 1
          ensures ops.pull(cs[k]).None?
        {
          if k > 0 {
            assert cs[k] == cs[1..][k - 1];
          }
        }
      } else {
        forall k | 0 <= k < |cs|
          ensures ops.pull(cs[k]).None?
        {
          if k > 0 {
            assert cs[k] == cs[1..][k - 1];
          }
        }
      }
    }
  }

  // ---------------------------------------------------------------------
  // Collection expansion (chartCollection.go:70-91)
  // ---------------------------------------------------------------------

  /** The versions a chart contributes: every version its range resolves to;
    * when the range does not resolve, the one version `ResolveVersion` finds;
    * none when that fails too. */
  function Contributed(c: Chart, ops: Ops): seq<string>
  {
    if ops.resolveVersions(c).Ok? then ops.resolveVersions(c).value
    else if ops.resolveVersion(c).Ok? then [ops.resolveVersion(c).value]
    else []
  }

  /** The chart once per version. */
  function WithVersions(c: Chart, vs: seq<string>): (r: seq<Chart>)
    ensures |r| == |vs|
    ensures forall k :: 0 <= k < |vs| ==> r[k] == c.(version := vs[k])
  {
    seq(|vs|, k requires 0 <= k < |vs| => c.(version := vs[k]))
  }

  /** The expansion the collection is meant to get: every chart, in input
    * order, once per contributed version, carrying that version. */
  function Expanded(cs: seq<Chart>, ops: Ops): seq<Chart>
    decreases |cs|
  {
    if cs == [] then []
    else Expanded(cs[..|cs| - 1], ops) + WithVersions(cs[|cs| - 1], Contributed(cs[|cs| - 1], ops))
  }

  /** For each entry of the expansion, the position of the input chart it
    * came from. */
  function Owners(cs: seq<Chart>, ops: Ops): (r: seq<nat>)
    ensures forall k :: 0 <= k < |r| ==> r[k] < |cs|
    decreases |cs|
  {
    if cs == [] then []
    else Owners(cs[..|cs| - 1], ops) + seq(|Contributed(cs[|cs| - 1], ops)|, _ => |cs| - 1)
  }

  /** The value a chart is left with once all its versions were written
    * through its pointer: the last contributed version. */
  function Final(c: Chart, ops: Ops): Chart
  {
    var vs := Contributed(c, ops);
    if vs == [] then c else c.(version := vs[|vs| - 1])
  }

  /** `SetupHelm`'s expansion as written: `c := c` copies the pointer, so the
    * entries of one chart are that one pointer, and each `c.Version = v`
    * overwrites the version the previous entries showed. */
  method ExpandAsWritten(charts: seq<ChartPtr>, ops: Ops) returns (res: seq<ChartPtr>)
    requires Distinct(charts)
    modifies set p | p in charts
    ensures |res| == |Owners(old(Values(charts)), ops)|
    ensures forall k :: 0 <= k < |res| ==> res[k] == charts[Owners(old(Values(charts)), ops)[k]]
    ensures forall i :: 0 <= i < |charts| ==> charts[i].val == Final(old(charts[i].val), ops)
  {
    ghost var vals := Values(charts);
    res := [];
    for i := 0 to |charts|
      invariant |res| == |Owners(vals[..i], ops)|
      invariant forall k :: 0 <= k < |res| ==> res[k] == charts[Owners(vals[..i], ops)[k]]
      invariant forall j :: 0 <= j < |charts| ==> charts[j].val == if j < i then Final(vals[j], ops) else vals[j]
    {
      ghost var before := Owners(vals[..i], ops);
      var c := charts[i];
      var added := ExpandOne(c, ops);
      OwnersLast(vals, i, ops);
      PointsAppend(res, charts, before, |added|, i);
      res := res + added;
    }
    assert vals[..|charts|] == vals;
  }

  /** One chart of the expansion as written: the chart's own pointer once per
    * contributed version, each version written into it in turn. */
  method ExpandOne(c: ChartPtr, ops: Ops) returns (added: seq<ChartPtr>)
    modifies c
    ensures added == seq(|Contributed(old(c.val), ops)|, _ => c)
    ensures c.val == Final(old(c.val), ops)
  {
    added := [];
    var vs := ops.resolveVersions(c.val);
    if vs.Err? {
      var v := ops.resolveVersion(c.val);
      if v.Ok? {
        c.val := c.val.(version := v.value);
        added := [c];
      }
      return;
    }
    var versions := vs.value;
    for k := 0 to |versions|
      invariant added == seq(k, _ => c)
      invariant c.val == if k == 0 then old(c.val) else old(c.val).(version := versions[k - 1])
    {
      c.val := c.val.(version := versions[k]);
      added := added + [c];
    }
  }

  /** `res` lists the elements of `xs` at positions `own`; appending `n`
    * copies of `xs[i]` appends `n` copies of `i`. */
  lemma PointsAppend<T>(res: seq<T>, xs: seq<T>, own: seq<nat>, n: nat, i: nat)
    requires i < |xs| && |res| == |own|
    requires forall k :: 0 <= k < |own| ==> own[k] < |xs| && res[k] == xs[own[k]]
    ensures var own' := own + seq(n, _ => i);
            |res + seq(n, _ => xs[i])| == |own'|
            && forall k :: 0 <= k < |own'| ==> own'[k] < |xs| && (res + seq(n, _ => xs[i]))[k] == xs[own'[k]]
  {
  }

  lemma ExpandedLast(vals: seq<Chart>, i: nat, ops: Ops)
    requires i < |vals|
    ensures Expanded(vals[..i + 1], ops) == Expanded(vals[..i], ops) + WithVersions(vals[i], Contributed(vals[i], ops))
  {
    assert vals[..i + 1][..i] == vals[..i];
  }

  /** Pointers holding `want` and `want'` hold `want + want'` once
    * concatenated. */
  lemma HeldAppend(res: seq<ChartPtr>, copies: seq<ChartPtr>, want: seq<Chart>, want': seq<Chart>)
    requires |res| == |want| && |copies| == |want'|
    requires forall k :: 0 <= k < |res| ==> res[k].val == want[k]
    requires forall k :: 0 <= k < |copies| ==> copies[k].val == want'[k]
    ensures |res + copies| == |want + want'|
    ensures forall k :: 0 <= k < |res + copies| ==> (res + copies)[k].val == (want + want')[k]
  {
  }

  lemma OwnersLast(vals: seq<Chart>, i: nat, ops: Ops)
    requires i < |vals|
    ensures Owners(vals[..i + 1], ops) == Owners(vals[..i], ops) + seq(|Contributed(vals[i], ops)|, _ => i)
  {
    assert vals[..i + 1][..i] == vals[..i];
  }

  /** The expansion as intended: every entry is a chart of its own. The input
    * pointers are left as they were. */
  method Expand(charts: seq<ChartPtr>, ops: Ops) returns (res: seq<ChartPtr>)
    ensures |res| == |Expanded(Values(charts), ops)|
    ensures forall k :: 0 <= k < |res| ==> res[k].val == Expanded(Values(charts), ops)[k] && fresh(res[k])
  {
    ghost var vals := Values(charts);
    res := [];
    for i := 0 to |charts|
      invariant |res| == |Expanded(vals[..i], ops)|
      invariant forall k :: 0 <= k < |res| ==> res[k].val == Expanded(vals[..i], ops)[k] && fresh(res[k])
    {
      ghost var before := Expanded(vals[..i], ops);
      var c := charts[i].val;
      var versions := Versions(c, ops);
      var copies := Copies(c, versions);
      ExpandedLast(vals, i, ops);
      HeldAppend(res, copies, before, WithVersions(c, versions));
      res := res + copies;
    }
    assert vals[..|charts|] == vals;
  }

  /** The versions a chart contributes: those of its range, else its single
    * resolved version, else none (the chart is skipped). */
  method Versions(c: Chart, ops: Ops) returns (versions: seq<string>)
    ensures versions == Contributed(c, ops)
  {
    var vs := ops.resolveVersions(c);
    if vs.Ok? {
      return vs.value;
    }
    var v := ops.resolveVersion(c);
    if v.Err? {
      return [];
    }
    return [v.value];
  }

  /** A new chart per version. */
  method Copies(c: Chart, versions: seq<string>) returns (out: seq<ChartPtr>)
    ensures |out| == |versions|
    ensures forall m :: 0 <= m < |out| ==> out[m].val == c.(version := versions[m]) && fresh(out[m])
  {
    out := [];
    for k := 0 to |versions|
      invariant |out| == k
      invariant forall m :: 0 <= m < k ==> out[m].val == c.(version := versions[m]) && fresh(out[m])
    {
      var copy := new ChartPtr(c.(version := versions[k]));
      out := out + [copy];
    }
  }

  /** After the expansion as written, every entry shows the last version its
    * chart contributed. */
  function AsWrittenVersions(cs: seq<Chart>, ops: Ops): seq<string>
  {
    var own := Owners(cs, ops);
    seq(|own|, k requires 0 <= k < |own| => Final(cs[own[k]], ops).version)
  }

  /** Versions of a list of charts. */
  function VersionsOf(cs: seq<Chart>): seq<string>
  {
    seq(|cs|, k requires 0 <= k < |cs| => cs[k].version)
  }

  /** What the as-written expansion leaves in its entries. */
  lemma AsWrittenLeavesLastVersion(charts: seq<ChartPtr>, ops: Ops, res: seq<ChartPtr>, vals: seq<Chart>)
    requires |charts| == |vals|
    requires |res| == |Owners(vals, ops)|
    requires forall k :: 0 <= k < |res| ==> res[k] == charts[Owners(vals, ops)[k]]
    requires forall i :: 0 <= i < |charts| ==> charts[i].val == Final(vals[i], ops)
    ensures VersionsOf(Values(res)) == AsWrittenVersions(vals, ops)
  {
  }

  /** A chart whose range resolves to 1.1.0 and 1.0.0: the intended expansion
    * lists both versions, the expansion as written shows 1.0.0 twice. */
  lemma AliasingLosesVersions(c: Chart)
    ensures var ops := Ops(_ => Ok(["1.1.0", "1.0.0"]), _ => Err("no"), _ => None, (_, _) => None, _ => None);
            VersionsOf(Expanded([c], ops)) == ["1.1.0", "1.0.0"]
            && AsWrittenVersions([c], ops) == ["1.0.0", "1.0.0"]
  {
    var ops := Ops(_ => Ok(["1.1.0", "1.0.0"]), _ => Err("no"), _ => None, (_, _) => None, _ => None);
    var none: seq<Chart> := [];
    assert [c][..0] == none;
    assert Contributed(c, ops) == ["1.1.0", "1.0.0"];
    assert Expanded([c], ops) == [] + WithVersions(c, ["1.1.0", "1.0.0"]);
    assert Owners([c], ops) == [0, 0];
  }

  /** Expansion keeps input order: it distributes over concatenation. */
  lemma {:induction false} ExpandedAppend(a: seq<Chart>, b: seq<Chart>, ops: Ops)
    ensures Expanded(a + b, ops) == Expanded(a, ops) + Expanded(b, ops)
    decreases |b|
  {
    if b == [] {
      assert a + b == a;
    } else {
      var init := b[..|b| - 1];
      var last := b[|b| - 1];
      DropLastOfAppend(a, b);
      ExpandedAppend(a, init, ops);
      AppendAssoc(Expanded(a, ops), Expanded(init, ops), WithVersions(last, Contributed(last, ops)));
    }
  }

  /** Every entry of the expansion is an input chart carrying one of the
    * versions that chart contributed, and the expansion has one entry per
    * contributed version. */
  lemma {:induction false} ExpandedEntries(cs: seq<Chart>, ops: Ops)
    ensures |Expanded(cs, ops)| == |Owners(cs, ops)|
    ensures forall k :: 0 <= k < |Expanded(cs, ops)| ==>
              var i := Owners(cs, ops)[k];
              Expanded(cs, ops)[k].version in Contributed(cs[i], ops)
              && Expanded(cs, ops)[k] == cs[i].(version := Expanded(cs, ops)[k].version)
    decreases |cs|
  {
    if cs != [] {
      var init := cs[..|cs| - 1];
      ExpandedEntries(init, ops);
      forall k | 0 <= k < |Owners(init, ops)|
        ensures cs[Owners(init, ops)[k]] == init[Owners(init, ops)[k]]
      {
      }
    }
  }

  /** A chart whose range does not resolve but whose single version does
    * contributes exactly one entry with that version; one for which both fail
    * contributes nothing. */
  lemma FallbackContributesOne(before: seq<Chart>, c: Chart, after: seq<Chart>, ops: Ops)
    requires ops.resolveVersions(c).Err? && ops.resolveVersion(c).Ok?
    ensures Expanded(before + [c] + after, ops)
            == Expanded(before, ops) + [c.(version := ops.resolveVersion(c).value)] + Expanded(after, ops)
  {
    SingleExpanded(c, ops);
    ExpandedAppend(before + [c], after, ops);
    ExpandedAppend(before, [c], ops);
    assert WithVersions(c, [ops.resolveVersion(c).value]) == [c.(version := ops.resolveVersion(c).value)];
  }

  lemma UnresolvedDropped(before: seq<Chart>, c: Chart, after: seq<Chart>, ops: Ops)
    requires ops.resolveVersions(c).Err? && ops.resolveVersion(c).Err?
    ensures Expanded(before + [c] + after, ops) == Expanded(before, ops) + Expanded(after, ops)
  {
    SingleExpanded(c, ops);
    ExpandedAppend(before + [c], after, ops);
    ExpandedAppend(before, [c], ops);
  }

  lemma SingleExpanded(c: Chart, ops: Ops)
    ensures Expanded([c], ops) == WithVersions(c, Contributed(c, ops))
  {
    var none: seq<Chart> := [];
    assert [c][..0] == none;
  }

  // ---------------------------------------------------------------------
  // SetupHelm (chartCollection.go:37-103)
  // ---------------------------------------------------------------------

  /** The options `SetupHelm` starts from: not verbose, no update. */
  const SetupDefaults := Settings(false, false, "")

  /** `SetupHelm` as written: add the repositories (first error wins), update
    * them, expand the collection through the chart pointers, then pull. */
  method SetupHelm(charts: seq<ChartPtr>, setters: seq<Setter>, ops: Ops) returns (res: Result<seq<ChartPtr>>)
    requires Distinct(charts)
    modifies set p | p in charts
    ensures var args := SetAll(SetupDefaults, setters);
            var vals := old(Values(charts));
            (AddError(vals, ops).Some? ==> res == Err(AddError(vals, ops).value) && Values(charts) == vals)
            && (AddError(vals, ops).None? && ops.update(args.verbose, args.update).Some? ==>
                  res == Err(ops.update(args.verbose, args.update).value) && Values(charts) == vals)
            && (AddError(vals, ops).None? && ops.update(args.verbose, args.update).None? ==>
                  (forall i :: 0 <= i < |charts| ==> charts[i].val == Final(vals[i], ops))
                  && (res.Ok? <==> PullError(AsWrittenCharts(vals, ops), ops).None?)
                     && (res.Err? ==> res.error == PullError(AsWrittenCharts(vals, ops), ops).value)
                     && (res.Ok? ==> |res.value| == |Owners(vals, ops)|
                                     && forall k :: 0 <= k < |res.value| ==> res.value[k] == charts[Owners(vals, ops)[k]]))
  {
    var args := SetAll(SetupDefaults, setters);
    var vals := Values(charts);
    var err := AddToHelmRepositoryConfig(vals, ops);
    if err.Some? {
      return Err(err.value);
    }
    var failed := ops.update(args.verbose, args.update);
    if failed.Some? {
      return Err(failed.value);
    }
    var expanded := ExpandAsWritten(charts, ops);
    var now := Values(expanded);
    assert now == AsWrittenCharts(vals, ops);
    err := Pull(now, ops);
    if err.Some? {
      return Err(err.value);
    }
    return Ok(expanded);
  }

  /** The chart values the as-written collection holds after expansion. */
  function AsWrittenCharts(cs: seq<Chart>, ops: Ops): seq<Chart>
  {
    var own := Owners(cs, ops);
    seq(|own|, k requires 0 <= k < |own| => Final(cs[own[k]], ops))
  }
}
