/** pkg/registry: target registries, the existence check that decides what
  * still needs importing, and the naming rules of a push. The network calls
  * (an oras fetch, an oras copy) are parameters. */
module Registries {
  import opened Wrappers
  import opened Strs
  import opened Reference

  datatype Registry = Registry(name: string, url: string, insecure: bool, plainHTTP: bool, prefixSource: bool)

  /** `GetName` */
  function GetName(r: Registry): (n: string)
    ensures n == r.name
  {
    r.name
  }

  /** `isLocalReference`: the address names the local host. */
  predicate IsLocalReference(url: string)
  {
    Contains(url, "localhost") || Contains(url, "0.0.0.0")
  }

  /** A local address stays local whatever path or port is put around it. */
  lemma LocalReferenceWrapped(url: string, before: string, after: string)
    requires IsLocalReference(url)
    ensures IsLocalReference(before + url + after)
  {
    if Contains(url, "localhost") {
      ContainsWrapped(url, "localhost", before, after);
    } else {
      ContainsWrapped(url, "0.0.0.0", before, after);
    }
  }

  /** The network fetch behind `Exist`: for a reference (without "oci://"), a
    * tag and the plain-HTTP setting, the error it fails with, if any. */
  type Fetch = (string, string, bool) -> Option<string>

  /** Package-level `Exist`: the artifact exists iff the fetch succeeds; the
    * fetch error is returned alongside. */
  function Exist(reference: string, tag: string, plainHTTP: bool, fetch: Fetch): (r: (bool, Option<string>))
    ensures r.0 <==> r.1.None?
    ensures r.1 == fetch(CutPrefix(reference, "oci://").0, tag, plainHTTP)
  {
    var err := fetch(CutPrefix(reference, "oci://").0, tag, plainHTTP);
    (err.None?, err)
  }

  /** `Registry.Exist`: the check runs against URL + "/" + name. */
  function RegistryExist(r: Registry, name: string, tag: string, fetch: Fetch): (res: (bool, Option<string>))
    ensures res == Exist(r.url + "/" + name, tag, r.plainHTTP, fetch)
  {
    JoinPair(r.url, name, "/");
    Exist(Join([r.url, name], "/"), tag, r.plainHTTP, fetch)
  }

  /** The answer `Exists` records for one registry: the existence check, with
    * an error read as "absent". */
  function ExistsIn(r: Registry, ref: string, tag: string, fetch: Fetch): bool
  {
    RegistryExist(r, CutPrefix(ref, "oci://").0, tag, fetch).0
  }

  /** `Exists`: one entry per registry URL telling whether the reference
    * exists there; when two registries share a URL the later one's answer
    * stands. */
  method Exists(ref: string, tag: string, registries: seq<Registry>, fetch: Fetch) returns (m: map<string, bool>)
    ensures m.Keys == set r | r in registries :: r.url
    ensures forall k :: 0 <= k < |registries| && LastWithUrl(registries, k) ==>
              m[registries[k].url] == ExistsIn(registries[k], ref, tag, fetch)
  {
    var stripped := CutPrefix(ref, "oci://").0;
    m := map[];
    var i := 0;
    while i < |registries|
      invariant 0 <= i <= |registries|
      invariant AnsweredUpTo(registries, i, m, ref, tag, fetch)
    {
      var r := registries[i];
      var found := RegistryExist(r, stripped, tag, fetch).0;
      AnsweredStep(registries, i, m, ref, tag, fetch);
      m := m[r.url := found];
      i := i + 1;
    }
    AnsweredAll(registries, m, ref, tag, fetch);
  }

  /** `m` holds the answers of the first `n` registries, the last one per URL. */
  ghost predicate AnsweredUpTo(rs: seq<Registry>, n: nat, m: map<string, bool>, ref: string, tag: string, fetch: Fetch)
    requires n <= |rs|
  {
    && m.Keys == (set r | r in rs[..n] :: r.url)
    && forall k :: 0 <= k < n && LastWithUrlBelow(rs, k, n) ==> m[rs[k].url] == ExistsIn(rs[k], ref, tag, fetch)
  }

  lemma AnsweredStep(rs: seq<Registry>, i: nat, m: map<string, bool>, ref: string, tag: string, fetch: Fetch)
    requires i < |rs| && AnsweredUpTo(rs, i, m, ref, tag, fetch)
    ensures AnsweredUpTo(rs, i + 1, m[rs[i].url := ExistsIn(rs[i], ref, tag, fetch)], ref, tag, fetch)
  {
    var m' := m[rs[i].url := ExistsIn(rs[i], ref, tag, fetch)];
    UrlsAppend(rs, i);
    forall k | 0 <= k < i + 1 && LastWithUrlBelow(rs, k, i + 1)
      ensures m'[rs[k].url] == ExistsIn(rs[k], ref, tag, fetch)
    {
      if k < i {
        assert rs[i].url != rs[k].url;
        assert LastWithUrlBelow(rs, k, i);
      }
    }
  }

  lemma AnsweredAll(rs: seq<Registry>, m: map<string, bool>, ref: string, tag: string, fetch: Fetch)
    requires AnsweredUpTo(rs, |rs|, m, ref, tag, fetch)
    ensures m.Keys == set r | r in rs :: r.url
    ensures forall k :: 0 <= k < |rs| && LastWithUrl(rs, k) ==> m[rs[k].url] == ExistsIn(rs[k], ref, tag, fetch)
  {
    assert rs[..|rs|] == rs;
    forall k | 0 <= k < |rs| && LastWithUrl(rs, k)
      ensures LastWithUrlBelow(rs, k, |rs|)
    {
    }
  }

  lemma UrlsAppend(rs: seq<Registry>, i: nat)
    requires i < |rs|
    ensures (set r | r in rs[..i + 1] :: r.url) == (set r | r in rs[..i] :: r.url) + {rs[i].url}
  {
    assert rs[..i + 1] == rs[..i] + [rs[i]];
  }

  /** No later registry in `rs` has the URL of `rs[k]`. */
  predicate LastWithUrl(rs: seq<Registry>, k: int)
    requires 0 <= k < |rs|
  {
    forall j :: k < j < |rs| ==> rs[j].url != rs[k].url
  }

  predicate LastWithUrlBelow(rs: seq<Registry>, k: int, n: int)
    requires 0 <= k < n <= |rs|
  {
    forall j :: k < j < n ==> rs[j].url != rs[k].url
  }

  /** The repository name a push writes to: with PrefixSource the name gains
    * the host label of the source registry. */
  function PushName(r: Registry, sourceURL: string, name: string): (n: string)
    ensures !r.prefixSource ==> n == name
    ensures r.prefixSource ==> n == HostLabel(sourceURL) + "/" + name
  {
    if r.prefixSource then
      var noPorts := Split(sourceURL, ":")[0];
      var noTld := Split(noPorts, ".")[0];
      noTld + "/" + name
    else name
  }

  /** The two repositories `Push` copies between, each with its plain-HTTP
    * setting; the copy itself is left to oras. */
  datatype PushPlan = PushPlan(source: string, sourcePlainHTTP: bool, target: string, targetPlainHTTP: bool, tag: string)

  /** `Push`: the source repository is sourceURL/name, plain HTTP when it is
    * local; the target is the registry URL without "oci://", then the push
    * name, plain HTTP as the registry says. */
  function Push(r: Registry, sourceURL: string, name: string, tag: string): (p: PushPlan)
    ensures p.source == sourceURL + "/" + name
    ensures p.sourcePlainHTTP <==> IsLocalReference(sourceURL)
    ensures p.targetPlainHTTP == r.plainHTTP && p.tag == tag
    ensures HasPrefix(r.url, "oci://") ==> "oci://" + p.target == r.url + "/" + PushName(r, sourceURL, name)
    ensures !HasPrefix(r.url, "oci://") ==> p.target == r.url + "/" + PushName(r, sourceURL, name)
  {
    var url := CutPrefix(r.url, "oci://").0;
    JoinPair(sourceURL, name, "/");
    JoinPair(url, PushName(r, sourceURL, name), "/");
    PushPlan(Join([sourceURL, name], "/"), IsLocalReference(sourceURL),
             Join([url, PushName(r, sourceURL, name)], "/"), r.plainHTTP, tag)
  }
}
