/** pkg/helm/option.go: the options record of the Helm operations and the
  * functional setters that assign one field each. */
module HelmOptions {

  /** An `Option` closure, by the field it assigns and the value it holds. */
  datatype Setter = Verbose(b: bool) | Update(b: bool) | K8SVersion(v: string)

  /** The options as a value, for stating what a sequence of setters leaves. */
  datatype Settings = Settings(verbose: bool, update: bool, k8sVersion: string)

  /** One setter applied to a value: exactly its own field changes. */
  function Set(s: Settings, setter: Setter): (r: Settings)
    ensures setter.Verbose? ==> r == s.(verbose := setter.b)
    ensures setter.Update? ==> r == s.(update := setter.b)
    ensures setter.K8SVersion? ==> r == s.(k8sVersion := setter.v)
  {
    match setter
    case Verbose(b) => s.(verbose := b)
    case Update(b) => s.(update := b)
    case K8SVersion(v) => s.(k8sVersion := v)
  }

  /** The setters applied from first to last. */
  function SetAll(s: Settings, setters: seq<Setter>): Settings
    decreases setters
  {
    if setters == [] then s else SetAll(Set(s, setters[0]), setters[1..])
  }

  class Options {
    var verbose: bool
    var update: bool
    var k8sVersion: string

    /** The defaults `ChartOption.Run` and `ChartImportOption.Run` start from. */
    constructor ()
      ensures verbose == false && update == false && k8sVersion == "1.27.16"
    {
      verbose := false;
      update := false;
      k8sVersion := "1.27.16";
    }

    function Current(): Settings
      reads this
    {
      Settings(verbose, update, k8sVersion)
    }

    /** Calling one setter on `*Options`. */
    method Apply(setter: Setter)
      modifies this
      ensures Current() == Set(old(Current()), setter)
    {
      match setter {
        case Verbose(b) => verbose := b;
        case Update(b) => update := b;
        case K8SVersion(v) => k8sVersion := v;
      }
    }

    /** `for _, setter := range setters { setter(args) }` */
    method ApplyAll(setters: seq<Setter>)
      modifies this
      ensures Current() == SetAll(old(Current()), setters)
    {
      var i := 0;
      while i < |setters|
        invariant 0 <= i <= |setters|
        invariant SetAll(old(Current()), setters) == SetAll(Current(), setters[i..])
      {
        assert setters[i..][1..] == setters[i + 1..];
        Apply(setters[i]);
        i := i + 1;
      }
    }
  }

  /** Applying two runs of setters is applying their concatenation. */
  lemma {:induction false} SetAllAppend(s: Settings, a: seq<Setter>, b: seq<Setter>)
    ensures SetAll(s, a + b) == SetAll(SetAll(s, a), b)
    decreases a
  {
    if a == [] {
      assert a + b == b;
    } else {
      assert (a + b)[1..] == a[1..] + b;
      SetAllAppend(Set(s, a[0]), a[1..], b);
    }
  }

  /** Setters of other fields leave the verbose flag alone. */
  lemma {:induction false} OtherSettersKeepVerbose(s: Settings, setters: seq<Setter>)
    requires forall k :: 0 <= k < |setters| ==> !setters[k].Verbose?
    ensures SetAll(s, setters).verbose == s.verbose
    decreases setters
  {
    if setters != [] {
      OtherSettersKeepVerbose(Set(s, setters[0]), setters[1..]);
    }
  }

  /** Setters of other fields leave the K8S version alone. */
  lemma {:induction false} OtherSettersKeepK8SVersion(s: Settings, setters: seq<Setter>)
    requires forall k :: 0 <= k < |setters| ==> !setters[k].K8SVersion?
    ensures SetAll(s, setters).k8sVersion == s.k8sVersion
    decreases setters
  {
    if setters != [] {
      OtherSettersKeepK8SVersion(Set(s, setters[0]), setters[1..]);
    }
  }

  /** The last verbose setter wins. */
  lemma LastVerboseWins(s: Settings, before: seq<Setter>, b: bool, after: seq<Setter>)
    requires forall k :: 0 <= k < |after| ==> !after[k].Verbose?
    ensures SetAll(s, before + [Verbose(b)] + after).verbose == b
  {
    SetAllAppend(s, before + [Verbose(b)], after);
    SetAllAppend(s, before, [Verbose(b)]);
    OtherSettersKeepVerbose(SetAll(s, before + [Verbose(b)]), after);
  }

  /** The last K8S version setter wins. */
  lemma LastK8SVersionWins(s: Settings, before: seq<Setter>, v: string, after: seq<Setter>)
    requires forall k :: 0 <= k < |after| ==> !after[k].K8SVersion?
    ensures SetAll(s, before + [K8SVersion(v)] + after).k8sVersion == v
  {
    SetAllAppend(s, before + [K8SVersion(v)], after);
    SetAllAppend(s, before, [K8SVersion(v)]);
    OtherSettersKeepK8SVersion(SetAll(s, before + [K8SVersion(v)]), after);
  }
}
