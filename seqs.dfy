/** Generic facts about sequences that the other modules use to glue
  * their proofs together. */
module Seqs {
  lemma AppendAssoc<T>(x: seq<T>, y: seq<T>, z: seq<T>)
    ensures x + y + z == x + (y + z)
  {
  }

  lemma DropLastOfAppend<T>(a: seq<T>, b: seq<T>)
    requires b != []
    ensures (a + b)[..|a + b| - 1] == a + b[..|b| - 1] && (a + b)[|a + b| - 1] == b[|b| - 1]
  {
  }

  lemma AppendSliceNext<T>(done: seq<T>, xs: seq<T>, k: nat)
    requires k < |xs|
    ensures done + xs[..k + 1] == done + xs[..k] + [xs[k]]
  {
    assert xs[..k + 1] == xs[..k] + [xs[k]];
  }

  lemma AppendRest<T>(done: seq<T>, xs: seq<T>, k: nat)
    requires k < |xs|
    ensures (done + xs[..k]) + [xs[k]] + xs[k + 1..] == done + xs
  {
    assert xs == xs[..k] + [xs[k]] + xs[k + 1..];
  }

  lemma AppendAll<T>(done: seq<T>, xs: seq<T>)
    ensures done + xs[..|xs|] == done + xs
  {
    assert xs[..|xs|] == xs;
  }

  /** A sequence is its prefix, a middle slice and the rest, in order. */
  lemma Recompose<T>(s: seq<T>, i: nat, n: nat)
    requires i + n <= |s|
    ensures s == s[..i] + s[i..i + n] + s[i + n..]
  {
    assert s[..i] + s[i..i + n] == s[..i + n];
  }

  lemma Regroup<T>(whole: seq<T>, left: seq<T>, head: seq<T>, x: seq<T>, y: seq<T>, tail: seq<T>)
    requires whole == head + tail && tail == x + y && left == head + x
    ensures whole == left + y
  {
  }

  /** Cutting `a + x + y` inside `a`. */
  lemma CutAppended<T>(a: seq<T>, x: seq<T>, y: seq<T>, m: nat, s: seq<T>, after: seq<T>)
    requires m <= |a| && s == a + x + y && after == a[m..] + x + y
    ensures s == a + (x + y) && s[m..] == after
    ensures forall n :: 0 <= n <= m ==> s[..n] == a[..n]
  {
    assert s[m..] == after;
  }

  lemma TakeOneMore<T>(s: seq<T>, n: nat)
    requires n < |s|
    ensures s[..n + 1][..n] == s[..n] && s[..n + 1][n] == s[n] && |s[..n + 1]| == n + 1
  {
  }

  lemma TakeDrop<T>(s: seq<T>, n: nat)
    requires n <= |s|
    ensures s == s[..n] + s[n..]
  {
  }

  lemma NotInAppend<T>(a: seq<T>, b: seq<T>, x: T)
    requires x !in a && x !in b
    ensures x !in a + b
  {
  }
}
