/** pkg/util/counter: a counter per key. The mutex only serialises access;
  * the model is the sequential behaviour. */
module Counter {

  class SafeCounter {
    var v: map<string, int>

    /** `NewSafeCounter`: an empty map, so every key counts 0. */
    constructor ()
      ensures v == map[]
      ensures forall k :: Value(k) == 0
    {
      v := map[];
    }

    /** Go's read of a missing key gives 0. */
    function Value(key: string): int
      reads this
    {
      if key in v then v[key] else 0
    }

    /** `Inc`: the key's count goes up by one, every other count stays. */
    method Inc(key: string)
      modifies this
      ensures v == old(v)[key := old(Value(key)) + 1]
      ensures Value(key) == old(Value(key)) + 1
      ensures forall k :: k != key ==> Value(k) == old(Value(k))
    {
      v := v[key := Value(key) + 1];
    }

    /** The test's loop: `n` increments of one key. */
    method IncTimes(key: string, n: nat)
      modifies this
      ensures Value(key) == old(Value(key)) + n
      ensures forall k :: k != key ==> Value(k) == old(Value(k))
    {
      var i := 0;
      while i < n
        invariant 0 <= i <= n
        invariant Value(key) == old(Value(key)) + i
        invariant forall k :: k != key ==> Value(k) == old(Value(k))
      {
        Inc(key);
        i := i + 1;
      }
    }
  }

  /** The count a sequence of increments leaves for a key: how many of them
    * name it. */
  function Count(keys: seq<string>, key: string): (n: nat)
    ensures n <= |keys|
  {
    if keys == [] then 0 else (if keys[0] == key then 1 else 0) + Count(keys[1..], key)
  }

  /** Applying the increments in order, starting from a new counter. */
  method IncAll(keys: seq<string>) returns (c: SafeCounter)
    ensures fresh(c)
    ensures forall k :: c.Value(k) == Count(keys, k)
  {
    c := new SafeCounter();
    var i := 0;
    while i < |keys|
      invariant 0 <= i <= |keys|
      invariant forall k :: c.Value(k) == Count(keys[..i], k)
    {
      c.Inc(keys[i]);
      forall k
        ensures Count(keys[..i + 1], k) == Count(keys[..i], k) + (if keys[i] == k then 1 else 0)
      {
        CountSnoc(keys[..i], keys[i], k);
        assert keys[..i + 1] == keys[..i] + [keys[i]];
      }
      i := i + 1;
    }
    assert keys[..i] == keys;
  }

  lemma {:induction false} CountSnoc(keys: seq<string>, last: string, key: string)
    ensures Count(keys + [last], key) == Count(keys, key) + (if last == key then 1 else 0)
  {
    if keys != [] {
      assert (keys + [last])[1..] == keys[1..] + [last];
      CountSnoc(keys[1..], last, key);
    }
  }

  /** Increments of other keys never change a key's count. */
  lemma {:induction false} CountIgnoresOtherKeys(keys: seq<string>, key: string)
    requires key !in keys
    ensures Count(keys, key) == 0
  {
    if keys != [] {
      CountIgnoresOtherKeys(keys[1..], key);
    }
  }
}
