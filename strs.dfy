/** The parts of Go's `strings` package that helmper relies on, over `seq<char>`:
  * Contains, Index, HasPrefix/HasSuffix, CutPrefix/CutSuffix, TrimPrefix,
  * Replace with n = 1, ReplaceAll of one character, Split, Join and an ASCII
  * ToLower. */
module Strs {
  import opened Seqs

  /** `sub` occurs in `s` starting at position `i`. */
  predicate OccursAt(s: string, sub: string, i: nat)
  {
    i + |sub| <= |s| && s[i..i + |sub|] == sub
  }

  /** strings.Contains */
  predicate Contains(s: string, sub: string)
  {
    exists i: nat | i <= |s| :: OccursAt(s, sub, i)
  }

  /** strings.HasPrefix */
  predicate HasPrefix(s: string, prefix: string)
  {
    prefix <= s
  }

  /** strings.HasSuffix */
  predicate HasSuffix(s: string, suffix: string)
  {
    |suffix| <= |s| && s[|s| - |suffix|..] == suffix
  }

  lemma OccursShift(s: string, sub: string)
    requires s != []
    ensures forall j: nat :: 0 < j ==> (OccursAt(s, sub, j) <==> OccursAt(s[1..], sub, j - 1))
  {
    forall j: nat | 0 < j
      ensures OccursAt(s, sub, j) <==> OccursAt(s[1..], sub, j - 1)
    {
      if j + |sub| <= |s| {
        assert s[1..][j - 1..j - 1 + |sub|] == s[j..j + |sub|];
      }
    }
  }

  /** strings.Index: the first position at which `sub` occurs in `s`, or -1. */
  function IndexOf(s: string, sub: string): (r: int)
    ensures r == -1 || 0 <= r
    ensures 0 <= r ==> OccursAt(s, sub, r)
    decreases |s|
  {
    if sub <= s then
      assert OccursAt(s, sub, 0);
      0
    else if s == [] then
      -1
    else
      OccursShift(s, sub);
      var k := IndexOf(s[1..], sub);
      if k < 0 then -1 else k + 1
  }

  /** No occurrence comes before the one `IndexOf` finds, and there is none
    * at all when it finds none. */
  lemma {:induction false} IndexOfFirst(s: string, sub: string)
    ensures forall j: nat :: (IndexOf(s, sub) == -1 || j < IndexOf(s, sub)) ==> !OccursAt(s, sub, j)
    decreases |s|
  {
    if !(sub <= s) && s != [] {
      OccursShift(s, sub);
      IndexOfFirst(s[1..], sub);
      assert !OccursAt(s, sub, 0);
    }
  }

  lemma IndexOfIs(s: string, sub: string, i: nat)
    requires OccursAt(s, sub, i)
    requires forall j: nat :: j < i ==> !OccursAt(s, sub, j)
    ensures IndexOf(s, sub) == i
  {
    IndexOfFirst(s, sub);
  }

  lemma ContainsIffIndex(s: string, sub: string)
    ensures Contains(s, sub) <==> IndexOf(s, sub) >= 0
  {
    IndexOfFirst(s, sub);
    if IndexOf(s, sub) >= 0 {
      assert OccursAt(s, sub, IndexOf(s, sub));
    }
  }

  /** Text around a message never hides a substring of it: the three cosign
    * error classifiers keep matching when the message is wrapped. */
  lemma {:induction false} ContainsWrapped(s: string, sub: string, before: string, after: string)
    requires Contains(s, sub)
    ensures Contains(before + s + after, sub)
  {
    var i: nat :| i <= |s| && OccursAt(s, sub, i);
    var t := before + s + after;
    assert t[|before| + i..|before| + i + |sub|] == s[i..i + |sub|];
    assert OccursAt(t, sub, |before| + i);
  }

  /** strings.CutPrefix: the rest after `prefix` and whether it was found. */
  function CutPrefix(s: string, prefix: string): (r: (string, bool))
    ensures r.1 <==> HasPrefix(s, prefix)
    ensures r.1 ==> prefix + r.0 == s
    ensures !r.1 ==> r.0 == s
  {
    if prefix <= s then (s[|prefix|..], true) else (s, false)
  }

  /** strings.TrimPrefix */
  function TrimPrefix(s: string, prefix: string): (r: string)
    ensures HasPrefix(s, prefix) ==> prefix + r == s
    ensures !HasPrefix(s, prefix) ==> r == s
  {
    CutPrefix(s, prefix).0
  }

  /** strings.CutSuffix: the text before `suffix` and whether it was found. */
  function CutSuffix(s: string, suffix: string): (r: (string, bool))
    ensures r.1 <==> HasSuffix(s, suffix)
    ensures r.1 ==> r.0 + suffix == s
    ensures !r.1 ==> r.0 == s
  {
    if HasSuffix(s, suffix) then (s[..|s| - |suffix|], true) else (s, false)
  }

  /** strings.Replace(s, old, new, 1): the first occurrence of `old` becomes `new`. */
  function ReplaceFirst(s: string, target: string, replacement: string): (r: string)
  {
    var i := IndexOf(s, target);
    if i < 0 then s else s[..i] + replacement + s[i + |target|..]
  }

  lemma ReplaceFirstAbsent(s: string, target: string, replacement: string)
    requires !Contains(s, target)
    ensures ReplaceFirst(s, target, replacement) == s
  {
    ContainsIffIndex(s, target);
  }

  /** Replacing a leading occurrence with nothing removes exactly that prefix. */
  lemma ReplaceFirstPrefix(s: string, target: string)
    requires HasPrefix(s, target)
    ensures ReplaceFirst(s, target, "") == s[|target|..]
  {
    assert OccursAt(s, target, 0);
    IndexOfIs(s, target, 0);
  }

  /** A leading occurrence is the first one. */
  lemma ReplaceFirstLeading(s: string, target: string, replacement: string)
    requires HasPrefix(s, target)
    ensures ReplaceFirst(s, target, replacement) == replacement + s[|target|..]
  {
  }

  /** The first occurrence is the one replaced: the text before it is kept. */
  lemma ReplaceFirstFound(s: string, target: string, replacement: string)
    requires target != [] && Contains(s, target)
    ensures exists i: nat :: OccursAt(s, target, i) && !Contains(s[..i], target)
                             && ReplaceFirst(s, target, replacement) == s[..i] + replacement + s[i + |target|..]
  {
    ContainsIffIndex(s, target);
    var i: nat := IndexOf(s, target);
    IndexOfFirst(s, target);
    NoEarlierOccurrence(s, target, i);
  }

  /** strings.ReplaceAll(s, string(c), with) for a one-character `c`. */
  function ReplaceChar(s: string, c: char, with: string): (r: string)
    ensures c !in with ==> c !in r
    ensures c !in s ==> r == s
  {
    if s == [] then []
    else (if s[0] == c then with else [s[0]]) + ReplaceChar(s[1..], c, with)
  }

  /** Replacing in a concatenation replaces in each part. */
  lemma {:induction false} ReplaceCharAppend(a: string, b: string, c: char, with: string)
    ensures ReplaceChar(a + b, c, with) == ReplaceChar(a, c, with) + ReplaceChar(b, c, with)
    decreases |a|
  {
    if a == [] {
      assert a + b == b;
    } else {
      assert (a + b)[0] == a[0] && (a + b)[1..] == a[1..] + b;
      ReplaceCharAppend(a[1..], b, c, with);
    }
  }

  /** Replacing a character by one character keeps the length. */
  lemma {:induction false} ReplaceCharLength(s: string, c: char, d: char)
    ensures |ReplaceChar(s, c, [d])| == |s|
    decreases |s|
  {
    if s != [] {
      ReplaceCharLength(s[1..], c, d);
    }
  }

  /** `ReplaceChar` is strings.ReplaceAll as Go defines it: split at every
    * occurrence of the character and join the pieces with the replacement. */
  lemma {:induction false} ReplaceCharIsSplitJoin(s: string, c: char, with: string)
    ensures ReplaceChar(s, c, with) == Join(Split(s, [c]), with)
    decreases |s|
  {
    var i := IndexOf(s, [c]);
    if i < 0 {
      ContainsIffIndex(s, [c]);
      NoCharFromNotContains(s, c);
      SplitNone(s, [c]);
    } else {
      var before := s[..i];
      var after := s[i + 1..];
      IndexOfFirst(s, [c]);
      NoEarlierOccurrence(s, [c], i);
      NoCharFromNotContains(before, c);
      assert s[i..i + 1] == [c];
      assert s == before + [c] + after;
      ReplaceCharAppend(before + [c], after, c, with);
      ReplaceCharAppend(before, [c], c, with);
      assert ReplaceChar([c], c, with) == with + ReplaceChar([], c, with);
      SplitPieces(s, [c], i, before, after);
      ReplaceCharIsSplitJoin(after, c, with);
      JoinCons(before, Split(after, [c]), with);
    }
  }

  /** strings.Join */
  function Join(parts: seq<string>, sep: string): (r: string)
  {
    if |parts| == 0 then []
    else if |parts| == 1 then parts[0]
    else parts[0] + sep + Join(parts[1..], sep)
  }

  /** strings.Split for a non-empty separator: the pieces between the
    * occurrences of `sep`, from left to right. */
  function Split(s: string, sep: string): (r: seq<string>)
    requires sep != []
    ensures |r| >= 1
    decreases |s|
  {
    var i := IndexOf(s, sep);
    if i < 0 then
      [s]
    else
      [s[..i]] + Split(s[i + |sep|..], sep)
  }

  /** No piece of a split holds the separator. */
  lemma {:induction false} SplitPiecesFree(s: string, sep: string)
    requires sep != []
    ensures forall k :: 0 <= k < |Split(s, sep)| ==> !Contains(Split(s, sep)[k], sep)
    decreases |s|
  {
    var i := IndexOf(s, sep);
    if i < 0 {
      ContainsIffIndex(s, sep);
      SplitNone(s, sep);
    } else {
      var before := s[..i];
      var after := s[i + |sep|..];
      IndexOfFirst(s, sep);
      NoEarlierOccurrence(s, sep, i);
      SplitPieces(s, sep, i, before, after);
      SplitPiecesFree(after, sep);
      FreeCons(Split(s, sep), before, Split(after, sep), sep);
    }
  }

  lemma FreeCons(whole: seq<string>, head: string, rest: seq<string>, sep: string)
    requires whole == [head] + rest && !Contains(head, sep)
    requires forall k :: 0 <= k < |rest| ==> !Contains(rest[k], sep)
    ensures forall k :: 0 <= k < |whole| ==> !Contains(whole[k], sep)
  {
    forall k | 0 < k < |whole|
      ensures whole[k] == rest[k - 1]
    {
    }
  }

  lemma NoEarlierOccurrence(s: string, sep: string, i: nat)
    requires sep != [] && i <= |s|
    requires forall j: nat :: j < i ==> !OccursAt(s, sep, j)
    ensures !Contains(s[..i], sep)
  {
    forall j: nat | j <= i
      ensures !OccursAt(s[..i], sep, j)
    {
      if j + |sep| <= i {
        assert s[..i][j..j + |sep|] == s[j..j + |sep|];
        assert !OccursAt(s, sep, j);
      }
    }
  }

  /** Joining the pieces of a split with the same separator gives back the text. */
  lemma {:induction false} JoinSplit(s: string, sep: string)
    requires sep != []
    ensures Join(Split(s, sep), sep) == s
    decreases |s|
  {
    var i := IndexOf(s, sep);
    if i >= 0 {
      var rest := s[i + |sep|..];
      SplitPieces(s, sep, i, s[..i], rest);
      JoinSplit(rest, sep);
      JoinCons(s[..i], Split(rest, sep), sep);
      Recompose(s, i, |sep|);
    } else {
      SplitNone(s, sep);
    }
  }

  lemma JoinCons(head: string, tail: seq<string>, sep: string)
    requires |tail| >= 1
    ensures Join([head] + tail, sep) == head + sep + Join(tail, sep)
  {
    assert ([head] + tail)[1..] == tail;
  }

  /** A separator that no proper prefix of itself ends: an occurrence cannot
    * straddle the boundary between a piece and the separator after it. */
  predicate Borderless(sep: string)
  {
    forall k :: 0 < k < |sep| ==> sep[..k] != sep[|sep| - k..]
  }

  lemma FirstOccurrenceAfterPiece(p: string, sep: string, rest: string)
    requires sep != [] && Borderless(sep)
    requires !Contains(p, sep)
    ensures IndexOf(p + sep + rest, sep) == |p|
  {
    var s := p + sep + rest;
    assert s[|p|..|p| + |sep|] == sep;
    forall j: nat | j < |p|
      ensures !OccursAt(s, sep, j)
    {
      if j + |sep| <= |p| {
        assert s[j..j + |sep|] == p[j..j + |sep|];
        assert !OccursAt(p, sep, j);
      } else {
        // an occurrence here would straddle the end of `p`
        var b := |sep| - (|p| - j);
        assert 0 < b < |sep|;
        assert sep[..b] != sep[|sep| - b..];
        assert s[|p|..j + |sep|] == sep[..b];
        assert s[j..j + |sep|][|p| - j..] == s[|p|..j + |sep|];
      }
    }
    IndexOfIs(s, sep, |p|);
  }

  /** Splitting a join recovers the pieces, provided no piece contains the
    * separator and the separator cannot straddle a boundary. */
  lemma {:induction false} SplitJoin(parts: seq<string>, sep: string)
    requires sep != [] && Borderless(sep)
    requires |parts| >= 1
    requires forall k :: 0 <= k < |parts| ==> !Contains(parts[k], sep)
    ensures Split(Join(parts, sep), sep) == parts
  {
    if |parts| == 1 {
      ContainsIffIndex(parts[0], sep);
    } else {
      var rest := Join(parts[1..], sep);
      FirstOccurrenceAfterPiece(parts[0], sep, rest);
      var s := parts[0] + sep + rest;
      assert s[|parts[0]| + |sep|..] == rest;
      assert s[..|parts[0]|] == parts[0];
      SplitJoin(parts[1..], sep);
    }
  }

  /** strings.ToLower restricted to ASCII letters. */
  function ToLowerChar(c: char): (r: char)
    ensures !('A' <= r <= 'Z')
    ensures 'A' <= c <= 'Z' ==> r as int == c as int + ('a' as int - 'A' as int)
    ensures !('A' <= c <= 'Z') ==> r == c
  {
    if 'A' <= c <= 'Z' then (c as int - 'A' as int + 'a' as int) as char else c
  }

  function ToLower(s: string): (r: string)
    ensures |r| == |s|
    ensures forall k :: 0 <= k < |s| ==> r[k] == ToLowerChar(s[k])
  {
    if s == [] then [] else [ToLowerChar(s[0])] + ToLower(s[1..])
  }

  lemma SplitFirstIsPrefix(s: string, sep: string)
    requires sep != []
    ensures HasPrefix(s, Split(s, sep)[0])
  {
    var i := IndexOf(s, sep);
    if i < 0 {
      SplitNone(s, sep);
    } else {
      SplitAt(s, sep);
      assert Split(s, sep)[0] == s[..i];
    }
  }

  /** A one-character separator first occurs where the character first
    * appears. */
  lemma IndexOfChar(s: string, c: char, i: nat)
    requires i < |s| && s[i] == c && c !in s[..i]
    ensures IndexOf(s, [c]) == i
  {
    assert OccursAt(s, [c], i) by {
      assert s[i..i + 1] == [c];
    }
    forall j: nat | j < i
      ensures !OccursAt(s, [c], j)
    {
      assert s[..i][j] == s[j];
      assert s[j..j + 1][0] == s[j];
    }
    IndexOfIs(s, [c], i);
  }

  /** The first piece of a split is the text before the first occurrence. */
  lemma SplitFirst(s: string, sep: string, i: nat)
    requires sep != [] && IndexOf(s, sep) == i
    ensures Split(s, sep)[0] == s[..i]
  {
    SplitAt(s, sep);
  }

  lemma NoCharFromNotContains(s: string, c: char)
    requires !Contains(s, [c])
    ensures c !in s
  {
    if c in s {
      var k :| 0 <= k < |s| && s[k] == c;
      assert s[k..k + 1] == [c];
      assert OccursAt(s, [c], k);
    }
  }

  lemma NotContainsChar(s: string, c: char)
    requires c !in s
    ensures !Contains(s, [c])
  {
    forall n: nat | n <= |s| ensures !OccursAt(s, [c], n) {
      if n < |s| {
        assert s[n] != c;
        assert n + 1 <= |s| ==> s[n..n + 1][0] == s[n];
      }
    }
  }

  lemma JoinPair(a: string, b: string, sep: string)
    ensures Join([a, b], sep) == a + sep + b
  {
    assert [a, b][1..] == [b];
  }

  /** Text appended after an occurrence does not move the first occurrence. */
  lemma IndexOfExtend(a: string, t: string, sep: string)
    requires IndexOf(a, sep) >= 0
    ensures IndexOf(a + t, sep) == IndexOf(a, sep)
  {
    var s := a + t;
    var i := IndexOf(a, sep);
    IndexOfFirst(a, sep);
    assert OccursAt(a, sep, i);
    assert s[i..i + |sep|] == a[i..i + |sep|];
    forall j: nat | j < i
      ensures !OccursAt(s, sep, j)
    {
      assert !OccursAt(a, sep, j);
      assert s[j..j + |sep|] == a[j..j + |sep|];
    }
    IndexOfIs(s, sep, i);
  }

  /** One step of Split, at the first occurrence. */
  lemma SplitAt(s: string, sep: string)
    requires sep != [] && IndexOf(s, sep) >= 0
    ensures Split(s, sep) == [s[..IndexOf(s, sep)]] + Split(s[IndexOf(s, sep) + |sep|..], sep)
  {
  }

  /** One step of Split when there is no occurrence. */
  lemma SplitNone(s: string, sep: string)
    requires sep != [] && IndexOf(s, sep) < 0
    ensures Split(s, sep) == [s]
  {
  }

  /** Splitting text that has a separator in the middle splits each side on
    * its own, when the separator cannot straddle a boundary. */
  lemma {:induction false} SplitAround(a: string, sep: string, b: string)
    requires sep != [] && Borderless(sep)
    ensures Split(a + sep + b, sep) == Split(a, sep) + Split(b, sep)
    decreases |a|
  {
    var s := a + sep + b;
    if IndexOf(a, sep) < 0 {
      ContainsIffIndex(a, sep);
      FirstOccurrenceAfterPiece(a, sep, b);
      SplitAt(s, sep);
      SplitNone(a, sep);
      assert s[|a| + |sep|..] == b;
      assert s[..|a|] == a;
    } else {
      SplitAroundFound(a, sep, b);
    }
  }

  lemma {:induction false} SplitAroundFound(a: string, sep: string, b: string)
    requires sep != [] && Borderless(sep) && IndexOf(a, sep) >= 0
    ensures Split(a + sep + b, sep) == Split(a, sep) + Split(b, sep)
    decreases |a|, 0
  {
    var i := IndexOf(a, sep);
    var rest := a[i + |sep|..];
    FoundLeft(a, sep, b, i, rest);
    SplitPieces(a, sep, i, a[..i], rest);
    SplitAround(rest, sep, b);
    Regroup(Split(a + sep + b, sep), Split(a, sep), [a[..i]], Split(rest, sep), Split(b, sep), Split(rest + sep + b, sep));
  }

  /** The first step of splitting text with an occurrence and appended text. */
  lemma FoundLeft(a: string, sep: string, b: string, i: nat, rest: string)
    requires sep != [] && IndexOf(a, sep) == i && rest == a[i + |sep|..]
    ensures Split(a + sep + b, sep) == [a[..i]] + Split(rest + sep + b, sep)
  {
    var s := a + sep + b;
    var after := rest + sep + b;
    FoundPieces(a, sep, b, i, rest, s, after);
    SplitPieces(s, sep, i, a[..i], after);
  }

  /** One step of Split, with the piece before the first occurrence and
    * the text after it named. */
  lemma SplitPieces(s: string, sep: string, i: nat, before: string, after: string)
    requires sep != [] && IndexOf(s, sep) == i
    requires s[..i] == before && s[i + |sep|..] == after
    ensures Split(s, sep) == [before] + Split(after, sep)
  {
  }

  /** Where text is cut at the first occurrence of the separator, once more
    * text is appended after a separator. */
  lemma FoundPieces(a: string, sep: string, b: string, i: nat, rest: string, s: string, after: string)
    requires sep != [] && IndexOf(a, sep) == i && rest == a[i + |sep|..]
    requires s == a + sep + b && after == rest + sep + b
    ensures IndexOf(s, sep) == i && s[..i] == a[..i] && s[i + |sep|..] == after
  {
    CutAppended(a, sep, b, i + |sep|, s, after);
    IndexOfExtend(a, sep + b, sep);
  }

  /** A piece free of the separator splits into itself alone. */
  lemma SplitWhole(s: string, sep: string)
    requires sep != [] && !Contains(s, sep)
    ensures Split(s, sep) == [s]
  {
    ContainsIffIndex(s, sep);
  }

  /** A label without the separator's first character in front of text free
    * of the separator leaves it free of the separator. */
  lemma LabelKeepsFree(caption: string, x: string, sep: string)
    requires sep != [] && sep[0] !in caption && !Contains(x, sep)
    ensures !Contains(caption + x, sep)
  {
    var s := caption + x;
    forall j: nat | j <= |s|
      ensures !OccursAt(s, sep, j)
    {
      if j + |sep| <= |s| {
        if j < |caption| {
          assert s[j..j + |sep|][0] == caption[j];
        } else {
          assert s[j..j + |sep|] == x[j - |caption|..j - |caption| + |sep|];
          assert !OccursAt(x, sep, j - |caption|);
        }
      }
    }
  }
}
