/** Go's `path/filepath.Clean` and `filepath.Join` on a Unix host, the purely
  * lexical path normalisation that helmper uses to build references, keys and
  * report file names. */
module GoPath {
  import opened Strs

  const Slash: string := "/"

  /** One step of Clean over a path element: "" and "." vanish, ".." removes the
    * previous real element (or stays, in a relative path that has none), and
    * anything else is appended. */
  function Step(stack: seq<string>, e: string, rooted: bool): seq<string>
  {
    if e == "" || e == "." then stack
    else if e == ".." then
      if |stack| > 0 && stack[|stack| - 1] != ".." then stack[..|stack| - 1]
      else if rooted then stack
      else stack + [".."]
    else stack + [e]
  }

  function Elements(elems: seq<string>, rooted: bool, stack: seq<string>): seq<string>
    decreases |elems|
  {
    if elems == [] then stack else Elements(elems[1..], rooted, Step(stack, elems[0], rooted))
  }

  /** filepath.Clean: the shortest lexically equivalent path, "." for nothing. */
  function Clean(path: string): (r: string)
    ensures r != ""
  {
    if path == "" then "."
    else
      var rooted := path[0] == '/';
      var out := (if rooted then Slash else "") + Join(Elements(Split(path, Slash), rooted, []), Slash);
      if out == "" then "." else out
  }

  /** filepath.Join: the non-empty tail of `elems`, starting at the first
    * non-empty element, joined with "/" and cleaned; "" when every element is
    * empty. */
  function PathJoin(elems: seq<string>): (r: string)
    ensures (forall k :: 0 <= k < |elems| ==> elems[k] == "") <==> r == ""
    decreases |elems|
  {
    if elems == [] then ""
    else if elems[0] == "" then PathJoin(elems[1..])
    else Clean(Join(elems, Slash))
  }

  /** A path element that Clean keeps as it is. */
  predicate PlainElement(e: string)
  {
    e != "" && e != "." && e != ".." && '/' !in e
  }

  /** A relative path with no empty, "." or ".." element: a registry host, a
    * repository, a chart name or a version as helmper passes them. */
  predicate PlainPath(p: string)
  {
    forall k :: 0 <= k < |Split(p, Slash)| ==> PlainElement(Split(p, Slash)[k])
  }

  lemma {:induction false} ElementsOfPlain(elems: seq<string>, rooted: bool, stack: seq<string>)
    requires forall k :: 0 <= k < |elems| ==> PlainElement(elems[k])
    ensures Elements(elems, rooted, stack) == stack + elems
    decreases |elems|
  {
    if elems != [] {
      ElementsOfPlain(elems[1..], rooted, stack + [elems[0]]);
      assert stack + [elems[0]] + elems[1..] == stack + elems;
    }
  }

  lemma JoinOfPlainIsRelative(parts: seq<string>)
    requires |parts| >= 1 && PlainElement(parts[0])
    ensures Join(parts, Slash) != "" && Join(parts, Slash)[0] != '/'
  {
    if |parts| > 1 {
      assert Join(parts, Slash)[0] == parts[0][0];
    }
  }

  /** Clean keeps a plain path as it is. */
  lemma CleanPlain(p: string)
    requires PlainPath(p)
    ensures Clean(p) == p
  {
    var parts := Split(p, Slash);
    JoinSplit(p, Slash);
    ElementsOfPlain(parts, false, []);
    assert [] + parts == parts;
    JoinOfPlainIsRelative(parts);
  }

  /** Joining two plain paths puts exactly one "/" between them. */
  lemma JoinTwoPlain(a: string, b: string)
    requires PlainPath(a) && PlainPath(b)
    ensures PathJoin([a, b]) == a + "/" + b
  {
    JoinOfPlainIsRelative(Split(a, Slash));
    JoinSplit(a, Slash);
    assert a != "";
    assert Join([a, b], Slash) == a + Slash + b;
    PlainJoin(a, b);
    CleanPlain(a + Slash + b);
  }

  lemma PlainJoin(a: string, b: string)
    requires PlainPath(a) && PlainPath(b)
    ensures PlainPath(a + Slash + b)
  {
    assert Borderless(Slash);
    SplitAround(a, Slash, b);
  }

  /** Joining three plain paths puts exactly one "/" between each pair. */
  lemma JoinThreePlain(a: string, b: string, c: string)
    requires PlainPath(a) && PlainPath(b) && PlainPath(c)
    ensures PathJoin([a, b, c]) == a + "/" + b + "/" + c
  {
    JoinOfPlainIsRelative(Split(a, Slash));
    JoinSplit(a, Slash);
    assert [a, b, c][1..] == [b, c];
    assert Join([b, c], Slash) == b + Slash + c;
    assert Join([a, b, c], Slash) == a + Slash + (b + Slash + c);
    PlainJoin(b, c);
    PlainJoin(a, b + Slash + c);
    CleanPlain(a + Slash + (b + Slash + c));
  }
}
