/** pkg/helm/parser.go: deciding whether a dotted condition holds in a values
  * tree, and harvesting the image references (registry, repository, tag,
  * digest leaves) of a chart's values together with their value paths.
  * A failed type assertion, which panics in the source, is an `Err`. */
module HelmParser {
  import opened Wrappers
  import opened Strs
  import opened HelmValues
  import opened TernaryUtil
  import RegistryImages

  /* ---------------- ConditionMet ---------------- */

  /** The walk of `ConditionMet` over the remaining segments: a string or a
    * boolean sets the flag, a map moves the cursor into it, nil (a missing
    * key) changes nothing, any other value fails the map assertion. */
  function Walk(path: seq<string>, pos: seq<Entry>, enabled: bool): Result<bool>
  {
    if path == [] then Ok(enabled)
    else
      match Lookup(pos, path[0])
      case Str(s) => Walk(path[1..], pos, s == "true")
      case Bool(b) => Walk(path[1..], pos, b)
      case Map(m) => Walk(path[1..], m, enabled)
      case Nil => Walk(path[1..], pos, enabled)
      case Other => Err(PanicConversion)
  }

  /** `ConditionMet`: walks the "."-separated segments of the condition from
    * the root of `values`, starting from false. */
  method ConditionMet(condition: string, values: seq<Entry>) returns (r: Result<bool>)
    ensures r == Walk(Split(condition, "."), values, false)
  {
    var parts := Split(condition, ".");
    var pos := values;
    var enabled := false;
    var i := 0;
    while i < |parts|
      invariant 0 <= i <= |parts|
      invariant Walk(parts, values, false) == Walk(parts[i..], pos, enabled)
    {
      assert parts[i..][1..] == parts[i + 1..];
      match Lookup(pos, parts[i]) {
        case Str(s) => enabled := s == "true";
        case Bool(b) => enabled := b;
        case Map(m) => pos := m;
        case Nil =>
        case Other => return Err(PanicConversion);
      }
      i := i + 1;
    }
    return Ok(enabled);
  }

  /** The values the walk meets: for each segment, what the cursor current at
    * that point holds under it. */
  function Steps(path: seq<string>, pos: seq<Entry>): (vs: seq<Value>)
    ensures |vs| == |path|
  {
    if path == [] then []
    else
      var v := Lookup(pos, path[0]);
      [v] + Steps(path[1..], if v.Map? then v.entries else pos)
  }

  predicate IsScalar(v: Value)
  {
    v.Str? || v.Bool?
  }

  /** The truth a scalar leaf stands for: a boolean as is, a string iff it is
    * exactly "true". */
  function Truth(v: Value): bool
    requires IsScalar(v)
  {
    if v.Str? then v.s == "true" else v.b
  }

  /** The truth of the last scalar in `vs`, or `dflt` when there is none. */
  function LastScalar(vs: seq<Value>, dflt: bool): bool
  {
    if vs == [] then dflt
    else if IsScalar(vs[|vs| - 1]) then Truth(vs[|vs| - 1])
    else LastScalar(vs[..|vs| - 1], dflt)
  }

  /** Reading a leading value first is the same as reading the rest with that
    * value's truth (when it is a scalar) as the default. */
  lemma {:induction false} LastScalarCons(v: Value, rest: seq<Value>, dflt: bool)
    ensures LastScalar([v] + rest, dflt) == LastScalar(rest, if IsScalar(v) then Truth(v) else dflt)
  {
    var n := |rest|;
    if n == 0 {
      assert ([v] + rest)[..0] == [];
    } else {
      assert ([v] + rest)[n] == rest[n - 1];
      assert ([v] + rest)[..n] == [v] + rest[..n - 1];
      if !IsScalar(rest[n - 1]) {
        LastScalarCons(v, rest[..n - 1], dflt);
      }
    }
  }

  /** What `ConditionMet` computes: it panics iff the walk meets a value that
    * is neither a string, a boolean, a map nor nil; otherwise it returns the
    * truth of the last scalar met, and the starting flag when there is none. */
  lemma {:induction false} ConditionIsLastScalar(path: seq<string>, pos: seq<Entry>, enabled: bool)
    ensures Walk(path, pos, enabled).Err? <==> Other in Steps(path, pos)
    ensures Walk(path, pos, enabled).Ok? ==> Walk(path, pos, enabled).value == LastScalar(Steps(path, pos), enabled)
  {
    if path != [] {
      var v := Lookup(pos, path[0]);
      var next := if v.Map? then v.entries else pos;
      ConditionIsLastScalar(path[1..], next, if IsScalar(v) then Truth(v) else enabled);
      LastScalarCons(v, Steps(path[1..], next), enabled);
    }
  }

  /** The value at a dotted path when every segment but the last names a map. */
  function Resolve(path: seq<string>, pos: seq<Entry>): Value
    requires path != []
  {
    if |path| == 1 then Lookup(pos, path[0])
    else
      match Lookup(pos, path[0])
      case Map(m) => Resolve(path[1..], m)
      case _ => Nil
  }

  /** A path that leads through maps to a scalar leaf yields that leaf's truth,
    * whatever the flag was before. */
  lemma {:induction false} ConditionReadsResolvedLeaf(path: seq<string>, pos: seq<Entry>, enabled: bool)
    requires path != [] && IsScalar(Resolve(path, pos))
    ensures Walk(path, pos, enabled) == Ok(Truth(Resolve(path, pos)))
  {
    if |path| > 1 {
      ConditionReadsResolvedLeaf(path[1..], Lookup(pos, path[0]).entries, enabled);
    }
  }

  /** A missing segment leaves cursor and flag as they were, so the next
    * segment is looked up at the same level. */
  lemma MissingSegmentKeepsCursor(path: seq<string>, pos: seq<Entry>, enabled: bool)
    requires path != [] && !HasKey(pos, path[0])
    ensures Walk(path, pos, enabled) == Walk(path[1..], pos, enabled)
  {
  }

  /** A condition of two dot-free names splits into those two segments. */
  lemma SplitDotted(a: string, b: string)
    requires '.' !in a && '.' !in b
    ensures Split(a + "." + b, ".") == [a, b]
  {
    NotContainsChar(a, '.');
    NotContainsChar(b, '.');
    JoinPair(a, b, ".");
    SplitJoin([a, b], ".");
  }

  lemma SplitTestEnabled()
    ensures Split("test.enabled", ".") == ["test", "enabled"]
  {
    assert "test" + "." + "enabled" == "test.enabled";
    SplitDotted("test", "enabled");
  }

  lemma SplitServiceEnabled()
    ensures Split("service.enabled", ".") == ["service", "enabled"]
  {
    assert "service" + "." + "enabled" == "service.enabled";
    SplitDotted("service", "enabled");
  }

  /** "test.enabled" reads the boolean under test.enabled (parser_test.go,
    * first two cases). */
  lemma ConditionMetTestEnabled(b: bool)
    ensures Walk(Split("test.enabled", "."), [Entry("test", Map([Entry("enabled", Bool(b))]))], false) == Ok(b)
  {
    SplitTestEnabled();
    WalkNested("test", "enabled", b);
  }

  /** "service.enabled" reads the boolean under service.enabled. */
  lemma ConditionMetServicePresent(b: bool)
    ensures Walk(Split("service.enabled", "."), [Entry("service", Map([Entry("enabled", Bool(b))]))], false) == Ok(b)
  {
    SplitServiceEnabled();
    WalkNested("service", "enabled", b);
  }

  /** A two-segment path through a map to a boolean reads that boolean. */
  lemma WalkNested(outer: string, inner: string, b: bool)
    ensures Walk([outer, inner], [Entry(outer, Map([Entry(inner, Bool(b))]))], false) == Ok(b)
  {
    var values := [Entry(outer, Map([Entry(inner, Bool(b))]))];
    assert Resolve([outer, inner], values) == Bool(b);
    ConditionReadsResolvedLeaf([outer, inner], values, false);
  }

  /** "service.enabled" on values whose only key is neither "service" nor
    * "enabled" is false, even when the map below that key holds a "service"
    * (parser_test.go, the absent cases). */
  lemma ConditionMetServiceAbsent(k: string, v: Value)
    requires k != "service" && k != "enabled"
    ensures Walk(Split("service.enabled", "."), [Entry(k, v)], false) == Ok(false)
  {
    SplitServiceEnabled();
    WalkMissing(k, v, "service", "enabled");
  }

  /** A two-segment path neither of whose segments is the only key reads
    * false. */
  lemma WalkMissing(k: string, v: Value, outer: string, inner: string)
    requires k != outer && k != inner
    ensures Walk([outer, inner], [Entry(k, v)], false) == Ok(false)
  {
    var values := [Entry(k, v)];
    assert !HasKey(values, outer) && !HasKey(values, inner);
    MissingSegmentKeepsCursor([outer, inner], values, false);
    MissingSegmentKeepsCursor([inner], values, false);
  }

  /* ---------------- findImageReferences ---------------- */

  type Image = RegistryImages.Image

  /** One image found at one map level, with the value paths of the leaves
    * that filled it. The source keys these by pointer in a map, so the order
    * of a result sequence carries no meaning. */
  datatype Found = Found(image: Image, paths: seq<string>)

  /** The state of one level of the traversal: the level's shared image, its
    * path list, and what the nested levels found. */
  datatype Level = Level(image: Image, paths: seq<string>, nested: seq<Found>)

  predicate IsImageKey(k: string)
  {
    k == "registry" || k == "repository" || k == "image" || k == "tag" || k == "digest" || k == "sha"
  }

  /** The field a recognised key fills. */
  function SetField(i: Image, k: string, v: string): Image
    requires IsImageKey(k)
  {
    if k == "registry" then i.(registry := v)
    else if k == "repository" || k == "image" then i.(repository := v)
    else if k == "tag" then i.(tag := v)
    else i.(digest := v)
  }

  /** The path of a nested map: the key itself at the top level, otherwise the
    * accumulated path, ".", and the key. */
  function NestedPath(acc: string, k: string): (p: string)
    ensures acc == "" ==> p == k
    ensures acc != "" ==> p == acc + "." + k
  {
    Ternary(acc == "", k, acc + "." + k)
  }

  /** Whether a nested map is descended, scanning its entries for "enabled":
    * a string entry decides by being "true"; a boolean entry defers to
    * `ConditionMet("enabled", values[k])`, the user values of the same key
    * (which must be a map); any other entry changes nothing. */
  function EnabledOf(es: seq<Entry>, values: seq<Entry>, k: string, cur: bool): Result<bool>
  {
    if es == [] then Ok(cur)
    else if es[0].key != "enabled" then EnabledOf(es[1..], values, k, cur)
    else
      match es[0].val
      case Str(s) => EnabledOf(es[1..], values, k, s == "true")
      case Bool(_) =>
        (match AsMap(Lookup(values, k))
         case Err(x) => Err(x)
         case Ok(sub) =>
           match Walk(Split("enabled", "."), sub, false)
           case Err(x) => Err(x)
           case Ok(b) => EnabledOf(es[1..], values, k, b))
      case _ => EnabledOf(es[1..], values, k, cur)
  }

  /** The visit of the first entry of `es`: a string under a recognised key
    * fills the level's image and records its path; an enabled nested map
    * (whose user values must be a map too) adds what its own level finds;
    * anything else is passed over. */
  function Visit(es: seq<Entry>, values: seq<Entry>, acc: string, st: Level): Result<Level>
    requires es != []
    decreases es, 0
  {
    var e := es[0];
    match e.val
    case Str(s) =>
      if IsImageKey(e.key) then
        Ok(st.(image := SetField(st.image, e.key, s), paths := st.paths + [acc + "." + e.key]))
      else Ok(st)
    case Map(m) =>
      (match EnabledOf(m, values, e.key, true)
       case Err(x) => Err(x)
       case Ok(enabled) =>
         if !enabled then Ok(st)
         else
           match AsMap(Lookup(values, e.key))
           case Err(x) => Err(x)
           case Ok(sub) =>
             match Find(m, sub, NestedPath(acc, e.key))
             case Err(x) => Err(x)
             case Ok(fs) => Ok(st.(nested := st.nested + fs)))
    case _ => Ok(st)
  }

  /** One level of `findImageReferencesAcc`, entry by entry; the first panic
    * ends the traversal. */
  function Scan(es: seq<Entry>, values: seq<Entry>, acc: string, st: Level): Result<Level>
    decreases es, 1
  {
    if es == [] then Ok(st)
    else
      match Visit(es, values, acc, st)
      case Err(x) => Err(x)
      case Ok(next) => Scan(es[1..], values, acc, next)
  }

  /** What `findImageReferencesAcc` returns: this level's image when some
    * recognised key filled it, and everything the enabled nested maps found. */
  function Find(data: seq<Entry>, values: seq<Entry>, acc: string): Result<seq<Found>>
    decreases data, 2
  {
    match Scan(data, values, acc, Level(RegistryImages.Zero, [], []))
    case Err(x) => Err(x)
    case Ok(l) => Ok((if |l.paths| > 0 then [Found(l.image, l.paths)] else []) + l.nested)
  }

  /** The loop over a nested map's entries looking for "enabled". */
  method EnabledSection(v: seq<Entry>, values: seq<Entry>, k: string) returns (r: Result<bool>)
    ensures r == EnabledOf(v, values, k, true)
  {
    var enabled := true;
    var j := 0;
    while j < |v|
      invariant 0 <= j <= |v|
      invariant EnabledOf(v, values, k, true) == EnabledOf(v[j..], values, k, enabled)
    {
      assert v[j..][1..] == v[j + 1..];
      if v[j].key == "enabled" {
        match v[j].val {
          case Str(s) => enabled := s == "true";
          case Bool(_) =>
            var sub := AsMap(Lookup(values, k));
            if sub.Err? {
              return Err(sub.error);
            }
            var c := ConditionMet("enabled", sub.value);
            if c.Err? {
              return Err(c.error);
            }
            enabled := c.value;
          case _ =>
        }
      }
      j := j + 1;
    }
    return Ok(enabled);
  }

  /** `findImageReferencesAcc`: one shared image per level, filled while the
    * entries are visited, and a recursive call per enabled nested map. */
  method FindImageReferencesAcc(data: seq<Entry>, values: seq<Entry>, acc: string) returns (r: Result<seq<Found>>)
    ensures r == Find(data, values, acc)
    decreases data
  {
    var i := RegistryImages.Zero;
    var paths: seq<string> := [];
    var nested: seq<Found> := [];
    var j := 0;
    while j < |data|
      invariant 0 <= j <= |data|
      invariant Scan(data, values, acc, Level(RegistryImages.Zero, [], [])) == Scan(data[j..], values, acc, Level(i, paths, nested))
    {
      assert data[j..][1..] == data[j + 1..];
      assert data[j..][0] == data[j];
      var e := data[j];
      match e.val {
        case Str(s) =>
          if IsImageKey(e.key) {
            i := SetField(i, e.key, s);
            paths := paths + [acc + "." + e.key];
          }
        case Map(m) =>
          var enabled := EnabledSection(m, values, e.key);
          if enabled.Err? {
            return Err(enabled.error);
          }
          if enabled.value {
            var sub := AsMap(Lookup(values, e.key));
            if sub.Err? {
              return Err(sub.error);
            }
            var nestedRes := FindImageReferencesAcc(m, sub.value, NestedPath(acc, e.key));
            if nestedRes.Err? {
              return Err(nestedRes.error);
            }
            nested := nested + nestedRes.value;
          }
        case _ =>
      }
      j := j + 1;
    }
    r := Ok((if |paths| > 0 then [Found(i, paths)] else []) + nested);
  }

  /** `findImageReferences`: the traversal from the root, with an empty path. */
  method FindImageReferences(data: seq<Entry>, values: seq<Entry>) returns (r: Result<seq<Found>>)
    ensures r == Find(data, values, "")
  {
    r := FindImageReferencesAcc(data, values, "");
  }

  /* ---------------- properties of the traversal ---------------- */

  /** The value of the last string entry whose key is in `keys`, or `d`. */
  function LastString(es: seq<Entry>, keys: set<string>, d: string): string
  {
    if es == [] then d
    else LastString(es[1..], keys, if es[0].val.Str? && es[0].key in keys then es[0].val.s else d)
  }

  /** The image one level fills, starting from `start`: each field holds the
    * last string under one of its keys. */
  function LocalImage(es: seq<Entry>, start: Image): Image
  {
    start.(registry := LastString(es, {"registry"}, start.registry),
           repository := LastString(es, {"repository", "image"}, start.repository),
           tag := LastString(es, {"tag"}, start.tag),
           digest := LastString(es, {"digest", "sha"}, start.digest))
  }

  /** The paths one level records: acc + "." + key for each string under a
    * recognised key, in visiting order. */
  function FieldPaths(es: seq<Entry>, acc: string): seq<string>
  {
    if es == [] then []
    else (if es[0].val.Str? && IsImageKey(es[0].key) then [acc + "." + es[0].key] else []) + FieldPaths(es[1..], acc)
  }

  /** A level's image and path list depend only on its own string entries:
    * nested maps, enabled or not, never touch them. */
  lemma {:induction false} ScanLocal(es: seq<Entry>, values: seq<Entry>, acc: string, st: Level)
    ensures Scan(es, values, acc, st).Ok? ==>
              Scan(es, values, acc, st).value.image == LocalImage(es, st.image)
              && Scan(es, values, acc, st).value.paths == st.paths + FieldPaths(es, acc)
    decreases es
  {
    if es != [] {
      match Visit(es, values, acc, st)
      case Err(_) =>
      case Ok(next) =>
        ScanLocal(es[1..], values, acc, next);
        VisitLocal(es, values, acc, st);
    }
  }

  /** One visited entry moves the level's image and paths by exactly what
    * `LocalImage` and `FieldPaths` charge to that entry. */
  lemma VisitLocal(es: seq<Entry>, values: seq<Entry>, acc: string, st: Level)
    requires es != [] && Visit(es, values, acc, st).Ok?
    ensures LocalImage(es[1..], Visit(es, values, acc, st).value.image) == LocalImage(es, st.image)
    ensures Visit(es, values, acc, st).value.paths + FieldPaths(es[1..], acc) == st.paths + FieldPaths(es, acc)
  {
    var next := Visit(es, values, acc, st).value;
    if es[0].val.Str? && IsImageKey(es[0].key) {
      VisitString(es, values, acc, st);
      LocalStepString(es, acc, st.image);
    } else {
      VisitOther(es, values, acc, st);
      LocalStepOther(es, acc, st.image);
    }
  }

  lemma VisitString(es: seq<Entry>, values: seq<Entry>, acc: string, st: Level)
    requires es != [] && es[0].val.Str? && IsImageKey(es[0].key)
    ensures Visit(es, values, acc, st) == Ok(st.(image := SetField(st.image, es[0].key, es[0].val.s), paths := st.paths + [acc + "." + es[0].key]))
  {
  }

  lemma VisitOther(es: seq<Entry>, values: seq<Entry>, acc: string, st: Level)
    requires es != [] && !(es[0].val.Str? && IsImageKey(es[0].key)) && Visit(es, values, acc, st).Ok?
    ensures Visit(es, values, acc, st).value.image == st.image
    ensures Visit(es, values, acc, st).value.paths == st.paths
  {
  }

  lemma LocalStepString(es: seq<Entry>, acc: string, start: Image)
    requires es != [] && es[0].val.Str? && IsImageKey(es[0].key)
    ensures LocalImage(es[1..], SetField(start, es[0].key, es[0].val.s)) == LocalImage(es, start)
    ensures FieldPaths(es, acc) == [acc + "." + es[0].key] + FieldPaths(es[1..], acc)
  {
  }

  lemma LocalStepOther(es: seq<Entry>, acc: string, start: Image)
    requires es != [] && !(es[0].val.Str? && IsImageKey(es[0].key))
    ensures LocalImage(es[1..], start) == LocalImage(es, start)
    ensures FieldPaths(es, acc) == FieldPaths(es[1..], acc)
  {
  }

  /** The image `findImageReferencesAcc` reports for a level: present iff a
    * string sits under a recognised key there, with each field the last such
    * string and the paths acc + "." + key (a leading "." at the top level). */
  lemma FindLocal(data: seq<Entry>, values: seq<Entry>, acc: string)
    ensures Find(data, values, acc).Ok? && FieldPaths(data, acc) != [] ==>
              |Find(data, values, acc).value| > 0 && Find(data, values, acc).value[0] == Found(LocalImage(data, RegistryImages.Zero), FieldPaths(data, acc))
    ensures Find(data, values, acc).Ok? && FieldPaths(data, acc) == [] ==>
              Find(data, values, acc).value == Scan(data, values, acc, Level(RegistryImages.Zero, [], [])).value.nested
  {
    ScanLocal(data, values, acc, Level(RegistryImages.Zero, [], []));
  }

  /** Every path in `fs` starts with `prefix`. */
  predicate PathsUnder(fs: seq<Found>, prefix: string)
  {
    forall f, p :: f in fs && p in f.paths ==> HasPrefix(p, prefix)
  }

  lemma PathsUnderAppend(a: seq<Found>, b: seq<Found>, prefix: string)
    requires PathsUnder(a, prefix) && PathsUnder(b, prefix)
    ensures PathsUnder(a + b, prefix)
  {
  }

  lemma PathsUnderWeaken(fs: seq<Found>, longer: string, shorter: string)
    requires PathsUnder(fs, longer) && HasPrefix(longer, shorter)
    ensures PathsUnder(fs, shorter)
  {
    forall f, p | f in fs && p in f.paths ensures HasPrefix(p, shorter) {
      assert HasPrefix(p, longer);
      assert p[..|shorter|] == longer[..|shorter|];
    }
  }

  lemma {:induction false} VisitPathsUnder(es: seq<Entry>, values: seq<Entry>, acc: string, st: Level)
    requires es != [] && acc != ""
    requires PathsUnder([Found(st.image, st.paths)] + st.nested, acc + ".")
    ensures Visit(es, values, acc, st).Ok? ==>
              var next := Visit(es, values, acc, st).value;
              PathsUnder([Found(next.image, next.paths)] + next.nested, acc + ".")
    decreases es, 0
  {
    var e := es[0];
    match e.val
    case Str(s) =>
    case Map(m) =>
      if EnabledOf(m, values, e.key, true) == Ok(true) && AsMap(Lookup(values, e.key)).Ok? {
        var sub := AsMap(Lookup(values, e.key)).value;
        var path := NestedPath(acc, e.key);
        FindPathsUnder(m, sub, path);
        if Find(m, sub, path).Ok? {
          var fs := Find(m, sub, path).value;
          assert HasPrefix(path + ".", acc + ".") by {
            assert path + "." == (acc + ".") + (e.key + ".");
          }
          PathsUnderWeaken(fs, path + ".", acc + ".");
          var next := Visit(es, values, acc, st).value;
          assert [Found(next.image, next.paths)] + next.nested == ([Found(st.image, st.paths)] + st.nested) + fs;
          PathsUnderAppend([Found(st.image, st.paths)] + st.nested, fs, acc + ".");
        }
      }
    case _ =>
  }

  lemma {:induction false} ScanPathsUnder(es: seq<Entry>, values: seq<Entry>, acc: string, st: Level)
    requires acc != ""
    requires PathsUnder([Found(st.image, st.paths)] + st.nested, acc + ".")
    ensures Scan(es, values, acc, st).Ok? ==>
              var l := Scan(es, values, acc, st).value;
              PathsUnder([Found(l.image, l.paths)] + l.nested, acc + ".")
    decreases es, 1
  {
    if es != [] {
      VisitPathsUnder(es, values, acc, st);
      match Visit(es, values, acc, st)
      case Err(_) =>
      case Ok(next) => ScanPathsUnder(es[1..], values, acc, next);
    }
  }

  /** Below the top level every reported path starts with the accumulated
    * path and a ".": a nested level only reports paths under its own key. */
  lemma {:induction false} FindPathsUnder(data: seq<Entry>, values: seq<Entry>, acc: string)
    requires acc != ""
    ensures Find(data, values, acc).Ok? ==> PathsUnder(Find(data, values, acc).value, acc + ".")
    decreases data, 2
  {
    ScanPathsUnder(data, values, acc, Level(RegistryImages.Zero, [], []));
  }

  /** A nested map whose "enabled" entry turns it off contributes nothing:
    * the traversal is the same as without that entry. */
  lemma {:induction false} ScanSkipsDisabled(es: seq<Entry>, values: seq<Entry>, acc: string, st: Level, j: nat)
    requires j < |es| && es[j].val.Map?
    requires EnabledOf(es[j].val.entries, values, es[j].key, true) == Ok(false)
    ensures Scan(es, values, acc, st) == Scan(es[..j] + es[j + 1..], values, acc, st)
    decreases j
  {
    var rest := es[..j] + es[j + 1..];
    if j == 0 {
      assert rest == es[1..];
    } else {
      assert rest[0] == es[0];
      assert Visit(rest, values, acc, st) == Visit(es, values, acc, st);
      assert rest[1..] == es[1..][..j - 1] + es[1..][j..];
      match Visit(es, values, acc, st)
      case Err(_) =>
      case Ok(next) => ScanSkipsDisabled(es[1..], values, acc, next, j - 1);
    }
  }

  /** A nested map without an "enabled" key is descended. */
  lemma {:induction false} EnabledWithoutKey(es: seq<Entry>, values: seq<Entry>, k: string, cur: bool)
    requires !HasKey(es, "enabled")
    ensures EnabledOf(es, values, k, cur) == Ok(cur)
  {
    if es != [] {
      assert !HasKey(es[1..], "enabled") by {
        forall i | 0 <= i < |es[1..]| ensures es[1..][i].key != "enabled" {
          assert es[1..][i] == es[i + 1];
        }
      }
      EnabledWithoutKey(es[1..], values, k, cur);
    }
  }

  /** A string "enabled" entry decides alone: the section is descended iff it
    * is "true", whatever came before it. */
  lemma EnabledStringDecides(s: string, rest: seq<Entry>, values: seq<Entry>, k: string, cur: bool)
    requires !HasKey(rest, "enabled")
    ensures EnabledOf([Entry("enabled", Str(s))] + rest, values, k, cur) == Ok(s == "true")
  {
    assert ([Entry("enabled", Str(s))] + rest)[1..] == rest;
    EnabledWithoutKey(rest, values, k, s == "true");
  }

  /** A boolean "enabled" entry in the chart's values is not read: the user
    * values under the same key decide, through `ConditionMet("enabled", ...)`. */
  lemma EnabledBoolDefersToValues(b: bool, rest: seq<Entry>, values: seq<Entry>, k: string, cur: bool)
    requires !HasKey(rest, "enabled")
    ensures EnabledOf([Entry("enabled", Bool(b))] + rest, values, k, cur)
            == (match AsMap(Lookup(values, k))
                case Err(x) => Err(x)
                case Ok(sub) => Walk(Split("enabled", "."), sub, false))
  {
    assert ([Entry("enabled", Bool(b))] + rest)[1..] == rest;
    match AsMap(Lookup(values, k))
    case Err(_) =>
    case Ok(sub) =>
      match Walk(Split("enabled", "."), sub, false)
      case Err(_) =>
      case Ok(c) => EnabledWithoutKey(rest, values, k, c);
  }
}
