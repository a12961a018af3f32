/** pkg/image: the image reference value type used by the chart data, the
  * serialised state, the Copacetic patch step and the artifact export. */
module Images {
  import opened Wrappers
  import opened Strs
  import opened Reference

  /** `image.Image`. `patch` is the nil-able `Patch *bool`; `parsedRef` is the
    * cache of the normalised reference that `String` fills in. */
  datatype Image = Image(
    registry: string,
    repository: string,
    tag: string,
    digest: string,
    useDigest: bool,
    patch: Option<bool>,
    parsedRef: Option<string>)

  const Zero: Image := Image("", "", "", "", false, None, None)

  /** `IsEmpty`: registry, repository and tag are all empty. */
  predicate IsEmpty(i: Image)
  {
    i.registry == "" && i.repository == "" && i.tag == ""
  }

  /** The digest, the digest flag and the cache play no part in emptiness. */
  lemma IsEmptyIgnoresDigest(i: Image, d: string, u: bool)
    ensures IsEmpty(i) <==> IsEmpty(i.(digest := d, useDigest := u, parsedRef := None))
  {
  }

  /** `TagOrDigest`: "tag@digest", the digest alone, the tag alone, or an error. */
  function TagOrDigest(i: Image): (r: Result<string>)
    ensures r.Err? <==> i.tag == "" && i.digest == ""
    ensures r.Err? ==> r.error == "no tag or digest"
  {
    if i.tag != "" && i.digest != "" then Ok(i.tag + "@" + i.digest)
    else if i.tag == "" && i.digest != "" then Ok(i.digest)
    else if i.tag != "" && i.digest == "" then Ok(i.tag)
    else Err("no tag or digest")
  }

  /** When the tag has no "@", the tag and the digest can be read back from
    * the result of `TagOrDigest`: it is the tag, then "@" and the digest when
    * both are present. */
  lemma TagOrDigestSplits(i: Image)
    requires '@' !in i.tag && '@' !in i.digest
    requires TagOrDigest(i).Ok?
    ensures var parts := Split(TagOrDigest(i).value, "@");
            (i.tag != "" && i.digest != "" ==> parts == [i.tag, i.digest])
            && (i.tag == "" || i.digest == "" ==> parts == [i.tag + i.digest])
  {
    var s := TagOrDigest(i).value;
    NotContainsChar(i.tag, '@');
    NotContainsChar(i.digest, '@');
    if i.tag != "" && i.digest != "" {
      SplitJoin([i.tag, i.digest], "@");
      assert Join([i.tag, i.digest], "@") == s by {
        assert [i.tag, i.digest][1..] == [i.digest];
      }
    } else {
      assert s == i.tag + i.digest;
      NotContainsChar(s, '@');
      SplitJoin([s], "@");
    }
  }

  /** `cleanString`: at most one trailing and then at most one leading
    * `remove` are cut off. */
  function CleanString(s: string, remove: string): (r: string)
    ensures r == s || remove + r == s || r + remove == s || remove + r + remove == s
    ensures !HasSuffix(s, remove) && !HasPrefix(s, remove) ==> r == s
  {
    CutPrefix(CutSuffix(s, remove).0, remove).0
  }

  /** The reference text `String` assembles before normalisation: registry and
    * "/" when there is a registry, the repository, ":tag" when there is a tag,
    * and "@digest" only when the digest is in use and non-empty. */
  function Assemble(i: Image): (r: string)
  {
    (if i.registry != "" then CleanString(i.registry, "/") + "/" else "")
    + CleanString(i.repository, "/")
    + (if i.tag != "" then ":" + CleanString(i.tag, ":") else "")
    + (if i.useDigest && i.digest != "" then "@" + CleanString(i.digest, "@") else "")
  }

  /** A digest that is not in use never reaches the assembled reference. */
  lemma AssembleIgnoresUnusedDigest(i: Image, d: string)
    requires !i.useDigest
    ensures Assemble(i) == Assemble(i.(digest := d))
  {
  }

  /** With no "@" in registry, repository or tag, the assembled reference
    * carries an "@" exactly when the digest is in use and non-empty. */
  lemma AssembleDigestMarker(i: Image)
    requires '@' !in i.registry && '@' !in i.repository && '@' !in i.tag
    ensures '@' in Assemble(i) <==> i.useDigest && i.digest != ""
  {
    var reg := if i.registry != "" then CleanString(i.registry, "/") + "/" else "";
    var repo := CleanString(i.repository, "/");
    var tag := if i.tag != "" then ":" + CleanString(i.tag, ":") else "";
    var dig := if i.useDigest && i.digest != "" then "@" + CleanString(i.digest, "@") else "";
    assert Assemble(i) == reg + repo + tag + dig;
    assert '@' !in reg by {
      CleanKeepsOut(i.registry, "/", '@');
    }
    assert '@' !in repo by {
      CleanKeepsOut(i.repository, "/", '@');
    }
    assert '@' !in tag by {
      CleanKeepsOut(i.tag, ":", '@');
    }
    assert '@' in dig <==> i.useDigest && i.digest != "" by {
      if i.useDigest && i.digest != "" {
        assert dig[0] == '@';
      }
    }
  }

  /** Cleaning adds no character. */
  lemma CleanKeepsOut(s: string, remove: string, c: char)
    requires c !in s
    ensures c !in CleanString(s, remove)
  {
  }

  /** The "docker.io/" and "/library/hello-world" case: the doubled separator
    * is cleaned away, giving "docker.io/library/hello-world:latest". */
  lemma AssembleCleansDoubledSlash()
    ensures Assemble(Image("docker.io/", "/library/hello-world", "latest", "", false, None, None))
            == "docker.io" + "/" + "library/hello-world" + (":" + "latest")
  {
    var i := Image("docker.io/", "/library/hello-world", "latest", "", false, None, None);
    CleanDockerIo();
    CleanLibraryRepository();
    assert CleanString(i.tag, ":") == "latest" by {
      assert "latest"[0] != ':' && "latest"[5] != ':';
      CleanNeither("latest", ":");
    }
    AssembleTagged(i, "docker.io", "library/hello-world", "latest");
  }

  lemma CleanDockerIo()
    ensures CleanString("docker.io/", "/") == "docker.io"
  {
    assert "docker.io/" == "docker.io" + "/";
    assert "docker.io"[0] != '/';
    CleanTrailing("docker.io", "/");
  }

  lemma CleanLibraryRepository()
    ensures CleanString("/library/hello-world", "/") == "library/hello-world"
  {
    assert "/library/hello-world" == "/" + "library/hello-world";
    assert "library/hello-world"[18] != '/';
    CleanLeading("library/hello-world", "/");
  }

  /** The assembled reference of an image with registry and tag and no digest
    * in use, from its cleaned parts. */
  lemma AssembleTagged(i: Image, reg: string, repo: string, tag: string)
    requires i.registry != "" && i.tag != "" && !i.useDigest
    requires CleanString(i.registry, "/") == reg && CleanString(i.repository, "/") == repo
    requires CleanString(i.tag, ":") == tag
    ensures Assemble(i) == reg + "/" + repo + (":" + tag)
  {
  }

  lemma CleanTrailing(x: string, sep: string)
    requires !HasPrefix(x, sep)
    ensures CleanString(x + sep, sep) == x
  {
    assert (x + sep)[..|x|] == x;
  }

  lemma CleanLeading(x: string, sep: string)
    requires |sep| == 1 && x != [] && x[|x| - 1] != sep[0]
    ensures CleanString(sep + x, sep) == x
  {
    assert (sep + x)[|sep + x| - 1] == x[|x| - 1];
    assert (sep + x)[|sep|..] == x;
  }

  lemma CleanNeither(x: string, sep: string)
    requires |sep| == 1 && x != [] && x[0] != sep[0] && x[|x| - 1] != sep[0]
    ensures CleanString(x, sep) == x
  {
  }

  /** What `String` returns for `i` and the cache it leaves behind: the cached
    * text when there is one; otherwise the normalised form of the assembled
    * reference, which is cached only when it parses and starts with the
    * registry; otherwise the assembled text, uncached. */
  function Render(i: Image, parse: ParseAny): (r: (string, Option<string>))
    ensures i.parsedRef.Some? ==> r == (i.parsedRef.value, i.parsedRef)
    ensures r.1.Some? ==> r.1.value == r.0
    ensures i.parsedRef.None? && r.1.None? ==> r.0 == Assemble(i)
    ensures i.parsedRef.None? && r.1.Some? ==>
              parse(Assemble(i)).Ok? && r.0 == AnyString(parse(Assemble(i)).value)
              && HasPrefix(r.0, i.registry)
  {
    if i.parsedRef.Some? then (i.parsedRef.value, i.parsedRef)
    else
      var ref := Assemble(i);
      match parse(ref)
      case Err(_) => (ref, None)
      case Ok(res) =>
        var s := AnyString(res);
        if !HasPrefix(s, i.registry) then (ref, None) else (s, Some(s))
  }

  /** Once `String` has cached a value, later calls return it whatever the
    * other fields have become since. */
  lemma RenderCachedIgnoresFields(i: Image, parse: ParseAny, j: Image)
    requires i.parsedRef.Some? && j.parsedRef == i.parsedRef
    ensures Render(j, parse).0 == Render(i, parse).0
  {
  }

  /** `*Image`: the pointer through which `String` writes its cache. */
  class ImagePtr {
    var val: Image

    constructor (v: Image)
      ensures val == v
    {
      val := v;
    }

    /** `(*Image).String` */
    method String(parse: ParseAny) returns (s: string)
      modifies this
      ensures (s, val.parsedRef) == Render(old(val), parse)
      ensures val == old(val).(parsedRef := Render(old(val), parse).1)
    {
      if val.parsedRef.Some? {
        s := val.parsedRef.value;
        return;
      }
      var ref := Assemble(val);
      var res := parse(ref);
      if res.Err? {
        s := ref;
        return;
      }
      var n := AnyString(res.value);
      if !HasPrefix(n, val.registry) {
        s := ref;
        return;
      }
      s := n;
      val := val.(parsedRef := Some(n));
    }
  }

  /** Calling `String` twice gives the same text, and the second call changes
    * nothing. */
  lemma RenderIdempotent(i: Image, parse: ParseAny)
    ensures var after := i.(parsedRef := Render(i, parse).1);
            Render(after, parse).0 == Render(i, parse).0
            && after.(parsedRef := Render(after, parse).1) == after
  {
  }

  /** `ImageName`: the normalised name without its domain. */
  function ImageName(i: Image, parse: ParseAny, named: ParseNamed): (r: Result<string>)
    ensures r.Err? <==> named(Render(i, parse).0).Err?
    ensures r.Ok? ==> r.value == WithoutDomain(named(Render(i, parse).0).value)
  {
    match named(Render(i, parse).0)
    case Err(e) => Err("failed to parse reference: " + e)
    case Ok(n) => Ok(WithoutDomain(n))
  }

  /** `Elements`: the domain, then the domain-less name split into a repository
    * of at most two "/" segments and the remaining name; a one-segment name
    * lives in the "library" repository. */
  function Elements(i: Image, parse: ParseAny, named: ParseNamed): (r: Result<(string, string, string)>)
  {
    match named(Render(i, parse).0)
    case Err(e) => Err(e)
    case Ok(n) =>
      var parts := Split(WithoutDomain(n), "/");
      if |parts| == 2 then Ok((n.domain, parts[0], parts[1]))
      else if |parts| > 2 then Ok((n.domain, Join(parts[..2], "/"), Join(parts[2..], "/")))
      else Ok((n.domain, "library", parts[0]))
  }

  /** `Elements` partitions the segments of the image name: the repository
    * holds the first one or two (never all of them) and the name the rest, so
    * repository + "/" + name is the image name again; a single segment gets
    * the "library" repository. */
  lemma ElementsPartitionsName(i: Image, parse: ParseAny, named: ParseNamed)
    ensures Elements(i, parse, named).Ok? <==> ImageName(i, parse, named).Ok?
    ensures Elements(i, parse, named).Ok? ==>
              var (dom, repo, name) := Elements(i, parse, named).value;
              var full := ImageName(i, parse, named).value;
              var parts := Split(full, "/");
              dom == named(Render(i, parse).0).value.domain
              && (|parts| == 1 ==> repo == "library" && name == full)
              && (|parts| >= 2 ==>
                    repo + "/" + name == full
                    && Split(repo, "/") == parts[..if |parts| == 2 then 1 else 2]
                    && Split(name, "/") == parts[if |parts| == 2 then 1 else 2..])
  {
    if named(Render(i, parse).0).Ok? {
      var full := ImageName(i, parse, named).value;
      var parts := Split(full, "/");
      if |parts| == 1 {
        JoinSplit(full, "/");
      } else {
        var m := if |parts| == 2 then 1 else 2;
        assert |parts| == 2 ==> parts[..m] == [parts[0]] && parts[m..] == [parts[1]];
        SegmentsPartition(full, parts, m);
      }
    }
  }

  /** Cutting the segments of a name after the first `m` and joining each
    * side again gives two names that make up the whole. */
  lemma SegmentsPartition(full: string, parts: seq<string>, m: nat)
    requires parts == Split(full, "/") && 0 < m < |parts|
    ensures Join(parts[..m], "/") + "/" + Join(parts[m..], "/") == full
    ensures Split(Join(parts[..m], "/"), "/") == parts[..m]
    ensures Split(Join(parts[m..], "/"), "/") == parts[m..]
  {
    JoinSplit(full, "/");
    SplitPiecesFree(full, "/");
    JoinAt(parts, m);
    SplitJoin(parts[..m], "/");
    SplitJoin(parts[m..], "/");
  }

  /** Joining two consecutive runs of pieces with the separator between them
    * joins the whole. */
  lemma {:induction false} JoinAt(parts: seq<string>, m: nat)
    requires 0 < m < |parts|
    ensures Join(parts[..m], "/") + "/" + Join(parts[m..], "/") == Join(parts, "/")
    decreases m
  {
    if m == 1 {
      assert parts[..1] == [parts[0]];
      assert parts[1..] == parts[m..];
    } else {
      JoinAt(parts[1..], m - 1);
      assert parts[1..][..m - 1] == parts[..m][1..];
      assert parts[1..][m - 1..] == parts[m..];
    }
  }

  /** `UpdateNameWithPrefixSource`: the image name, prefixed with the host
    * label of the image's registry. */
  function UpdateNameWithPrefixSource(i: Image, parse: ParseAny, named: ParseNamed): (r: Result<string>)
    ensures r.Ok? <==> ImageName(i, parse, named).Ok?
    ensures r.Ok? ==>
              var reg := named(Render(i, parse).0).value.domain;
              r.value == HostLabel(reg) + "/" + ImageName(i, parse, named).value
  {
    match ImageName(i, parse, named)
    case Err(e) => Err(e)
    case Ok(name) =>
      match Elements(i, parse, named)
      case Err(e) => Err(e)
      case Ok((reg, _, _)) => Ok(HostLabel(reg) + "/" + name)
  }

  /** `RefToImage`: a reference with a digest gives an image that uses the
    * digest (and keeps any tag); a tagged reference gives one that does not;
    * anything else is rejected. On error the image is the zero Image. */
  function RefToImage(s: string, parse: ParseAny): (r: Result<Image>)
    ensures r.Ok? <==> parse(s).Ok? && parse(s).value.Named?
                       && (parse(s).value.ref.digest.Some? || parse(s).value.ref.tag.Some?)
    ensures r.Ok? ==>
              var n := parse(s).value.ref;
              r.value.registry == n.domain && r.value.repository == n.path
              && r.value.useDigest == n.digest.Some?
              && r.value.tag == n.tag.UnwrapOr("")
              && r.value.digest == n.digest.UnwrapOr("")
              && r.value.patch.None? && r.value.parsedRef.None?
    ensures parse(s).Err? ==> r == Err("failed to parse reference: " + parse(s).error)
  {
    match parse(s)
    case Err(e) => Err("failed to parse reference: " + e)
    case Ok(a) =>
      match a
      case Named(n) =>
        if n.digest.Some? then
          Ok(Image(n.domain, n.path, n.tag.UnwrapOr(""), n.digest.value, true, None, None))
        else if n.tag.Some? then
          Ok(Image(n.domain, n.path, n.tag.value, "", false, None, None))
        else
          Err("image reference not understood")
      case DigestOnly(_) => Err("image reference not understood")
  }

  /** A reference whose parts carry no separator at their edges, and that the
    * parser maps to itself. */
  predicate WellFormed(n: NamedRef, parse: ParseAny)
  {
    n.domain != "" && n.path != ""
    && !HasSuffix(n.domain, "/") && !HasPrefix(n.domain, "/")
    && !HasSuffix(n.path, "/") && !HasPrefix(n.path, "/")
    && (n.tag.Some? ==> n.tag.value != "" && !HasSuffix(n.tag.value, ":") && !HasPrefix(n.tag.value, ":"))
    && (n.digest.Some? ==> n.digest.value != "" && !HasSuffix(n.digest.value, "@") && !HasPrefix(n.digest.value, "@"))
    && parse(NamedString(n)) == Ok(Named(n))
  }

  /** Round trip: the image built from a well-formed tagged or digested
    * reference renders back to that reference's canonical text, and caches it. */
  lemma RefToImageRendersBack(n: NamedRef, parse: ParseAny)
    requires WellFormed(n, parse)
    requires n.tag.Some? || n.digest.Some?
    ensures RefToImage(NamedString(n), parse).Ok?
    ensures var i := RefToImage(NamedString(n), parse).value;
            Assemble(i) == NamedString(n) && Render(i, parse) == (NamedString(n), Some(NamedString(n)))
  {
    var i := RefToImage(NamedString(n), parse).value;
    assert Assemble(i) == NamedString(n);
    assert HasPrefix(NamedString(n), n.domain);
  }

  /** Identity used by `In`: registry, repository and tag; the digest is ignored. */
  predicate SameRef(a: Image, b: Image)
  {
    a.registry == b.registry && a.repository == b.repository && a.tag == b.tag
  }

  /** `In`: some element of `s` is the same reference as `i`. */
  function In(i: Image, s: seq<Image>): (r: bool)
    ensures r <==> exists k :: 0 <= k < |s| && SameRef(i, s[k])
  {
    if s == [] then false
    else if SameRef(i, s[0]) then true
    else In(i, s[1..])
  }

  /** `InP`: the same search over a slice of pointers. */
  function InP(i: Image, s: seq<ImagePtr>): (r: bool)
    reads s
    ensures r <==> exists k :: 0 <= k < |s| && SameRef(i, s[k].val)
  {
    if s == [] then false
    else if SameRef(i, s[0].val) then true
    else InP(i, s[1..])
  }
}
