/** pkg/registry's own Image type: the older reference value that the values
  * parser, the chart option, the flow and the cosign verification work on.
  * Every method is a value-receiver computation. */
module RegistryImages {
  import opened Wrappers
  import opened Strs
  import opened GoPath
  import opened Reference

  datatype Image = Image(
    registry: string,
    repository: string,
    tag: string,
    digest: string,
    useDigest: bool,
    patch: Option<bool>)

  const Zero: Image := Image("", "", "", "", false, None)

  /** `RefToImage`: digest references keep their tag and use the digest,
    * tagged references do not use one, anything else is rejected; a parser
    * error is passed on unchanged. */
  function RefToImage(s: string, parse: ParseAny): (r: Result<Image>)
    ensures r.Ok? <==> parse(s).Ok? && parse(s).value.Named?
                       && (parse(s).value.ref.digest.Some? || parse(s).value.ref.tag.Some?)
    ensures r.Ok? ==>
              var n := parse(s).value.ref;
              r.value == Image(n.domain, n.path, n.tag.UnwrapOr(""), n.digest.UnwrapOr(""), n.digest.Some?, None)
    ensures parse(s).Err? ==> r == Err(parse(s).error)
    ensures parse(s).Ok? && r.Err? ==> r.error == "Image reference not understood"
  {
    match parse(s)
    case Err(e) => Err(e)
    case Ok(a) =>
      match a
      case Named(n) =>
        if n.digest.Some? then Ok(Image(n.domain, n.path, n.tag.UnwrapOr(""), n.digest.value, true, None))
        else if n.tag.Some? then Ok(Image(n.domain, n.path, n.tag.value, "", false, None))
        else Err("Image reference not understood")
      case DigestOnly(_) => Err("Image reference not understood")
  }

  /** `TagOrDigest`, with this type's error text. */
  function TagOrDigest(i: Image): (r: Result<string>)
    ensures r.Err? <==> i.tag == "" && i.digest == ""
    ensures r.Err? ==> r.error == "No tag or digest"
    ensures r.Ok? ==> r.value == i.tag + (if i.tag != "" && i.digest != "" then "@" else "") + i.digest
  {
    if i.tag != "" && i.digest != "" then Ok(i.tag + "@" + i.digest)
    else if i.tag == "" && i.digest != "" then Ok(i.digest)
    else if i.tag != "" && i.digest == "" then Ok(i.tag)
    else Err("No tag or digest")
  }

  /** The text `String` hands to the parser: registry and repository joined as
    * a file path, then ":tag" and "@digest" whenever they are non-empty. */
  function RawRef(i: Image): string
  {
    PathJoin([i.registry, i.repository])
    + (if i.tag != "" then ":" + i.tag else "")
    + (if i.digest != "" then "@" + i.digest else "")
  }

  /** For a plain registry host and repository path the join puts exactly one
    * "/" between them. */
  lemma RawRefPlain(i: Image)
    requires PlainPath(i.registry) && PlainPath(i.repository)
    ensures RawRef(i) == i.registry + "/" + i.repository
                         + (if i.tag != "" then ":" + i.tag else "")
                         + (if i.digest != "" then "@" + i.digest else "")
  {
    JoinTwoPlain(i.registry, i.repository);
  }

  /** `String`: the canonical text of the parsed raw reference, or the parser's
    * error. */
  function String(i: Image, parse: ParseAny): (r: Result<string>)
    ensures r.Ok? <==> parse(RawRef(i)).Ok?
    ensures r.Ok? ==> r.value == AnyString(parse(RawRef(i)).value)
  {
    match parse(RawRef(i))
    case Err(e) => Err(e)
    case Ok(res) => Ok(AnyString(res))
  }

  /** Unlike pkg/image, the digest is rendered whether or not it is in use. */
  lemma StringIgnoresUseDigest(i: Image, parse: ParseAny, b: bool)
    ensures String(i, parse) == String(i.(useDigest := b), parse)
    ensures i.digest != "" && !Contains(i.tag, "@") && !Contains(PathJoin([i.registry, i.repository]), "@")
            ==> Contains(RawRef(i), "@" + i.digest)
  {
    if i.digest != "" {
      var pre := PathJoin([i.registry, i.repository]) + (if i.tag != "" then ":" + i.tag else "");
      assert RawRef(i) == pre + ("@" + i.digest) + "";
      assert OccursAt("@" + i.digest, "@" + i.digest, 0);
      ContainsWrapped("@" + i.digest, "@" + i.digest, pre, "");
    }
  }

  /** The normalised name with the first "domain/" removed. */
  function NameWithoutDomain(n: NamedRef): (r: string)
    ensures n.domain != "" ==> r == n.path
  {
    var r := ReplaceFirst(Name(n), n.domain + "/", "");
    if n.domain != "" then
      assert Name(n) == (n.domain + "/") + n.path;
      ReplaceFirstPrefix(Name(n), n.domain + "/");
      r
    else r
  }

  /** `ImageName`: the name without its domain, or an error when the image
    * does not render, does not parse, or parses to a bare digest. */
  function ImageName(i: Image, parse: ParseAny): (r: Result<string>)
    ensures r.Ok? <==> String(i, parse).Ok? && parse(String(i, parse).value).Ok?
                       && parse(String(i, parse).value).value.Named?
    ensures r.Ok? ==> r.value == NameWithoutDomain(parse(String(i, parse).value).value.ref)
  {
    match String(i, parse)
    case Err(e) => Err(e)
    case Ok(ref) =>
      match parse(ref)
      case Err(e) => Err(e)
      case Ok(a) =>
        match a
        case Named(n) => Ok(NameWithoutDomain(n))
        case DigestOnly(_) => Err("Image could not be parsed")
  }

  /** `Elements`: the domain and the first two "/" segments of the name. Both
    * errors are ignored: an image that does not render parses as "", which
    * gives three empty strings, as does a bare digest. A name with fewer than
    * two segments indexes past the end of the split, a runtime panic. */
  function Elements(i: Image, parse: ParseAny): (r: Result<(string, string, string)>)
  {
    var ref := match String(i, parse) case Ok(s) => s case Err(_) => "";
    match parse(ref)
    case Err(_) => Ok(("", "", ""))
    case Ok(a) =>
      match a
      case DigestOnly(_) => Ok(("", "", ""))
      case Named(n) =>
        var parts := Split(NameWithoutDomain(n), "/");
        if |parts| < 2 then Err(PanicIndex) else Ok((n.domain, parts[0], parts[1]))
  }

  /** `Elements` panics exactly on a one-segment name; otherwise it returns the
    * first two segments, which start the name, and drops any further ones. */
  lemma ElementsFirstTwoSegments(i: Image, parse: ParseAny)
    ensures ImageName(i, parse).Ok? ==>
              var full := ImageName(i, parse).value;
              (Elements(i, parse).Err? <==> !Contains(full, "/"))
              && (Elements(i, parse).Ok? ==>
                    var (_, repo, name) := Elements(i, parse).value;
                    HasPrefix(full, repo + "/" + name)
                    && !Contains(repo, "/") && !Contains(name, "/")
                    && (repo + "/" + name == full <==> |Split(full, "/")| == 2))
  {
    if ImageName(i, parse).Ok? {
      FirstTwoSegments(ImageName(i, parse).value);
      SplitPiecesFree(ImageName(i, parse).value, "/");
    }
  }

  lemma FirstTwoSegments(full: string)
    ensures var parts := Split(full, "/");
            (|parts| < 2 <==> !Contains(full, "/"))
            && (|parts| >= 2 ==>
                  HasPrefix(full, parts[0] + "/" + parts[1])
                  && (parts[0] + "/" + parts[1] == full <==> |parts| == 2))
  {
    var parts := Split(full, "/");
    JoinSplit(full, "/");
    if |parts| == 1 {
      SplitPiecesFree(full, "/");
      assert full == parts[0];
    } else {
      JoinFirstTwo(parts);
    }
  }

  lemma JoinFirstTwo(parts: seq<string>)
    requires |parts| >= 2
    ensures var full := Join(parts, "/");
            Contains(full, "/")
            && HasPrefix(full, parts[0] + "/" + parts[1])
            && (parts[0] + "/" + parts[1] == full <==> |parts| == 2)
  {
    var tail := if |parts| == 2 then "" else "/" + Join(parts[2..], "/");
    JoinUnfoldTwo(parts);
    TwoSegmentsThenTail(Join(parts, "/"), parts[0], parts[1], tail);
  }

  lemma JoinUnfoldTwo(parts: seq<string>)
    requires |parts| >= 2
    ensures Join(parts, "/") == parts[0] + "/" + (parts[1] + (if |parts| == 2 then "" else "/" + Join(parts[2..], "/")))
  {
    assert parts[1..][0] == parts[1];
    if |parts| > 2 {
      assert parts[1..][1..] == parts[2..];
    }
  }

  lemma TwoSegmentsThenTail(full: string, a: string, b: string, tail: string)
    requires full == a + "/" + (b + tail)
    ensures Contains(full, "/")
    ensures HasPrefix(full, a + "/" + b)
    ensures a + "/" + b == full <==> tail == ""
  {
    assert full[|a|..|a| + 1] == "/";
    assert OccursAt(full, "/", |a|);
    assert a + "/" + (b + tail) == (a + "/" + b) + tail;
    assert |full| == |a + "/" + b| + |tail|;
  }

  predicate SameRef(a: Image, b: Image)
  {
    a.registry == b.registry && a.repository == b.repository && a.tag == b.tag
  }

  /** `In`: some element of `s` has the same registry, repository and tag. */
  function In(i: Image, s: seq<Image>): (r: bool)
    ensures r <==> exists k :: 0 <= k < |s| && SameRef(i, s[k])
  {
    if s == [] then false
    else if SameRef(i, s[0]) then true
    else In(i, s[1..])
  }
}
