/** The shape of a Docker/OCI distribution reference as helmper sees it after
  * `reference.ParseAnyReference` or `reference.ParseNamed`. The parsers
  * themselves (normalisation of "nginx" to "docker.io/library/nginx" and so
  * on) belong to the distribution library and are parameters of every model
  * function that calls them. */
module Reference {
  import opened Wrappers
  import opened Strs

  /** A named reference: a domain, a path below it, and an optional tag and
    * digest. */
  datatype NamedRef = NamedRef(domain: string, path: string, tag: Option<string>, digest: Option<string>)

  /** What `ParseAnyReference` yields: a named reference, or a bare digest
    * (a 64-hex-digit identifier). */
  datatype AnyRef = Named(ref: NamedRef) | DigestOnly(digest: string)

  /** `reference.ParseAnyReference` */
  type ParseAny = string -> Result<AnyRef>

  /** `reference.ParseNamed`: every successful result is a Named reference. */
  type ParseNamed = string -> Result<NamedRef>

  /** `Named.Name()`: the domain and path, joined by "/". */
  function Name(r: NamedRef): string
  {
    if r.domain == "" then r.path else r.domain + "/" + r.path
  }

  /** `Reference.String()`: name, then ":tag", then "@digest". */
  function NamedString(r: NamedRef): string
  {
    Name(r)
    + (if r.tag.Some? then ":" + r.tag.value else "")
    + (if r.digest.Some? then "@" + r.digest.value else "")
  }

  function AnyString(a: AnyRef): string
  {
    match a
    case Named(r) => NamedString(r)
    case DigestOnly(d) => d
  }

  /** `strings.TrimPrefix(r.Name(), reference.Domain(r)+"/")`, the expression
    * both Image types use to drop the domain. */
  function WithoutDomain(r: NamedRef): (p: string)
    ensures r.domain != "" ==> p == r.path
  {
    TrimPrefix(Name(r), r.domain + "/")
  }

  /** The host label of a registry address: the text before the first ":"
    * (the port) and then before the first "." (the domain suffix). */
  function HostLabel(reg: string): (r: string)
    ensures ':' !in r && '.' !in r
    ensures HasPrefix(reg, r)
  {
    var noPorts := Split(reg, ":")[0];
    SplitFirstIsPrefix(reg, ":");
    SplitPiecesFree(reg, ":");
    var noTld := Split(noPorts, ".")[0];
    SplitFirstIsPrefix(noPorts, ".");
    SplitPiecesFree(noPorts, ".");
    NoCharFromNotContains(noPorts, ':');
    NoCharFromNotContains(noTld, '.');
    noTld
  }

  lemma HostLabelDockerIo()
    ensures HostLabel("docker.io") == "docker"
  {
    DockerIoHasNoPort();
    DockerIoBeforeDot();
    HostLabelIs("docker.io", "docker.io", "docker");
  }

  lemma DockerIoHasNoPort()
    ensures Split("docker.io", ":")[0] == "docker.io"
  {
    var s := "docker.io";
    NotContainsChar(s, ':');
    ContainsIffIndex(s, ":");
    SplitNone(s, ":");
  }

  lemma DockerIoBeforeDot()
    ensures Split("docker.io", ".")[0] == "docker"
  {
    var s := "docker.io";
    assert s[..6] == "docker";
    IndexOfChar(s, '.', 6);
    SplitFirst(s, ".", 6);
  }

  lemma HostLabelIs(reg: string, noPorts: string, noTld: string)
    requires Split(reg, ":")[0] == noPorts && Split(noPorts, ".")[0] == noTld
    ensures HostLabel(reg) == noTld
  {
  }
}
