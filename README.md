# helmper, modelled in Dafny

helmper is a command-line tool that mirrors Helm charts, and the container
images they refer to, into OCI registries. It reads a configuration file,
expands chart version ranges, walks each chart's values for image
references, asks every target registry what it already holds, and then
imports what is missing. On the way it can scan images with Trivy, patch
their OS packages with Copacetic, sign and verify images and charts with
cosign, and export the list of artifacts it handled.

This project models the core of that pipeline:

- `Bootstrap` (viper.dfy): loading and validating the configuration.
- `Reference`, `Images`, `GoPath`: image references and file paths.
- `RegistryImages`, `Registries`: registry-side images and the "does the
  registry hold it" queries.
- `HelmValues`, `HelmParser`, `ChartOption`: the values tree, image
  detection in it, and rewriting image references in values.
- `Charts`, `ChartVersion`, `VersionSelect`, `Semver`, `ChartCollection`:
  charts, version ranges, and expanding a collection into one chart per
  version.
- `ChartImport`, `Serialization`, `Sps`: deciding what to import, the
  status file, and the scan, patch and sign flow.
- `Trivy`, `Copa`, `CopaPatch`, `Cosign`: the scanner, patcher and signer
  wrappers.
- `Export`, `Counter`, `TernaryUtil`, `HelmOptions`: artifact export and
  small utilities.

The following are parameters of the model. Each is a function-typed
argument, so every property holds whatever it answers:

- calls into code outside the core: the distribution reference parser,
  semver parsing and sorting, YAML decoding, the Helm and ORAS clients,
  the Trivy, Copacetic and cosign libraries;
- the network and the file system.

A Go map that the code ranges over is a sequence of entries in iteration
order. Properties about such loops are stated for every order. Go code
that changes state through pointers is modelled with classes or explicit
heaps, and its methods are proved against specification functions.

## Model

| member | source | states |
|---|---|---|
| TernaryUtil.Ternary | pkg/util/ternary/ternary.go:4-9 | the result is the first value when the condition holds and the second otherwise |
| TernaryUtil.TernaryIsOneOf | pkg/util/ternary/ternary.go:4-9 | the result is always one of the two arguments |
| TernaryUtil.TernaryIgnoresUnselected | pkg/util/ternary/ternary.go:4-9 | the argument that is not selected has no influence on the result |
| Counter.SafeCounter.constructor | pkg/util/counter/counter.go:11-13 | a new counter has an empty map, so every key reads 0 |
| Counter.SafeCounter.Inc | pkg/util/counter/counter.go:16-21 | the key's count goes up by one and every other key's count stays |
| Counter.SafeCounter.IncTimes | pkg/util/counter/counter_test.go:8-25 | n increments of one key raise its count by exactly n and leave the other keys alone |
| Counter.IncAll | pkg/util/counter/counter.go:16-29 | after a sequence of increments from a new counter, each key reads the number of increments that named it |
| Counter.Count | pkg/util/counter/counter.go:16-29 | a key's count never exceeds the number of increments |
| Counter.CountSnoc | pkg/util/counter/counter.go:16-21 | one more increment adds one to its own key's count and nothing to any other |
| Counter.CountIgnoresOtherKeys | pkg/util/counter/counter.go:24-29 | a key that no increment names reads 0 |
| HelmOptions.Set | pkg/helm/option.go:11-27 | each setter assigns exactly its own field and leaves the other two |
| HelmOptions.Options.constructor | pkg/helm/chartOption.go:162-167 | the defaults are Verbose false, Update false and K8SVersion "1.27.16" |
| HelmOptions.Options.Apply | pkg/helm/option.go:9-27 | calling a setter on the options changes them as `Set` describes |
| HelmOptions.Options.ApplyAll | pkg/helm/chartOption.go:169-171 | the setters loop leaves the options the setters produce applied first to last |
| HelmOptions.SetAllAppend | pkg/helm/chartOption.go:169-171 | applying two runs of setters is applying their concatenation |
| HelmOptions.OtherSettersKeepVerbose | pkg/helm/option.go:11-27 | setters of other fields never change Verbose |
| HelmOptions.OtherSettersKeepK8SVersion | pkg/helm/option.go:11-27 | setters of other fields never change K8SVersion |
| HelmOptions.LastVerboseWins | pkg/helm/chartOption.go:169-171 | the last Verbose setter decides the Verbose flag |
| HelmOptions.LastK8SVersionWins | pkg/helm/chartOption.go:169-171 | the last K8SVersion setter decides the Kubernetes version |
| HelmValues.Lookup | pkg/helm/parser.go:16 | a lookup gives the value stored under the key, or nil when the key is absent |
| HelmValues.AsMap | pkg/helm/parser.go:24 | the map type assertion succeeds exactly on a map and otherwise panics |
| Strs.IndexOf | pkg/helm/chart.go:82 | the result is -1 or the first position where the text occurs |
| Strs.ContainsIffIndex | pkg/helm/chart.go:82 | text contains a piece exactly when the first-occurrence index is not -1 |
| Strs.CutPrefix | pkg/registry/registry.go:102 | the found flag is true exactly when the prefix is there, and then prefix plus rest is the input |
| Strs.TrimPrefix | pkg/image/image.go:144 | a present prefix is removed exactly once, an absent one leaves the text |
| Strs.CutSuffix | pkg/helm/chart.go:92 | the found flag is true exactly when the suffix is there, and then rest plus suffix is the input |
| Strs.ReplaceFirstAbsent | internal/bootstrap/viper.go:228-229 | replacing the first occurrence of absent text changes nothing |
| Strs.ReplaceFirstFound | internal/bootstrap/viper.go:228-229 | the occurrence replaced is the first one: there is an index where it occurs with no occurrence before it, and the result is the text up to there, the replacement, and the rest |
| Strs.ReplaceChar | pkg/helm/chart.go:189 | after replacing every occurrence of a character by text without it, the character is gone, and text without it is unchanged |
| Strs.ReplaceCharIsSplitJoin | pkg/helm/chart.go:189 | replacing every occurrence of a character is splitting at it and joining the pieces with the replacement, as strings.ReplaceAll is defined |
| Strs.Split | pkg/helm/parser.go:15 | splitting on a non-empty separator gives at least one piece |
| Strs.SplitPiecesFree | pkg/helm/parser.go:15 | no piece of a split contains the separator |
| Strs.JoinSplit | pkg/helm/chartOption.go:295 | joining the pieces of a split with the same separator gives back the text |
| Strs.SplitJoin | pkg/helm/chartOption.go:295 | splitting a join recovers the pieces when none contains the separator |
| Strs.ToLowerChar | pkg/copa/patch.go:329 | an upper-case ASCII letter becomes the matching lower-case letter (the same offset as "a" from "A"); any other character is kept |
| Strs.ToLower | pkg/copa/patch.go:329 | lower-casing keeps the length and lower-cases each character |
| GoPath.Clean | pkg/helm/serialization.go:41 | cleaning never yields the empty path |
| GoPath.PathJoin | pkg/helm/serialization.go:41 | the join is empty exactly when every element is empty |
| GoPath.CleanPlain | pkg/helm/serialization.go:41 | a path without empty, "." or ".." elements is already clean |
| GoPath.JoinTwoPlain | pkg/registry/image.go:74 | joining two such paths puts exactly one "/" between them |
| GoPath.JoinThreePlain | pkg/helm/serialization.go:41 | joining the repository URL, chart name and version puts exactly one "/" between each pair |
| Reference.WithoutDomain | pkg/image/image.go:144 | with a domain present, trimming "domain/" from the name leaves the path |
| Reference.HostLabel | pkg/image/image.go:21-23 | the label is a prefix of the registry address and holds neither ":" nor "." |
| Reference.HostLabelIs | pkg/registry/registry.go:104-105 | the label is the text before the first "." of the text before the first ":" |
| Reference.HostLabelDockerIo | pkg/registry/registry.go:104-105 | the registry "docker.io" gets the prefix "docker" |
| Images.IsEmptyIgnoresDigest | pkg/image/image.go:67-69 | emptiness looks only at registry, repository and tag: the digest, its flag and the cache never change it |
| Images.TagOrDigest | pkg/image/image.go:72-83 | the result is an error, "no tag or digest", exactly when both tag and digest are empty |
| Images.TagOrDigestSplits | pkg/image/image.go:72-83 | splitting the result on "@" gives back the tag and the digest when both are set, and the one that is set otherwise |
| Images.CleanString | pkg/image/image.go:87-91 | at most one trailing and one leading copy of the text are cut off, and text with neither is unchanged |
| Images.CleanKeepsOut | pkg/image/image.go:87-91 | cleaning adds no character |
| Images.CleanTrailing | pkg/image/image.go:88 | a single trailing separator is cut off |
| Images.CleanLeading | pkg/image/image.go:89 | a single leading separator is cut off |
| Images.CleanNeither | pkg/image/image.go:87-91 | text with the separator at neither end is unchanged |
| Images.CleanDockerIo | pkg/image/image_test.go:250 | "docker.io/" cleans to "docker.io" |
| Images.CleanLibraryRepository | pkg/image/image_test.go:250 | "/library/hello-world" cleans to "library/hello-world" |
| Images.AssembleCleansDoubledSlash | pkg/image/image_test.go:249-253 | the registry "docker.io/" with the repository "/library/hello-world" assembles to "docker.io/library/hello-world:latest" |
| Images.AssembleIgnoresUnusedDigest | pkg/image/image.go:114-117 | a digest that is not in use never reaches the reference text |
| Images.AssembleDigestMarker | pkg/image/image.go:113-117 | with no "@" in the other fields, the text has an "@" exactly when the digest is in use and non-empty |
| Images.AssembleTagged | pkg/image/image.go:100-111 | an image with a registry and a tag and no digest in use assembles to cleaned registry "/" repository ":" tag |
| Images.Render | pkg/image/image.go:93-132 | a cached text is returned as it is; otherwise the parser's canonical form is returned and cached only when it parses and starts with the registry; otherwise the assembled text is returned and nothing is cached |
| Images.RenderCachedIgnoresFields | pkg/image/image.go:94-96 | once the text is cached, later calls return it whatever the other fields have become |
| Images.RenderIdempotent | pkg/image/image.go:93-132 | a second call returns the same text and leaves the image as the first call left it |
| Images.ImagePtr.constructor | pkg/image/image.go:56-64 | a pointer holds the image it was made from |
| Images.ImagePtr.String | pkg/image/image.go:93-132 | the pointer-receiver call returns the rendered text and writes only the cache back into the image |
| Images.ImageName | pkg/image/image.go:164-176 | the name is an error exactly when the rendered text does not parse as a named reference, and otherwise the name without its domain |
| Images.ElementsPartitionsName | pkg/image/image.go:135-161 | the elements fail exactly when the image name fails; the domain is the parsed domain; one segment goes to the "library" repository; otherwise the repository holds the first one or two segments and repository "/" name is the image name |
| Images.SegmentsPartition | pkg/image/image.go:150-152 | cutting a name's segments after the first m and joining each side gives two names that make up the whole |
| Images.UpdateNameWithPrefixSource | pkg/image/image.go:12-24 | the result fails exactly when the image name fails, and otherwise is the host label of the domain, "/" and the image name |
| Images.RefToImage | pkg/image/image.go:27-54 | a digested reference gives an image that uses its digest and keeps any tag, a tagged one gives an image that does not use a digest, and a parse failure gives "failed to parse reference: " and the cause; nothing else is accepted |
| Images.RefToImageRendersBack | pkg/image/image.go:27-132 | an image made from a well-formed tagged or digested reference renders back to that reference and caches it |
| Images.In | pkg/image/image.go:179-186 | true exactly when some element has the same registry, repository and tag |
| Images.InP | pkg/image/image.go:189-196 | the same search over a slice of pointers, reading the pointed-to images |
| RegistryImages.RefToImage | pkg/registry/image.go:12-49 | a digested reference gives an image that uses its digest and keeps any tag, a tagged one an image that does not use a digest; a parse error is passed on and anything else is "Image reference not understood" |
| RegistryImages.TagOrDigest | pkg/registry/image.go:60-71 | "tag@digest", the digest alone or the tag alone, and "No tag or digest" exactly when both are empty |
| RegistryImages.RawRefPlain | pkg/registry/image.go:74 | for a plain registry host and repository path the join puts exactly one "/" between them |
| RegistryImages.String | pkg/registry/image.go:73-92 | the text is the parser's canonical form of the joined reference, and fails exactly when that does not parse |
| RegistryImages.StringIgnoresUseDigest | pkg/registry/image.go:81-84 | unlike pkg/image, the digest is rendered whether or not it is in use |
| RegistryImages.NameWithoutDomain | pkg/registry/image.go:130 | removing the first "domain/" from the name of a reference with a domain leaves its path |
| RegistryImages.ImageName | pkg/registry/image.go:116-135 | the name succeeds exactly when the image renders and the text parses again, and is then the name without its domain |
| RegistryImages.ElementsFirstTwoSegments | pkg/registry/image.go:94-114 | the elements panic exactly when the name has no "/"; otherwise repository and name are its first two segments, neither contains "/", and together they are the whole name exactly when it has two segments |
| RegistryImages.FirstTwoSegments | pkg/registry/image.go:109 | the first two pieces of a split on "/" start the text, joined by "/" |
| RegistryImages.In | pkg/registry/image.go:137-144 | true exactly when some element has the same registry, repository and tag |
| Registries.GetName | pkg/registry/registry.go:47-49 | the name of a registry is its configured name |
| Registries.LocalReferenceWrapped | pkg/registry/registry.go:71-73 | a URL that counts as local still counts as local inside a longer text |
| Registries.Exist | pkg/registry/registry.go:225-252 | the artifact exists exactly when the fetch reports no error, and the fetch is asked for the reference without "oci://" |
| Registries.RegistryExist | pkg/registry/registry.go:201-203 | a registry's check is the package-level check on URL "/" name with the registry's plain-HTTP setting |
| Registries.Exists | pkg/registry/registry.go:205-223 | the map has one key per registry URL, and each holds the answer of the last registry with that URL, an error counting as absent |
| Registries.AnsweredAll | pkg/registry/registry.go:210-220 | after the loop over every registry, the keys are exactly their URLs and the last answer per URL stands |
| Registries.PushName | pkg/registry/registry.go:104-110 | without PrefixSource the name is unchanged; with it the name gains the host label of the source address |
| Registries.Push | pkg/registry/registry.go:90-133 | the source repository is sourceURL "/" name, plain HTTP exactly when local; the target is the registry URL without "oci://", "/" and the push name, with the registry's plain-HTTP setting and the same tag |
| HelmParser.ConditionMet | pkg/helm/parser.go:12-28 | the loop over the "."-separated segments computes the walk from the root of the values, starting from false |
| HelmParser.Steps | pkg/helm/parser.go:15-26 | the walk meets one value per segment |
| HelmParser.LastScalarCons | pkg/helm/parser.go:17-20 | a leading string or boolean becomes the default for the rest of the walk |
| HelmParser.ConditionIsLastScalar | pkg/helm/parser.go:12-28 | the condition panics exactly when the walk meets a value that is neither string, boolean, map nor nil; otherwise it is the truth of the last string or boolean met, a string counting as true only when it is "true", and false when there is none |
| HelmParser.ConditionReadsResolvedLeaf | pkg/helm/parser.go:12-28 | a path that runs through maps to a string or boolean reads that leaf's truth, whatever came before |
| HelmParser.MissingSegmentKeepsCursor | pkg/helm/parser.go:16-25 | a missing segment leaves the cursor and the flag alone, so the next segment is looked up at the same level |
| HelmParser.SplitDotted | pkg/helm/parser.go:15 | a condition of two dot-free names splits into those two segments |
| HelmParser.SplitTestEnabled | pkg/helm/parser_test.go:14 | "test.enabled" splits into "test" and "enabled" |
| HelmParser.SplitServiceEnabled | pkg/helm/parser_test.go:32 | "service.enabled" splits into "service" and "enabled" |
| HelmParser.ConditionMetTestEnabled | pkg/helm/parser_test.go:13-30 | "test.enabled" reads the boolean stored under test.enabled |
| HelmParser.ConditionMetServicePresent | pkg/helm/parser_test.go:31-39 | "service.enabled" reads the boolean stored under service.enabled |
| HelmParser.WalkNested | pkg/helm/parser.go:15-26 | a two-segment path through a map to a boolean reads that boolean |
| HelmParser.ConditionMetServiceAbsent | pkg/helm/parser_test.go:40-66 | "service.enabled" on values whose only key is neither segment is false, whatever lies below that key |
| HelmParser.WalkMissing | pkg/helm/parser.go:15-26 | a two-segment path whose segments both miss the only key reads false |
| HelmParser.NestedPath | pkg/helm/parser.go:81 | the nested path is the key itself at the top level and otherwise the path, "." and the key |
| HelmParser.EnabledSection | pkg/helm/parser.go:67-77 | the loop over a nested map's entries decides "enabled" as the specification function does, failing when the map assertion on the user values panics |
| HelmParser.FindImageReferencesAcc | pkg/helm/parser.go:31-91 | the traversal returns exactly the specified findings: the level's own image when a recognised key filled it, then what every enabled nested map found, or the first panic |
| HelmParser.FindImageReferences | pkg/helm/parser.go:93-95 | the traversal from the root starts with an empty path |
| HelmParser.ScanLocal | pkg/helm/parser.go:34-60 | a level's image and path list depend only on its own string entries: each field holds the last string under one of its keys, and the paths are path "." key in visiting order; nested maps never touch them |
| HelmParser.VisitLocal | pkg/helm/parser.go:36-60 | one entry changes the level's image and paths by exactly its own share |
| HelmParser.FindLocal | pkg/helm/parser.go:58-60 | an image is reported for a level exactly when some string sits under a recognised key there, with the last such strings and their paths, ahead of the nested findings |
| HelmParser.FindPathsUnder | pkg/helm/parser.go:59-82 | below the top level every reported path starts with the accumulated path and "." |
| HelmParser.ScanPathsUnder | pkg/helm/parser.go:35-88 | the loop over a level keeps every path under the accumulated path and "." |
| HelmParser.ScanSkipsDisabled | pkg/helm/parser.go:79-86 | a nested map turned off by its "enabled" entry contributes nothing: the result is the same as without it |
| HelmParser.EnabledWithoutKey | pkg/helm/parser.go:67 | a nested map without an "enabled" key is descended |
| HelmParser.EnabledStringDecides | pkg/helm/parser.go:71-72 | a string "enabled" entry decides alone: the map is descended exactly when it is "true" |
| HelmParser.EnabledBoolDefersToValues | pkg/helm/parser.go:73-74 | a boolean "enabled" entry is not read itself: the user values under the same key decide, through the condition "enabled" |
| ChartOption.SetKey | pkg/helm/chartOption.go:152 | storing under an existing key keeps the keys in place, makes that key read the new value and leaves every other key's value |
| ChartOption.ReplaceOkIff | pkg/helm/chartOption.go:143-158 | replacing succeeds exactly when the path runs through maps to a string; any other value on the way, or a missing key, is "could not replace value", and running out of path at a map panics |
| ChartOption.ReplaceFrame | pkg/helm/chartOption.go:143-158 | after a successful replace, the first string on the path holds the new text and the value at every path that does not lead to it is unchanged |
| ChartOption.ReachesBelowMap | pkg/helm/chartOption.go:146-148 | below a map-valued key, the path reaches a string exactly when the rest of the path does in that map |
| ChartOption.ReachesAtString | pkg/helm/chartOption.go:150-153 | a string under the first key ends the walk successfully, whatever path remains |
| ChartOption.ReachesNowhere | pkg/helm/chartOption.go:154-155 | a first key holding neither a map nor a string makes the replace fail |
| ChartOption.ReplaceTopLevelString | pkg/helm/chartOption.go:143-158 | a one-key path at a top-level string overwrites exactly that entry |
| ChartOption.ModifyTargetFirstToken | pkg/helm/chartOption.go:292-294 | only the first "{.version}" in the new value becomes the chart version |
| ChartOption.StraddleImpossible | pkg/helm/chartOption.go:294 | no occurrence of the token can start before the first one and overlap it |
| ChartOption.ModifyValues | pkg/helm/chartOption.go:287-301 | the loop over the user's Modify rules applies each rule with a value path in order, stopping at the first failed replace |
| ChartOption.ModifyWithoutPathsKeepsValues | pkg/helm/chartOption.go:289 | rules without a value path leave the values as they are |
| ChartOption.Normalise | pkg/helm/chartOption.go:317-329 | the registry and "repo/name" come from the elements, which panic on a one-segment name; an empty tag becomes the Kubernetes version for "kubectl" and the chart's AppVersion otherwise; a set tag, the digest and its flag stay |
| ChartOption.NormaliseGivesTag | pkg/helm/chartOption.go:321-329 | with a non-empty Kubernetes version and AppVersion, every normalised image has a tag |
| ChartOption.DetermineTag | pkg/helm/chartOption.go:82-104 | the image is available exactly when registry/repo/name exists with its tag, or its digest when the tag is empty, or failing that with "v" and the tag; only in that second case does the tag gain the "v" |
| ChartOption.DetermineTagOnlyPrefixesV | pkg/helm/chartOption.go:97-100 | determining the tag changes nothing but the tag, and that only by a leading "v" |
| ChartOption.SubChartPath | pkg/helm/chartOption.go:106-141 | an archive path (one containing ".tgz") whose unpacking fails gives that error; an embedded dependency, with an empty or "file://" repository, lives under path/charts/name for a directory and under the joined cache directory and chart name, then /charts/name, for an unpacked archive; any other is located remotely |
| ChartOption.ArchiveDependencyInCache | pkg/helm/chartOption.go:109-124 | with a plain cache directory and chart name, an embedded dependency of an unpacked archive is "<cache>/<chart>/charts/<name>", whatever the archive's path |
| ChartOption.EmbeddedIgnoresLocate | pkg/helm/chartOption.go:118-124 | an embedded dependency's path never depends on the remote location |
| ChartOption.SelectSubCharts | pkg/helm/chartOption.go:218-230 | the loop over a chart's dependencies follows, in order, those whose condition holds, and stops at the first panic |
| ChartOption.EnabledDependenciesIff | pkg/helm/chartOption.go:218-230 | when no condition panics, a dependency is followed exactly when it is declared and its condition holds |
| ChartOption.EmptyConditionNotFollowed | pkg/helm/chartOption.go:221 | a dependency without a condition is looked up under the empty key and so is not followed when that key is absent |
| ChartOption.AbsentSomewhere | pkg/helm/chartOption.go:43-53 | the closure answers true exactly when some registry's name reads false (or is missing) in the status map |
| ChartOption.IdentifyImportCandidates | pkg/helm/chartOption.go:26-61 | the nested loop returns exactly the candidate list of the images of all charts in order |
| ChartOption.ScanImages | pkg/helm/chartOption.go:33-57 | the inner loop over one chart's images extends the seen list and the candidates by that chart's images |
| ChartOption.CandidatesNext | pkg/helm/chartOption.go:34-55 | one more image is skipped when an equal one was seen and otherwise is recorded as seen, and added when it is wanted |
| ChartOption.CandidatesAreSelectedSeen | pkg/helm/chartOption.go:26-61 | the candidates are the wanted images among the distinct ones, in order |
| ChartOption.SeenDistinct | pkg/helm/chartOption.go:34-40 | no two seen images have the same registry, repository and tag |
| ChartOption.SeenCovers | pkg/helm/chartOption.go:34-40 | every input image has an equal among the seen ones, and every seen image is an input |
| ChartOption.SelectedIff | pkg/helm/chartOption.go:43-55 | an image is selected exactly when it is among the inputs and wanted |
| ChartOption.AllSelectsEverySeen | pkg/helm/chartOption.go:43 | with all set, every distinct image is a candidate |
| Charts.OciRefStripsScheme | pkg/helm/chart.go:92 | the reference of an OCI chart is the URL without "oci://", then "/" and the chart name |
| Charts.ListedTagsMembers | pkg/helm/chart.go:222 | a tag is listed exactly when the registry has it and, when a last tag is given, it sorts after that text |
| Charts.TagsAfterMembers | pkg/helm/chart.go:222 | the client-side filter keeps exactly the tags that sort after the given text |
| Charts.TagsAfter | pkg/helm/chart.go:222 | the tags the registry returns after the given text |
| Charts.ListedTags | pkg/helm/chart.go:222 | the tag listing as the lookup sees it, or the registry's error |
| Charts.AddEntry | pkg/helm/chart.go:72-75 | the entry is appended exactly when no entry has its name, and afterwards the file has one |
| Charts.AddEntryIdempotent | pkg/helm/chart.go:72-77 | adding the same entry twice adds it once |
| Charts.AddToHelmRepositoryFile | pkg/helm/chart.go:59-78 | a failing load of an existing file is the error; otherwise the file is written, with the entry appended, exactly when no entry had its name, and a failing write is the error |
| Charts.ResolveVersions | pkg/helm/chart.go:80-185 | the loops return what the specification function lists: the range-parse error, the OCI client or tag-listing error, the index-load error, or the versions in range |
| Charts.ResolvedVersionsMembers | pkg/helm/chart.go:113-184 | a text is listed exactly when it is the rendering, "v"-prefixed when the requested version has a "v", of some parsed release that the range accepts |
| Charts.ResolveVersion | pkg/helm/chart.go:187-277 | the loops return what the specification function picks |
| Charts.ResolvedVersionIsFirstMatch | pkg/helm/chart.go:240-276 | the lookup fails exactly when no candidate is a release with the requested major and minor, and otherwise returns the first such candidate, every earlier one being a pre-release or another minor |
| Charts.ResolvedVersionFromLaterTag | pkg/helm/chart.go:222-246 | the OCI lookup's answer always comes from a tag that sorts after the requested version text |
| Charts.ResolvedVersion | pkg/helm/chart.go:240-276 | the OCI version lookup as a value: the first listed release with the requested major and minor |
| Charts.ResolveVersionMissesEarlierTag | pkg/helm/chart.go:189-250 | with "v1.2.*" requested and only "1.2.3" in the registry, the OCI lookup answers "Not found" |
| Charts.StarBecomesZero | pkg/helm/chart.go:189 | "v1.2.*" becomes "v1.2.0" |
| Charts.NothingAfterV | pkg/helm/chart.go:222 | "1.2.3" does not sort after "v1.2.*" |
| Charts.FirstAcceptedIsFirst | pkg/helm/chart.go:240-248 | the early-return search finds nothing exactly when no version is a kept one, and otherwise the first kept one |
| Charts.LatestVersion | pkg/helm/chart.go:279-363 | the loops return what the specification function gives: for OCI, one callback per page of the tag listing, each sorting only its own page's semver tags and overwriting the answer, a page without one panicking |
| Charts.OciLatestIsGreatest | pkg/helm/chart.go:307-324 | the intended OCI lookup: when the sort orders correctly, the answer is the rendering, with the "v" rule, of a parsed tag no other tag of the whole listing exceeds |
| Charts.OciLatestWithoutTagsPanics | pkg/helm/chart.go:319-320 | with no semver tag in the listing the lookup as written panics on its first page |
| Charts.OciLatest | pkg/helm/chart.go:307-324 | the OCI branch as intended: the last sorted semver tag of the whole listing with the "v" rule, or the connection or listing error |
| Charts.TagPages | pkg/helm/chart.go:307 | the pages of a tag listing: at least one, concatenating back to the listing, the whole listing when it fits in one |
| Charts.PageLatest | pkg/helm/chart.go:308-324 | one callback: the greatest semver tag of its page with the "v" rule, or a panic on a page without one |
| Charts.PagesLatest | pkg/helm/chart.go:306-328 | the callbacks in turn, each overwriting the answer, the first panic ending the listing |
| Charts.OciLatestAsWritten | pkg/helm/chart.go:282-331 | the OCI branch as written: the connection or listing error, else what the last page's callback left |
| Charts.PagesLatestReadsLastPage | pkg/helm/chart.go:307-324 | as written, a listing that ends normally answers with its last page's greatest tag, and a last page without a semver tag panics |
| Charts.OciLatestAsWrittenOnePage | pkg/helm/chart.go:307-324 | with the whole listing on one page the code as written agrees with the intended lookup |
| Charts.OciLatestAsWrittenForgetsFirstPage | pkg/helm/chart.go:307-324 | with two pages the first page's tags are forgotten: the answer is the second page's greatest tag, or a panic |
| Charts.OciLatestAsWrittenPanicsOnLastPage | pkg/helm/chart.go:307-324 | a first page with semver tags and a second page without any: the whole listing has a greatest tag, but the code as written panics |
| ChartVersion.VersionsInRange | pkg/helm/chart_version.go:18-46 | the loop lists the index entries in index order that parse, are releases and are in range, rendered with the "v" rule |
| ChartVersion.VersionsInRangeFollowsIndex | pkg/helm/chart_version.go:29-44 | the listing of two runs of entries is the listing of the first followed by that of the second |
| ChartVersion.VersionsInRangeTwoReleases | pkg/helm/chart_version_test.go:23-56 | index entries "1.1.0" then "1.0.0", both in range, list as those two in that order |
| ChartVersion.ResolveVersions | pkg/helm/chart_version.go:48-76 | the method returns what the specification function lists: every "v" is removed and the range parsed; OCI tags come back as the client lists them; a Helm repository is added first, updated when added, then listed |
| ChartVersion.OciVersionsUnfiltered | pkg/helm/chart_version.go:56-63 | for OCI the tags are not filtered at all: whatever the range, every listed tag is returned |
| ChartVersion.RangeTextHasNoV | pkg/helm/chart_version.go:50 | the parsed range text holds no "v" |
| ChartVersion.ResolveVersion | pkg/helm/chart_version.go:78-131 | the method returns what the specification function picks: for OCI the last listed tag or "Not found", for an index the first release in range or "Not Found" |
| ChartVersion.ResolveVersionHeadsVersionsInRange | pkg/helm/chart_version.go:117-130 | for a Helm repository the answer is the first version VersionsInRange lists for the same range, and "Not Found" exactly when it lists none |
| ChartVersion.OciResolveVersionIsLastListed | pkg/helm/chart_version.go:85-96 | for OCI the answer is the last tag ResolveVersions lists |
| ChartVersion.LatestVersion | pkg/helm/chart_version.go:133-188 | the method returns what the specification function gives |
| ChartVersion.LatestVersionNotFoundIsNoError | pkg/helm/chart_version.go:174-187 | when every entry is a strict-semver pre-release the answer is "Not Found" and no error |
| ChartVersion.LatestVersionIsFirstStop | pkg/helm/chart_version.go:176-186 | otherwise the answer is the first entry that is not strict semver, verbatim, or is a release, rendered |
| VersionSelect.ParseTags | pkg/helm/chart.go:115-122 | the loop keeps, in order, the versions of the tags that parse tolerantly |
| VersionSelect.FilterVersions | pkg/helm/chart.go:132-147 | the loop lists the releases the range accepts, rendered with the "v" rule, in order |
| VersionSelect.FilterIndex | pkg/helm/chart.go:162-182 | the loop over index entries parses, skips failures and pre-releases, and lists the rest in range |
| VersionSelect.FirstTag | pkg/helm/chart.go:240-248 | the loop returns the first release the predicate accepts |
| VersionSelect.FirstInIndex | pkg/helm/chart.go:262-274 | the loop over index entries returns the first parsed release the predicate accepts |
| VersionSelect.LatestInIndex | pkg/helm/chart.go:343-360 | the loop starts from "Not Found" and stops at the first entry that is not strict semver or is a release |
| VersionSelect.ParsedAppend | pkg/helm/chart.go:115-122 | parsing two runs of tags is parsing each and concatenating |
| VersionSelect.InRangeAppend | pkg/helm/chart.go:132-147 | the filter distributes over concatenation |
| VersionSelect.ParsedMembers | pkg/helm/chart.go:115-122 | a version is parsed exactly when some tag parses to it |
| VersionSelect.InRangeMembers | pkg/helm/chart.go:132-147 | a text is listed exactly when it is the label of some kept version |
| VersionSelect.InRangePrefix | pkg/helm/chart.go:141-143 | the "v" rule changes each entry by a leading "v" and nothing else |
| VersionSelect.FirstAcceptedHeadsInRange | pkg/helm/chart_version.go:117-130 | the early-return search finds nothing exactly when the filter lists nothing, and otherwise the head of that list |
| VersionSelect.LatestNoneStops | pkg/helm/chart.go:343-362 | when no entry stops the loop, the answer is "Not Found" |
| VersionSelect.LatestFirstStop | pkg/helm/chart.go:345-360 | otherwise it is the text of the first entry that stops it |
| VersionSelect.LastSortedIsGreatest | pkg/helm/chart.go:319-320 | with a sort that orders correctly, the last sorted version is an input and no input exceeds it |
| ChartCollection.ChartPtr.constructor | pkg/helm/chartCollection.go:71-89 | a chart pointer holds the chart it was made from |
| ChartCollection.Values | pkg/helm/chartCollection.go:72 | the chart values behind the pointers, one per pointer, in order |
| ChartCollection.AddToHelmRepositoryConfig | pkg/helm/chartCollection.go:22-34 | the loop returns the first error of adding a non-OCI chart's repository, skipping OCI charts |
| ChartCollection.OciChartsNotAdded | pkg/helm/chartCollection.go:24-26 | a collection of OCI charts adds no repository and cannot fail here |
| ChartCollection.AddErrorIsFirst | pkg/helm/chartCollection.go:23-31 | the error reported is that of the first non-OCI chart whose repository cannot be added |
| ChartCollection.Pull | pkg/helm/chartCollection.go:13-20 | the loop returns the first pull error |
| ChartCollection.PullErrorIff | pkg/helm/chartCollection.go:13-20 | pulling fails exactly when some chart fails, and then with the first failing chart's error |
| ChartCollection.WithVersions | pkg/helm/chartCollection.go:85-89 | one chart per version, equal to the input chart but for its version |
| ChartCollection.Owners | pkg/helm/chartCollection.go:72-90 | every entry of the expansion belongs to an input chart |
| ChartCollection.ExpandAsWritten | pkg/helm/chartCollection.go:72-91 | as written, `c := c` copies the pointer: the result holds each chart's own pointer once per contributed version, and each chart is left with the last version written |
| ChartCollection.ExpandOne | pkg/helm/chartCollection.go:73-89 | one chart's expansion as written is its pointer repeated once per contributed version, left holding the last of them |
| ChartCollection.Expand | pkg/helm/chartCollection.go:70-91 | the intended expansion: one new chart per contributed version, in input order, each carrying its own version |
| ChartCollection.Versions | pkg/helm/chartCollection.go:73-80 | a chart contributes the versions of its range; when the range does not resolve, the one version found for it; when neither resolves, none |
| ChartCollection.Copies | pkg/helm/chartCollection.go:85-89 | the intended loop makes one new chart per version |
| ChartCollection.AsWrittenLeavesLastVersion | pkg/helm/chartCollection.go:85-89 | after the expansion as written, every entry shows the last version its chart resolved to |
| ChartCollection.AliasingLosesVersions | pkg/helm/chartCollection.go:85-89 | a range resolving to 1.1.0 and 1.0.0 expands as intended to both versions, and as written to 1.0.0 twice |
| ChartCollection.ExpandedAppend | pkg/helm/chartCollection.go:72-90 | the expansion keeps input order: it distributes over concatenation |
| ChartCollection.ExpandedEntries | pkg/helm/chartCollection.go:72-90 | every entry of the expansion is its input chart with one of the versions that chart contributed, one entry per contributed version |
| ChartCollection.FallbackContributesOne | pkg/helm/chartCollection.go:74-82 | a chart whose range does not resolve but whose single version does contributes exactly one entry, with that version |
| ChartCollection.UnresolvedDropped | pkg/helm/chartCollection.go:76-79 | a chart for which both lookups fail is skipped |
| ChartCollection.SingleExpanded | pkg/helm/chartCollection.go:72-90 | a single chart expands to its contributed versions |
| ChartCollection.SetupHelm | pkg/helm/chartCollection.go:37-103 | a failing repository add or update is returned with the charts untouched; otherwise each chart is left with its last version, the result holds the chart pointers as the expansion as written lists them, and a failing pull of those charts is the error |
| ChartImport.ExistsInRegistry | pkg/helm/chartImportOption.go:61 | the status one registry reports is its own answer for the reference and tag |
| ChartImport.IdentifyImportCandidates | pkg/helm/chartImportOption.go:28-160 | a failing image name is the error; otherwise every registry gets a status per chart not named "images" and per distinct image, each `all` or absent from that registry |
| ChartImport.PointerKeyedSameFlags | pkg/helm/chartImportOption.go:60-71 | with `&r` and `&c` as keys every key holds one chart, and a (registry, chart, flag) entry exists exactly when the grouped status has it |
| ChartImport.PointerKeyedChartStatus | pkg/helm/chartImportOption.go:59-76 | the chart status map as written: `&r` and `&c` make every (registry, chart) pair a key of its own holding a one-entry map, charts named "images" skipped |
| ChartImport.ChartStatusLoop | pkg/helm/chartImportOption.go:49-80 | the first loop gives each registry the flags of all charts but "images" |
| ChartImport.ImageStatusLoop | pkg/helm/chartImportOption.go:82-133 | the second loop gives each registry the flags of the distinct images, or stops at the first image name that fails |
| ChartImport.ChartImageStatus | pkg/helm/chartImportOption.go:86-132 | one chart's images continue the statuses of the images before them |
| ChartImport.AddImageRow | pkg/helm/chartImportOption.go:105-128 | the inner loop appends the image and its flag to every registry's row |
| ChartImport.ImageStatusSkips | pkg/helm/chartImportOption.go:87-91 | an image already seen changes neither the seen list nor the statuses |
| ChartImport.ImageStatusExtends | pkg/helm/chartImportOption.go:92-128 | a new image whose name parses is remembered and added to every registry |
| ChartImport.ImageStatusFails | pkg/helm/chartImportOption.go:96-99 | a new image whose name fails ends the loop with that error |
| ChartImport.ImageStatusStopsAt | pkg/helm/chartImportOption.go:96-99 | a failure among one chart's images is the failure of the whole loop |
| ChartImport.ImageStatusErrSticks | pkg/helm/chartImportOption.go:96-99 | after a failure further images change nothing |
| ChartImport.ChartFlagsMembers | pkg/helm/chartImportOption.go:49-71 | a chart has a status iff it is listed and not named "images", and the status is `all` or its absence from the registry |
| ChartImport.ImageStatusOk | pkg/helm/chartImportOption.go:82-133 | on success each registry lists exactly the distinct images in first-seen order, each with `all` or its absence under its name |
| ChartImport.ImageStatusLength | pkg/helm/chartImportOption.go:105-119 | on success there is one image row per registry |
| ChartImport.ImageStatusErrIff | pkg/helm/chartImportOption.go:82-99 | the loop fails exactly when some distinct image's name fails |
| ChartImport.ImageNameLast | pkg/helm/chartImportOption.go:96-99 | one more image fails a name check iff it or an earlier one does |
| ChartImport.CountSize | pkg/helm/chartImportOption.go:175-185 | the loop counts the set flags over all registries |
| ChartImport.DependencyChart | pkg/helm/chartImportOption.go:240-248 | a dependency's chart has its wildcard version replaced by the resolved one, and kept when resolution fails |
| ChartImport.Schedule | pkg/helm/chartImportOption.go:211-253 | one registry schedules each flagged chart with its dependency count followed by its remote dependencies; the first chart that fails to load is the error |
| ChartImport.ScheduledErrSticks | pkg/helm/chartImportOption.go:216-220 | once a chart fails to load later charts change nothing |
| ChartImport.PushCharts | pkg/helm/chartImportOption.go:260-296 | the push loop skips "images" and (without `All`) charts the registry has, and stops at the first failed push with its message |
| ChartImport.Run | pkg/helm/chartImportOption.go:162-300 | no flag set means nothing is pushed; otherwise the registries in turn, the first failure ending the run |
| ChartImport.RunRegistry | pkg/helm/chartImportOption.go:210-297 | one registry: schedule, sort by dependency count, push |
| ChartImport.RunAllStep | pkg/helm/chartImportOption.go:210-297 | a registry's failure is the run's failure, its pushes follow the earlier ones |
| ChartImport.RunAllErrSticks | pkg/helm/chartImportOption.go:216-220 | after a failed registry later registries change nothing |
| ChartImport.SizeZeroIff | pkg/helm/chartImportOption.go:175-189 | the workload is zero iff no flag is set |
| ChartImport.CountTrueZeroIff | pkg/helm/chartImportOption.go:178-182 | one registry counts zero iff none of its flags is set |
| ChartImport.PushedCharts | pkg/helm/chartImportOption.go:260-296 | the charts of the pushes, in order |
| ChartImport.PushOutcomeIsPushList | pkg/helm/chartImportOption.go:260-296 | a successful push loop pushes exactly the charts it does not skip, in order, to that registry, modified iff `ModifyRegistry` |
| ChartImport.PushOutcomeCharts | pkg/helm/chartImportOption.go:260-296 | a successful push loop pushes exactly the charts it does not skip, in order |
| ChartImport.PushOutcomeTargets | pkg/helm/chartImportOption.go:277-293 | every push goes to the registry, modified iff `ModifyRegistry` |
| ChartImport.PushListNeeded | pkg/helm/chartImportOption.go:264-275 | every pushed chart is scheduled, not "images", and without `All` absent from the registry |
| ChartImport.PushListAscending | pkg/helm/chartImportOption.go:256-275 | skipping keeps ascending dependency counts |
| ChartImport.RegistryPushesAscending | pkg/helm/chartImportOption.go:255-296 | with a sort that orders by dependency count, a registry's charts are pushed by ascending dependency count |
| ChartImport.DependencyChartsMembers | pkg/helm/chartImportOption.go:225-251 | embedded dependencies are never scheduled; every remote one is, as its resolved chart |
| Serialization.ToSerializableLoop | pkg/helm/serialization.go:24-47 | the loop writes the charts in order, every distinct image text once in first-seen order, and per chart key the texts of its images |
| Serialization.ToSerializable | pkg/helm/serialization.go:24-47 | the written output as a value: the charts, the distinct image texts and the per-chart texts |
| Serialization.EntryStep | pkg/helm/serialization.go:31-45 | one more chart appends the chart and its images and sets its key to its images' texts |
| Serialization.EntryImages | pkg/helm/serialization.go:33-40 | the inner loop adds the images not seen before and lists the texts of all the chart's images |
| Serialization.FirstSeenDistinct | pkg/helm/serialization.go:35-38 | the written images are pairwise different references |
| Serialization.FirstSeenCovers | pkg/helm/serialization.go:30-38 | every image of the data has its reference among the written ones, and every written one comes from the data |
| Serialization.MappingOfLast | pkg/helm/serialization.go:41-43 | a chart whose key no later chart shares is mapped to its own images' texts |
| Serialization.MappingKeys | pkg/helm/serialization.go:41-43 | the mapping holds a key iff some chart has it |
| Serialization.KeysOfMapping | pkg/helm/serialization.go:41-43 | the mapping's keys are exactly the charts' keys |
| Serialization.FindChartFirst | pkg/helm/serialization.go:56-64 | the chart looked up is the first with the key |
| Serialization.FindChartAbsent | pkg/helm/serialization.go:63 | with no chart of the key the zero chart is used |
| Serialization.FromSerializable | pkg/helm/serialization.go:49-82 | one rebuilt entry per mapping key: the chart found for it with its client, and its texts parsed back |
| Serialization.Restore | pkg/helm/serialization.go:56-79 | one rebuilt entry: the chart found for the key, its client and its texts parsed back |
| Serialization.ParseImages | pkg/helm/serialization.go:67-70 | each text is parsed back, a failure giving the zero image |
| Serialization.FindChartLoop | pkg/helm/serialization.go:56-64 | the closure returns the first chart with the key, or the zero chart |
| Serialization.ChartRoundTrip | pkg/helm/serialization.go:24-82 | with distinct chart keys, reading the written data finds each chart under its key with its images' texts and the client its repository calls for |
| Serialization.ImageRoundTrip | pkg/helm/serialization.go:34 | an image read from a well-formed tagged or digested reference is written as that reference and read back as the same image |
| Serialization.SplitStatus | pkg/helm/serialization.go:139-167 | one status map becomes a flag table per registry key, an item table and the registries by key, later entries overwriting |
| Serialization.WriteStatusOutput | pkg/helm/serialization.go:135-179 | the written status is the split of both maps, sharing one registries table |
| Serialization.WriteStatus | pkg/helm/serialization.go:135-179 | the written status as a value: the flag and item tables of both maps and one registries table |
| Serialization.JoinStatus | pkg/helm/serialization.go:207-229 | reading joins every registry key's flags with the stored registry and items, missing ones as nil |
| Serialization.JoinRow | pkg/helm/serialization.go:211-215 | one registry's flags joined with the stored items |
| Serialization.ReadStatusOutput | pkg/helm/serialization.go:194-232 | both status maps are rebuilt from the tables |
| Serialization.RowFlagsLookup | pkg/helm/serialization.go:146-149 | with distinct item keys each item's flag is stored under its key |
| Serialization.StatusTableLookup | pkg/helm/serialization.go:142-152 | with distinct registry keys each registry's row is stored under its key |
| Serialization.AddItemsAgree | pkg/helm/serialization.go:149 | an item table entry is the item whenever keys determine items |
| Serialization.AddItemsHas | pkg/helm/serialization.go:149 | every added item's key is in the table |
| Serialization.AddItemsKeeps | pkg/helm/serialization.go:149 | adding items never removes a key |
| Serialization.ItemTableAgrees | pkg/helm/serialization.go:142-150 | what the item table holds under an item's key is that item, when keys determine items |
| Serialization.ItemTableHas | pkg/helm/serialization.go:142-150 | every written item's key is in the item table |
| Serialization.ItemTableLookup | pkg/helm/serialization.go:142-150 | when keys determine items every written item is stored under its key |
| Serialization.RegistryTableAgrees | pkg/helm/serialization.go:143-144 | the registries table holds the registry under its key when keys determine registries |
| Serialization.RegistryTableHas | pkg/helm/serialization.go:143-144 | every registry key written is in the registries table |
| Serialization.HalfRoundTrip | pkg/helm/serialization.go:139-216 | one status map read back gives the registry, item and flag of every entry under their keys |
| Serialization.WrittenRegistries | pkg/helm/serialization.go:137-159 | every registry of either map is written under its key |
| Serialization.StatusRoundTrip | pkg/helm/serialization.go:135-232 | with distinct, agreeing registry keys and item keys distinct per registry and determining their items, reading what was written gives every registry, chart and image back under its keys with its flag |
| Serialization.AllReadBack | pkg/helm/serialization.go:139-216 | one status map read back holds every entry |
| Serialization.PointerKeyedStatusKeepsOneChart | pkg/helm/serialization.go:142-151 | with a key per (chart, registry) pair, one registry and two charts, the written status keeps only the chart visited last; grouped by registry both survive |
| Serialization.SameRegistryTwice | pkg/helm/serialization.go:142-151 | two one-entry rows of the same registry: the second replaces the first |
| Serialization.OneRegistry | pkg/helm/serialization.go:142-151 | a single two-entry row keeps both keys |
| Sps.DedupProperties | pkg/flow/spsOption.go:56-66 | the collected images are pairwise different references, each one of the flagged images, and every flagged image is represented |
| Sps.DedupOrigin | pkg/flow/spsOption.go:56-66 | the collected images have no repeats and come from the input |
| Sps.DedupCovers | pkg/flow/spsOption.go:56-66 | every flagged image is represented among the collected ones |
| Sps.AddFlagged | pkg/flow/spsOption.go:58-64 | one registry's flagged entries not yet represented are appended |
| Sps.CollectImages | pkg/flow/spsOption.go:56-66 | the collection loop yields the distinct flagged images in first-seen order |
| Sps.LenImages | pkg/flow/spsOption.go:32-47 | `lenImages` is the number of distinct flagged images |
| Sps.FlaggedInMember | pkg/flow/spsOption.go:36-37 | every flagged entry of a registry is among its flagged images |
| Sps.FlaggedMember | pkg/flow/spsOption.go:35-37 | every flagged entry of every registry is among the flagged images |
| Sps.NoCandidatesIff | pkg/flow/spsOption.go:32-51 | there is nothing to do exactly when no entry is flagged |
| Sps.FlaggedOrigin | pkg/flow/spsOption.go:57-59 | every flagged image comes from a flagged entry |
| Sps.FlaggedInOrigin | pkg/flow/spsOption.go:58-59 | every flagged image of a registry comes from one of its flagged entries |
| Sps.ReportPathAgrees | pkg/flow/spsOption.go:113-114 | with a prefix free of "/", the prescan's report name and the path map's report name agree |
| Sps.ReportPathsAgree | pkg/flow/spsOption.go:172-181 | the report handed to the patcher is the one the prescan wrote, and the post-patch report is the one the final scan writes |
| Sps.FileInFolder | pkg/flow/spsOption.go:173-176 | a file name without "/" joined to a plain folder lies in that folder |
| Sps.NamedFileInFolder | pkg/flow/spsOption.go:114 | a file named after an image with "/" replaced lies directly in a plain folder |
| Sps.ReportInFolder | pkg/flow/spsOption.go:173-181 | every report lies directly in the reports folder |
| Sps.TarInFolder | pkg/flow/spsOption.go:182-186 | every tar lies directly in the tars folder |
| Sps.DecidePatchIff | pkg/flow/spsOption.go:70-109 | an image is patched iff its Patch is not explicitly false, it renders, the scan succeeds, the OS is supported, the report lists OS packages and the report is written; with Patch false it is pushed whatever the scanner says |
| Sps.DecideOne | pkg/flow/spsOption.go:71-121 | one image of the prescan loop decides as `Decide` says |
| Sps.Decide | pkg/flow/spsOption.go:70-109 | one image's prescan verdict: skip when Patch is false, else render, scan, check the OS and the os-pkgs results, and write the report |
| Sps.PrescanLoop | pkg/flow/spsOption.go:68-122 | the prescan loop builds the patch and push sets, stopping at the first error |
| Sps.PrescanErrSticks | pkg/flow/spsOption.go:82-88 | after a prescan failure later images change nothing |
| Sps.PrescanSplits | pkg/flow/spsOption.go:68-122 | a prescan without error splits the images between the two sets: together they hold each image as often as the input does, the patch set only images decided for patching, the push set only images decided for pushing |
| Sps.PrescanStep | pkg/flow/spsOption.go:70-109 | each image of a prescan without error goes to the end of exactly the set its decision names, and the other set is unchanged |
| Sps.ExactlyOneSet | pkg/flow/spsOption.go:68-122 | after a prescan without error every image is in exactly one set |
| Sps.FlaggedInIsFlagged | pkg/flow/spsOption.go:57-59 | a registry's flagged images are among the run's flagged images |
| Sps.CandidatesCovered | pkg/flow/spsOption.go:56-122 | after a prescan without error every flagged image is represented in the patch set or the push set |
| Sps.SplitLoop | pkg/flow/spsOption.go:139-150 | the inner filter loop places each flagged entry in the patch map, else in the push map, else nowhere |
| Sps.RegistryMapsLoop | pkg/flow/spsOption.go:125-154 | the filter loop gives every registry its placed images |
| Sps.RegistryMapsShape | pkg/flow/spsOption.go:125-154 | each map has one entry per registry, in order, holding that registry's placed images |
| Sps.SplitPlacement | pkg/flow/spsOption.go:141-146 | an image goes to the patch run iff it is flagged and represented in the patch set, and to the import iff represented in the push set but not the patch set |
| Sps.SplitComplete | pkg/flow/spsOption.go:139-150 | when every flagged image is represented in a set, the two maps together hold the registry's flagged images, each as often as it is flagged |
| Sps.HandOff | pkg/flow/spsOption.go:124-161 | after a prescan without error, per registry the two maps together hold its flagged images; patch only those in the patch set, import only those not |
| Sps.AddFlaggedPaths | pkg/flow/spsOption.go:169-187 | one registry's flagged entries get their three paths |
| Sps.CollectPaths | pkg/flow/spsOption.go:165-189 | the path loop sets the three paths of every flagged image |
| Sps.PathsOverContents | pkg/flow/spsOption.go:165-189 | the path maps hold exactly the images given, each with its own three paths |
| Sps.RunPathsAgree | pkg/flow/spsOption.go:165-189 | the path maps hold every flagged image and nothing else, with the prescan and postscan reports and the tar named as the scans write them |
| Sps.ReportDirectlyIn | pkg/flow/spsOption.go:173-181 | a report path lies directly in the reports folder |
| Sps.TarDirectlyIn | pkg/flow/spsOption.go:183-186 | a tar path lies directly in the tars folder |
| Sps.ImagePathsLocated | pkg/flow/spsOption.go:173-186 | an image's three paths lie directly in their folders |
| Sps.RunPathsLocated | pkg/flow/spsOption.go:165-189 | every path of the maps lies directly in its folder |
| Sps.RemovedInFolders | pkg/flow/spsOption.go:191-205 | with plain folders the clean-up removes only files directly in the reports folder (ReportsClean) or the tars folder (TarsClean), and nothing when neither is set |
| Sps.PushedRefCarriesDigest | pkg/flow/spsOption.go:231 | an image given a digest by the import or the patch run is rendered with "@" and that digest, so the final scan reads the pushed manifest |
| Sps.AsPushed | pkg/registry/importOption.go:67 | the image as the final scan sees it: the digest a push wrote into the shared image replaces its own |
| Sps.AsPushedSources | pkg/flow/spsOption.go:207-231 | the final scan reads the patch run's digest when there is one, else the import run's digest, else the image as it was |
| Sps.ImportedDigests | pkg/flow/spsOption.go:207-216 | the digests the import run writes into the images it pushes |
| Sps.PatchedDigests | pkg/flow/spsOption.go:218-223 | the digests the patch run writes into the images it pushes |
| Sps.PushedDigests | pkg/flow/spsOption.go:207-223 | both, the patch run writing after the import run, so its digest is the one left in the image |
| Sps.AfterPrescan | pkg/flow/spsOption.go:207-263 | after the prescan: the import, then the patch run, then the final scan, each stopping the run at its error |
| Sps.SpsRun | pkg/flow/spsOption.go:30-267 | the whole run as a value: the count, the prescan, the path maps, the clean-up and what follows the prescan |
| Sps.FirstErrorIff | pkg/flow/spsOption.go:226-260 | the final scan succeeds iff every step does, and a failure is the first failing step's error |
| Sps.FirstErrorStep | pkg/flow/spsOption.go:228-256 | an unflagged entry adds nothing, a flagged one adds its step, and a failing step is the registry's result |
| Sps.PostscanItems | pkg/flow/spsOption.go:228-257 | the inner loop of the final scan returns the first failure among the registry's flagged images |
| Sps.PostscanLoop | pkg/flow/spsOption.go:226-260 | the final scan returns the first failure among all flagged images |
| Sps.FirstErrorRegistry | pkg/flow/spsOption.go:227-258 | a registry's first failure, if any, is that of the whole final scan |
| Sps.Run | pkg/flow/spsOption.go:30-267 | the run counts, prescans, builds the maps and paths, imports, patches and scans again, stopping at the first error; the clean-up runs on every return after the path maps exist |
| Sps.NothingFlagged | pkg/flow/spsOption.go:49-51 | with no flagged entry the run does nothing, whatever the oracles |
| Sps.PrescanFailureKeepsFiles | pkg/flow/spsOption.go:158-161 | a prescan failure is returned before the clean-up is registered, removing nothing and reaching neither import nor patch |
| Sps.SuccessfulRunScanned | pkg/flow/spsOption.go:207-263 | a successful run scanned every flagged image again without error, each with the digest its push wrote into it: the patch run's digest for a patched image, else the import run's digest for an imported one |
| Sps.SuccessfulRunPostscan | pkg/flow/spsOption.go:225-263 | a successful run with candidates got through the final scan |
| Sps.SpsRunRemoves | pkg/flow/spsOption.go:191-205 | a run removes the files of its path maps, or nothing |
| Sps.RunRemovesInFolders | pkg/flow/spsOption.go:191-205 | with plain folders a run removes only files directly in the reports or tars folder, as ReportsClean and TarsClean select |
| Copa.SupportedOSName | pkg/copa/main.go:25-32 | every OS name is supported except "photon" |
| Copa.SupportedOS | pkg/copa/util.go:5-16 | a missing OS is supported; otherwise the family decides exactly as the string version does |
| Copa.CopaArgs | pkg/copa/main.go:82-98 | the command line is grown by appends into the fixed start and the non-empty buildkit flags |
| Copa.BuildkitFlagsRoundTrip | pkg/copa/main.go:87-98 | the buildkit flags read back give the buildkit settings |
| Copa.CopaArgsRoundTrip | pkg/copa/main.go:82-98 | the command line starts "patch --timeout 30m --image ref --report path --tag tag", and each buildkit flag is present, in the order addr, cacert, cert, key, iff its field is non-empty, so the line reads back to its inputs |
| Copa.HeapOfAgrees | pkg/copa/main.go:71-72 | the values behind the image pointers, and nothing else |
| Copa.CountSize | pkg/copa/main.go:52-62 | the loop counts the true flags |
| Copa.CountFlagsZeroIff | pkg/copa/main.go:52-66 | the workload is zero exactly when no flag is true |
| Copa.PatchStep | pkg/copa/main.go:72-114 | rendering an image fills its `String` cache and changes nothing else in the images |
| Copa.PatchPass | pkg/copa/main.go:70-115 | the patch pass keeps the set of images |
| Copa.PatchStepNoRepeats | pkg/copa/main.go:75-80 | a step adds to the seen images only one not yet there |
| Copa.PatchPassSeenDistinct | pkg/copa/main.go:70-115 | each distinct image is patched at most once: the images handed to copa are pairwise different references |
| Copa.PatchStepGrows | pkg/copa/main.go:75-80 | a step only appends to the seen images, and its image is among them afterwards |
| Copa.PatchPassOnlyCaches | pkg/copa/main.go:70-115 | the patch pass changes nothing but the `String` caches |
| Copa.PatchPassCovers | pkg/copa/main.go:70-115 | a pass without error patched every image of `Data`: each is the same reference as a patched image |
| Copa.PatchPassLast | pkg/copa/main.go:71-114 | the last step of a pass without error extends the seen images to include the last image |
| Copa.PatchOne | pkg/copa/main.go:73-113 | one body of the patch loop does one step on the shared image |
| Copa.PatchPassNext | pkg/copa/main.go:71-114 | the pass over one more image is one more step |
| Copa.PatchNext | pkg/copa/main.go:72-114 | one iteration of the patch loop, stated against the passes before and after it |
| Copa.PatchLoop | pkg/copa/main.go:70-115 | the patch loop returns the pass's error and leaves the images as the pass does |
| Copa.PatchPassErrSticks | pkg/copa/main.go:102-111 | once the pass has failed, later images change nothing |
| Copa.PushEntry | pkg/copa/main.go:120-185 | pushing an entry changes only its image's digest, and an unflagged entry changes nothing |
| Copa.PushEntryPushed | pkg/copa/main.go:121-183 | a flagged entry pushed without error carries the digest the copy returned, the target being the registry URL without "oci://", a "/" and the image name |
| Copa.PushPass | pkg/copa/main.go:118-187 | the push pass keeps the set of images |
| Copa.PushPassOnlyFlaggedDigests | pkg/copa/main.go:118-187 | only digests change in the push pass, and only those of images some flagged entry lists |
| Copa.PushPassErrSticks | pkg/copa/main.go:124-181 | once the push pass has failed, later entries change nothing |
| Copa.PushPassLastDigest | pkg/copa/main.go:132-183 | after a pass without error, an image's digest is the one its last flagged entry pushed |
| Copa.PushOne | pkg/copa/main.go:121-184 | one body of the push loop does one push on the shared image |
| Copa.PushPassNext | pkg/copa/main.go:119-186 | the pass over one more entry is one more push |
| Copa.PushNext | pkg/copa/main.go:120-186 | one iteration of the push loop, stated against the passes before and after it |
| Copa.PushLoop | pkg/copa/main.go:118-187 | the push loop returns the pass's error and leaves the images as the pass does |
| Copa.RunPassOnlyCachesAndDigests | pkg/copa/main.go:51-192 | a run changes an image only in its `String` cache and its digest, and the digest only of an image listed with a true flag |
| Copa.Run | pkg/copa/main.go:51-192 | nothing happens without a true flag; otherwise the patch pass over every image and, if it succeeds, the push pass over the entries, updating the shared images in place |
| Copa.RunPass | pkg/copa/main.go:51-192 | the outcome of a run as a value: nothing without a true flag, else the patch pass and, if it succeeds, the push pass |
| Copa.PatchImage | pkg/copa/main.go:82-110 | patching one image runs `copa patch` with the report and tag, then `docker save` to its tar path, reporting the first failure |
| CopaPatch.TagNameOnly | pkg/copa/patch.go:89-92 | a name-only reference gets the tag "latest"; a tagged or digested one is kept as it is |
| CopaPatch.PatchTargetCases | pkg/copa/patch.go:84-112 | the start of the patch ends with the parse error, the refusal of a reference that is still untagged, the rejected patched tag, or the patched name built from the reference's name and the defaulted tag |
| CopaPatch.PatchedTagDefaults | pkg/copa/patch.go:100-107 | an explicit patched tag is kept; otherwise the tag with "-patched" appended, or "patched" for an empty tag; never empty |
| CopaPatch.SplitLast | pkg/copa/patch.go:112 | splitting at the last separator gives back the text around it |
| CopaPatch.SplitLastAppend | pkg/copa/patch.go:112 | the text after the last separator is recovered whatever comes before it |
| CopaPatch.PatchedNameRoundTrip | pkg/copa/patch.go:112 | the patched image name splits back at its last ':' into the reference's name and the patched tag |
| CopaPatch.NotErrored | pkg/copa/patch.go:270-274 | the validated updates are never more than the updates |
| CopaPatch.ValidatedManifest | pkg/copa/patch.go:258-274 | the loop copies the metadata and keeps, in order, every update whose package did not fail |
| CopaPatch.NotErroredMember | pkg/copa/patch.go:270-274 | an update is validated iff it is one of the updates and its package did not fail |
| CopaPatch.NotErroredAppend | pkg/copa/patch.go:270-274 | the filter keeps the order of the updates |
| CopaPatch.NotErroredNone | pkg/copa/patch.go:270-274 | with no failed package every update is validated |
| CopaPatch.WritesVexIff | pkg/copa/patch.go:256-281 | with a report, the VEX document is written iff an output path is given and some update's package installed without error |
| CopaPatch.FirstMatch | pkg/copa/patch.go:330-348 | no family matches exactly when none of the substrings occurs |
| CopaPatch.FirstMatchIsFirst | pkg/copa/patch.go:330-348 | a match is the family of a substring that occurs, and no earlier substring occurs |
| CopaPatch.OSTypeIsFirstMatch | pkg/copa/patch.go:322-349 | the OS type is the first match of the lower-cased NAME in the fixed order, `ErrUnsupported` when nothing matches, and the parse error wrapped |
| CopaPatch.OSTypeKnown | pkg/copa/patch.go:330-344 | the family is always one of the seven the function knows |
| CopaPatch.OSVersion | pkg/copa/patch.go:351-359 | the version is VERSION_ID, "" when absent, and the parse error wrapped |
| Cosign.ClassifiersWrapped | pkg/cosign/error.go:35-45 | the classifiers are substring tests: text around a matching message keeps it matching |
| Cosign.SizeLoop | pkg/cosign/verify.go:31-41 | the loop counts the entries that are flagged or verified because VerifyExisting is set |
| Cosign.CountInZeroIff | pkg/cosign/verify.go:33-39 | one registry counts zero iff none of its entries is selected |
| Cosign.SizeZeroIff | pkg/cosign/verify.go:31-47 | the size is zero exactly when no entry is selected: the early return |
| Cosign.ImageCell.constructor | pkg/cosign/verify.go:142 | an image pointer holds the image it was made from |
| Cosign.VerifyEntry | pkg/cosign/verify.go:143-177 | one entry changes only its image's digest |
| Cosign.VerifyEntryVerdict | pkg/cosign/verify.go:143-177 | an unselected entry is untouched; a selected one that does not end the run is verified under the digest it then holds, flagged iff cosign answered "no signatures found"; only an unflagged entry with an empty digest gets a fetched one |
| Cosign.RegPass | pkg/cosign/verify.go:142-178 | the inner loop keeps the set of images |
| Cosign.DataPass | pkg/cosign/verify.go:137-180 | the outer loop keeps the set of images |
| Cosign.VerifyOne | pkg/cosign/verify.go:143-177 | one body of the inner loop does one entry's step on the shared image |
| Cosign.RegPassNext | pkg/cosign/verify.go:142-178 | the inner loop over one more entry is one more step |
| Cosign.RegPassErrSticks | pkg/cosign/verify.go:146-173 | once the inner loop has failed, later entries change nothing |
| Cosign.RegPassFrame | pkg/cosign/verify.go:142-178 | the inner loop changes only the images of its own entries |
| Cosign.RegNext | pkg/cosign/verify.go:142-177 | one iteration of the inner loop, stated against the passes before and after it |
| Cosign.RegLoop | pkg/cosign/verify.go:142-178 | the inner loop writes each selected entry's new flag and leaves the images as the pass does |
| Cosign.DataPassNext | pkg/cosign/verify.go:137-180 | the outer loop over one more registry is one more step |
| Cosign.DataPassErrSticks | pkg/cosign/verify.go:146-173 | once the outer loop has failed, later registries change nothing |
| Cosign.AgreesAfterReg | pkg/cosign/verify.go:137-180 | after a registry's loop the pointers of every registry still hold the recorded images |
| Cosign.DataNext | pkg/cosign/verify.go:137-180 | one iteration of the outer loop puts the registry and its entries in the output |
| Cosign.Run | pkg/cosign/verify.go:29-185 | the run returns what the passes give and leaves the images as they do |
| Cosign.RegPassShape | pkg/cosign/verify.go:142-178 | a registry pass without error keeps the entries' pointers in order and the flags of unselected entries |
| Cosign.RegPassLast | pkg/cosign/verify.go:142-178 | the last step of a registry pass without error gives its entry a flag that an unselected entry keeps |
| Cosign.DataPassShape | pkg/cosign/verify.go:136-180 | a run without error puts every registry in the output, in order, with the same pointers and unselected entries' flags kept |
| Cosign.VerifyRunOutcome | pkg/cosign/verify.go:29-185 | with nothing selected an empty map and no image changed, whatever registry and cosign answer; an error gives an empty map; otherwise every registry is in the output with unselected flags kept |
| Cosign.VerifyRun | pkg/cosign/verify.go:29-185 | the outcome of a verification run as a value: the per-registry verdicts, or the empty result on an error |
| Cosign.OnlyEmptyDigestsFilledTrans | pkg/cosign/verify.go:150-157 | filling only empty digests composes |
| Cosign.RegPassDigests | pkg/cosign/verify.go:150-157 | a registry's loop changes images only by filling empty digests |
| Cosign.DataPassDigests | pkg/cosign/verify.go:150-157 | the run changes images only by filling digests that were empty |
| Cosign.ChartVerdictIff | pkg/cosign/verifyChart.go:150-172 | a selected chart is flagged iff its digest was fetched and cosign answered "no signatures found", and cleared iff cosign accepted it; an unselected one keeps its flag |
| Cosign.ChartVerdict | pkg/cosign/verifyChart.go:150-172 | one chart's verdict from its digest fetch and cosign's answer |
| Cosign.VerifyChartRun | pkg/cosign/verifyChart.go:32-172 | the outcome of a chart verification run as a value |
| Cosign.ChartRegLoop | pkg/cosign/verifyChart.go:145-175 | the inner loop gives each chart its verdict, stopping at the first error |
| Cosign.ChartRegPassErrSticks | pkg/cosign/verifyChart.go:154-168 | once a registry's chart loop has failed, later charts change nothing |
| Cosign.ChartDataPassErrSticks | pkg/cosign/verifyChart.go:154-168 | once the chart run has failed, later registries change nothing |
| Cosign.RunCharts | pkg/cosign/verifyChart.go:30-180 | the chart run gives an empty map when nothing is selected, otherwise the loops, with an empty map on error |
| Cosign.ChartRegPassShape | pkg/cosign/verifyChart.go:145-175 | a registry's chart loop without error keeps its charts in order and the unselected flags |
| Cosign.ChartDataPassShape | pkg/cosign/verifyChart.go:144-175 | a chart run without error puts every registry in the output, in order, with its charts in order and unselected flags kept |
| Cosign.VerifyChartRunNothingSelected | pkg/cosign/verifyChart.go:32-48 | with nothing selected the chart run returns an empty map, whatever registry and cosign answer |
| Trivy.ContainsOsPkgs | pkg/trivy/util.go:5-13 | as written: true iff some result has class "os-pkgs", whether or not it lists vulnerabilities |
| Trivy.HasOsPkgFindings | pkg/trivy/util_test.go:10-44 | as the package's test expects: true iff some "os-pkgs" result lists at least one vulnerability |
| Trivy.OsPkgFindingsAreOsPkgs | pkg/trivy/util.go:5-13 | whatever the test expects to count also counts for the code |
| Trivy.EmptyOsPkgsDisagree | pkg/trivy/util_test.go:33-39 | on an "os-pkgs" result without vulnerabilities the code answers true and the test expects false |
| Trivy.ScanArgs | pkg/trivy/main.go:25-43 | the command line is grown by appends into the fixed start, the set options and the reference |
| Trivy.ScanArgList | pkg/trivy/main.go:25-43 | the command line as the fixed start, the platform, server, insecure and unfixed parts that are set, and the reference |
| Trivy.ScanTailRoundTrip | pkg/trivy/main.go:27-43 | the optional flags after the fixed start read back one by one |
| Trivy.ScanArgsRoundTrip | pkg/trivy/main.go:24-43 | every option that reaches the command line reads back from it: the platform iff an architecture is set, the server iff non-empty, each boolean flag iff set, and the reference last |
| Trivy.ScanArgsShape | pkg/trivy/main.go:25-43 | the command line starts "image --format json" and ends with the reference |
| Trivy.Scan | pkg/trivy/main.go:24-81 | a failed run or decode gives the empty report with its error; otherwise the decoded report, filtered when IgnoreUnfixed is set |
| Trivy.Classes | pkg/trivy/util.go:6-7 | the class of every result, in order, which is all the os-pkgs search looks at |
| Export.CachedStable | pkg/exportArtifacts/main.go:49-51 | rendering a cached image gives the same text, and caching again changes nothing, so the order of the `String` calls is invisible |
| Export.DataLines | pkg/exportArtifacts/main.go:70-77 | one chart-data line per key, in order |
| Export.ImageLines | pkg/exportArtifacts/main.go:46-56 | one image line per (registry, image) pair |
| Export.RegChartLines | pkg/exportArtifacts/main.go:59-67 | one line per chart of a registry, in order |
| Export.ChartLines | pkg/exportArtifacts/main.go:57-68 | one chart line per (registry, chart) pair |
| Export.ImageLine | pkg/exportArtifacts/main.go:49-51 | an image line: the registry, image, repository and tag parts, each with its caption, joined by ", " |
| Export.ChartLine | pkg/exportArtifacts/main.go:60-61 | a chart line: the registry, chart and version parts, each with its caption, joined by ", " |
| Export.ImageLinesCover | pkg/exportArtifacts/main.go:46-56 | every (registry, image) pair has its line among the image lines |
| Export.ImageLinesFrom | pkg/exportArtifacts/main.go:46-56 | every image line belongs to some (registry, image) pair |
| Export.ChartLinesCover | pkg/exportArtifacts/main.go:57-68 | every (registry, chart) pair has its line among the chart lines |
| Export.DataArtifactOf | pkg/exportArtifacts/main.go:104-108 | a chart-data record keeps only its line |
| Export.ImageLineSplits | pkg/exportArtifacts/main.go:49-51 | every image line has at least four segments, so the record indexing never panics; with parts free of ", " the record holds the captioned image, repository and tag parts |
| Export.ChartLineSplits | pkg/exportArtifacts/main.go:60-61 | every chart line has at least three segments; with parts free of ", " the record holds the captioned registry, chart and version parts |
| Export.ImageLinesSplittable | pkg/exportArtifacts/main.go:80-89 | every image line can be split into a record |
| Export.ChartLinesSplittable | pkg/exportArtifacts/main.go:90-100 | every chart line can be split into a record |
| Export.ImageArtifacts | pkg/exportArtifacts/main.go:80-89 | one image record per line, in order |
| Export.ChartArtifacts | pkg/exportArtifacts/main.go:90-100 | one chart record per line, in order |
| Export.ImageArtifactOf | pkg/exportArtifacts/main.go:80-89 | an image record holds segments 1, 3 and 2 of its line as image, tag and repository |
| Export.ChartArtifactOf | pkg/exportArtifacts/main.go:90-100 | a chart record holds segments 1, 0 and 2 of its line as chart, registry and version |
| Export.DataArtifacts | pkg/exportArtifacts/main.go:102-109 | one chart-data record per line, in order |
| Export.DataArtifactsKeepLines | pkg/exportArtifacts/main.go:102-109 | the chart-data records keep every line, in order |
| Export.Visit | pkg/exportArtifacts/main.go:49-51 | one image's line is that of its initial value, and its cache ends filled |
| Export.RegImageLoop | pkg/exportArtifacts/main.go:48-55 | the lines of one registry's images, each cache left filled |
| Export.RegChartLoop | pkg/exportArtifacts/main.go:59-67 | the lines of one registry's charts |
| Export.ImageLoop | pkg/exportArtifacts/main.go:46-56 | the image loop gives the image lines and leaves every image with its cache filled |
| Export.ChartLoop | pkg/exportArtifacts/main.go:57-68 | the chart loop gives the chart lines |
| Export.DataLoop | pkg/exportArtifacts/main.go:70-77 | the chart-data loop gives the chart-data lines |
| Export.ImageRecords | pkg/exportArtifacts/main.go:80-89 | the image records of the lines |
| Export.ChartRecords | pkg/exportArtifacts/main.go:90-100 | the chart records of the lines |
| Export.DataRecords | pkg/exportArtifacts/main.go:102-109 | the chart-data records of the lines |
| Export.Run | pkg/exportArtifacts/main.go:41-134 | the document holds the records of the three line lists; a write error returns no lines, otherwise the image and chart lines; each image's cache ends filled and the lines are those of the images before the run |
| Bootstrap.ConvertToHelmMirrors | internal/bootstrap/viper.go:91-100 | one mirror per section, in order, field for field |
| Bootstrap.MirrorsRoundTrip | internal/bootstrap/viper.go:91-100 | mapping the mirrors back gives the sections: the conversion loses nothing |
| Bootstrap.ConfigPaths | internal/bootstrap/viper.go:114-130 | without "-f" the file is looked for in three search places; with it, only in the named file |
| Bootstrap.Defaults | internal/bootstrap/viper.go:137-141 | a set value wins; otherwise all, verbose and update are false and the Kubernetes version is "1.31.1" |
| Bootstrap.PrepareChartRules | internal/bootstrap/viper.go:158-202 | a chart with both a values file and inline values is rejected; inline values alone are written out and the chart points at the file; with failOnMissingValues a chart with a values file is accepted iff the file exists; nothing else changes and "oci://" selects the OCI client |
| Bootstrap.PrepareChart | internal/bootstrap/viper.go:158-202 | one chart's values preparation as a value |
| Bootstrap.AllOk | internal/bootstrap/viper.go:158-202 | a loop that stops at the first failure gives one value per step when it succeeds |
| Bootstrap.AllOkIff | internal/bootstrap/viper.go:158-202 | the loop succeeds iff every step does, giving every value in order; otherwise the error of the first failed step |
| Bootstrap.AllOkNext | internal/bootstrap/viper.go:297-303 | steps run one by one and the first failure ends the loop |
| Bootstrap.AllOkErrSticks | internal/bootstrap/viper.go:297-303 | once a step has failed, later steps change nothing |
| Bootstrap.ChartSteps | internal/bootstrap/viper.go:158-202 | one preparation per chart, in order |
| Bootstrap.PrepareCharts | internal/bootstrap/viper.go:158-202 | every chart is prepared in order and the first rejected chart ends the load with its error |
| Bootstrap.PubKeyRefAsWrittenRenamesDirectory | internal/bootstrap/viper.go:226-232 | as written, ".keys/cosign.key" gets the public key ".pubs/cosign.key": the directory is renamed and the result does not end in ".pub" |
| Bootstrap.PubKeyRef | internal/bootstrap/viper.go:226-232 | the intended rule: a trailing ".key" becomes ".pub", any other reference is used as it is |
| Bootstrap.PubKeyRefAgrees | internal/bootstrap/viper.go:228-229 | where ".key" occurs only at the end, the code as written agrees with the intended rule |
| Bootstrap.PubKeyRefAsWritten | internal/bootstrap/viper.go:228-229 | the default public key as written: the first ".key" of the key reference becomes ".pub" |
| Bootstrap.CosignDefaultsRules | internal/bootstrap/viper.go:220-232 | cosign settings change only where unset and cosign is enabled: the password becomes COSIGN_PASSWORD, and a key not ending in ".key" is its own public key |
| Bootstrap.CosignDefaultsPubKey | internal/bootstrap/viper.go:226-232 | a missing public key next to a key ending in ".key" is the key with its first ".key" turned into ".pub" |
| Bootstrap.CosignDefaultsTrailingKey | internal/bootstrap/viper.go:226-232 | where the only ".key" is the trailing one, the public key is the key with its extension turned into ".pub" |
| Bootstrap.CosignDefaults | internal/bootstrap/viper.go:220-232 | the cosign defaults: password and public key filled in where unset, when cosign is enabled |
| Bootstrap.CopaCheckedRules | internal/bootstrap/viper.go:234-278 | the Copacetic check fails iff it is enabled and the Trivy address or an output folder is missing, reporting the first missing one; otherwise only an empty buildkit address of an enabled section changes, to the local socket |
| Bootstrap.CopaChecked | internal/bootstrap/viper.go:234-278 | the Copacetic settings check as a value |
| Bootstrap.ImportCheckedRules | internal/bootstrap/viper.go:210-278 | a missing cosign key reference is reported before anything about Copacetic; the check succeeds iff neither fails; the rest of the section is kept |
| Bootstrap.ImportChecked | internal/bootstrap/viper.go:210-278 | the import section check as a value |
| Bootstrap.CheckImport | internal/bootstrap/viper.go:210-278 | the validation, field after field, gives the checked import section |
| Bootstrap.CompleteCosign | internal/bootstrap/viper.go:220-232 | the cosign part completes the password and the public key |
| Bootstrap.CheckCopacetic | internal/bootstrap/viper.go:234-278 | the socket default is set before the required settings are checked |
| Bootstrap.RegistrySectionOf | internal/bootstrap/viper.go:283-292 | the section a registry was read from, field for field |
| Bootstrap.ConvertRegistries | internal/bootstrap/viper.go:282-293 | one registry per section, in order, field for field |
| Bootstrap.ImageSteps | internal/bootstrap/viper.go:297-303 | one reference conversion per image section, in order |
| Bootstrap.ConvertImages | internal/bootstrap/viper.go:296-304 | every reference is converted in order and the first that does not convert ends the load with its error |
| Bootstrap.LoadedImagesIgnorePatch | internal/bootstrap/viper.go:297-302 | the loaded images never carry the section's `patch` setting |
| Bootstrap.Load | internal/bootstrap/viper.go:111-312 | a read error stops the load; the load succeeds iff the file is read and decoded and every chart, the import section and every image pass; then the state holds the defaults, the config, the prepared charts, the checked import section, the registries and the images; a reference that does not convert returns the state without images |

## Left out

- Go map iteration order: every map the code ranges over is a sequence of distinct-key entries. Where the code ranges over the same map twice, as copa's patch and push loops do (pkg/copa/main.go:70-187), both passes use one order, while Go's two `range` loops may visit the entries in different orders.
- Panics: a failed type assertion, an index out of range or a nil dereference is an `Err` whose text starts with "panic:". The model does not unwind the goroutine.
- Strs.ToLower: lowers ASCII letters only. Go's strings.ToLower also lowers the rest of Unicode. The only use is the OS name in pkg/copa/patch.go.
- Cosign.VerifyChartRun: each verification gets its own outcome. In pkg/cosign/verifyChart.go:141 one 10-second context is shared by every call, so later calls can time out because of earlier ones. Clocks are not modelled.
- The per-registry chart counter `sc` in pkg/helm/chartImportOption.go:60-75 and the tables only feed table footers, so they are not modelled. The flag the counter follows is modelled (`ChartImport.ChartFlagsMembers`), and `ChartImport.CountSize` states what the later counting loop computes.
- pkg/helm/chartOption.go:304 calls findImageReferences with three arguments (the chart values, the user's values and `UseCustomValues`), while pkg/helm/parser.go defines it with two. The model follows the two-parameter definition in parser.go; what `UseCustomValues` would change is not modelled.
- Logging, progress bars, spinners and printed tables (fmt, slog, mpb, go-pretty) are output only and are not modelled.
- Semver parsing, constraint matching and sorting come from a library and are parameters (`Semver`). Lemmas about "greatest" and "ascending" take the sortedness of the parameter's output as a hypothesis.
- Go 1.22 per-iteration loop variables are assumed. They decide what the pointer keys `&r` and `&c` in pkg/helm/chartImportOption.go:59-76 and 107-121 denote: one key per (chart, registry) or (image, registry) pair. Under earlier Go versions one variable would be shared by all iterations.
- Serialization.ToSerializable: the call `img.String()` at pkg/helm/serialization.go:34 also fills the image's cached parsed reference in the caller's image. The model computes the same text but does not write the cache back into the caller's images.
- The image map `m2` in pkg/helm/chartImportOption.go is keyed by a pointer per (image, registry) pair, the same way as the chart map. Only the chart side has a lemma showing what the status file loses (`Serialization.PointerKeyedStatusKeepsOneChart`).
- Charts.ResolveVersion: the registry's tag listing is a parameter that returns every tag. The model keeps the tags that sort lexically after the `last` argument (`Charts.TagsAfter`), as the OCI distribution API's `last` parameter does. Paging does not matter here: `vs` is declared outside the callback (pkg/helm/chart.go:113 and 221) and collects the tags of every page.
- ChartOption's `Run` pipeline (pkg/helm/chartOption.go:160-408) is not modelled as one method: its goroutines, channels, errgroup and collectors are concurrency and plumbing. The decisions it takes are modelled one by one: defaults and setters (`HelmOptions`), Modify rules (`ChartOption.ModifyValues`), enabled dependencies (`ChartOption.SelectSubCharts`), sub-chart paths (`ChartOption.SubChartPath`), image detection (`HelmParser`), tag defaulting (`ChartOption.Normalise`) and tag discovery (`ChartOption.DetermineTag`).
- ChartImport.Schedule: pkg/helm/chartImportOption.go:222 writes `c.DepsCount` through the `*Chart` key of `opt.Data`, so the count stays in the caller's charts. The model writes it into a copy that only the scheduled list holds; the write into the caller's charts is not modelled.
- Registry queries, pulls, pushes, credential stores, scans, patches, signatures and file reads and writes are parameters whose answers the model takes as given. Their network and disk effects are not modelled. One `loadIndex` parameter stands for both index loaders: `c.IndexFileLoader.LoadIndexFile` (pkg/helm/chart_version.go:22) and `repo.LoadIndexFile` (pkg/helm/chart_version.go:111 and 169), so `ChartVersion.VersionsInRange` and `ChartVersion.LatestVersion` read the same index as the other lookups.
- Cosign.RegPass: pkg/cosign/verify.go:168 and 175 write each verdict `elem[i]` in place into the caller's inner maps of `vo.Data`. The model (`Cosign.RegPass`, `Cosign.DataPass`) returns new maps instead; the in-place write into the caller's maps, and what another holder of those maps would see, is not modelled.
- viper's WatchConfig and OnConfigChange callback (internal/bootstrap/viper.go) react to later file changes. Only the one-time load is modelled.
- Closing and removing temporary files (the values file written in internal/bootstrap/viper.go, and copa's and cosign's scratch files) is not modelled.
- Cosign.VerifyRun: on an error the Go result is either nil (a name error or a digest fetch error, pkg/cosign/verify.go:146-147 and 153-155) or an empty non-nil map (a failed verification other than "no signatures found", verify.go:171-173). The model returns the empty sequence in every error case, so it does not tell a nil result from an empty one. A nil inner map in the input (verify.go:138-140) is an empty entry list.
- Counter.SafeCounter: calls are taken one at a time. The mutex that makes them so in Go is not modelled.
- Reference parsing and normalisation, semver, YAML and JSON, and os-release parsing come from libraries. They are parameters, and the properties hold for any answer they give.
- The buildkit, errgroup and pipe body of copa's `patchWithContext`, and the local patch path (pkg/copa/patch_local.go, pkg/copa/local.go), are concurrency and external tools. `CopaPatch` models the decisions around them.
- Chart pull, push, locate and modify bodies (pkg/helm/chart.go), the Helm and ORAS clients, and the errgroup push in pkg/registry/importOption.go are network code and not modelled. The digests that push writes into the shared images (pkg/registry/importOption.go:67) are modelled: `Sps.ImportRun` returns them and the final scan reads them (`Sps.AsPushed`).
- Command wiring under cmd/ and internal/, terminal output (internal/output, pkg/report, pkg/myTable, pkg/util/bar, pkg/util/terminal), file and tar helpers (pkg/util/file) and viper's type-cast wrappers (pkg/util/state) are outside the core and not modelled.

## Findings

| source | as written | input that shows it | evidently intended | confidence | as-written member | corrected member |
|---|---|---|---|---|---|---|
| pkg/helm/chartCollection.go:85-89 | `c := c` copies the `*Chart` pointer, so every per-version entry of one chart aliases the same chart, which is left with the last version | a chart whose range resolves to versions 1.1.0 and 1.0.0: the expanded collection holds 1.0.0 twice | one chart copy per resolved version, each keeping its own version | high; not executed | ChartCollection.ExpandAsWritten, ChartCollection.AliasingLosesVersions | ChartCollection.Expand, ChartCollection.ExpandedEntries |
| internal/bootstrap/viper.go:228-229 | the default public key replaces the FIRST ".key" in the private key reference | key reference ".keys/cosign.key" gives ".pubs/cosign.key" | turn only the trailing ".key" extension into ".pub", giving ".keys/cosign.pub" | high; not executed | Bootstrap.PubKeyRefAsWritten, Bootstrap.PubKeyRefAsWrittenRenamesDirectory | Bootstrap.PubKeyRef, Bootstrap.PubKeyRefAgrees |
| pkg/trivy/util.go:5-13 | any result of class "os-pkgs" counts as an OS-package finding, with or without vulnerabilities | one "os-pkgs" result with no vulnerabilities: the code answers true, and the package's own test (pkg/trivy/util_test.go:33-39) expects false | count an "os-pkgs" result only when it lists a vulnerability | medium; not executed | Trivy.ContainsOsPkgs, Trivy.EmptyOsPkgsDisagree | Trivy.HasOsPkgFindings, Trivy.OsPkgFindingsAreOsPkgs |
| pkg/helm/chartImportOption.go:59-76 with pkg/helm/serialization.go:142-151 | the status maps are keyed by pointers to the loop variables, so each (chart, registry) pair is its own key; writing the status file keys rows by registry name and URL, and the last write wins | one registry and two charts: the written status keeps only the chart the map iteration visits last | one row per registry holding every chart's status | medium; not executed | ChartImport.PointerKeyedChartStatus, Serialization.PointerKeyedStatusKeepsOneChart | ChartImport.ChartStatusLoop, Serialization.StatusRoundTrip |
| pkg/helm/chart.go:307-324 | `vs` is declared inside the `repo.Tags` callback, which runs once per page of the tag listing, so each page starts from an empty list and the answer is the greatest semver tag of the last page only | a listing sent as pages ["1.2.0", "2.0.0"] then ["1.0.0"] gives "1.0.0" instead of "2.0.0"; a second page holding only "latest" panics although the first page has semver tags | the greatest semver tag of the whole listing, with `vs` declared before the callback as chart.go:113 and 221 do | medium; not executed | Charts.OciLatestAsWritten, Charts.OciLatestAsWrittenForgetsFirstPage, Charts.OciLatestAsWrittenPanicsOnLastPage | Charts.OciLatest, Charts.OciLatestIsGreatest |

The model of the program follows the code as written where the two
differ: `Bootstrap.CosignDefaults` uses `Bootstrap.PubKeyRefAsWritten`,
`Sps` decides on patching with `Trivy.ContainsOsPkgs`, and
`ChartCollection.SetupHelm` uses `ChartCollection.ExpandAsWritten`, and
`Charts.LatestVersion` uses `Charts.OciLatestAsWritten`. The
status maps are the exception. In memory, the pointer-keyed maps hold the
same flags as maps grouped per registry (`ChartImport.PointerKeyedSameFlags`),
so `ChartImport.IdentifyImportCandidates` builds the grouped form. The loss
happens only when the file is written, and
`Serialization.PointerKeyedStatusKeepsOneChart` shows it. Each corrected
member stands beside its as-written partner, with the property it is meant
to have.
