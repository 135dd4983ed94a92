# Flux version updater, modelled in Dafny

`flux-build-scripts/update-flux-versions.js` fills the documentation data file
`data/flux_influxdb_versions.yml`. For each InfluxDB OSS and InfluxDB
Enterprise version listed in the products data file, it records the Flux version
that release ships. It reads that Flux version from the release's `go.mod` on
GitHub. It also records the latest Flux release and the Flux version on
InfluxDB's `master` branch.

This project models the deterministic core of that script. The network is a
parameter: `fetch: string -> Option<string>` maps a URL to the body that the
HTTP request returns, and `None` stands for a failed request (the `.catch`
gives `undefined`). The redirect path of the "latest release" request is given
as an `Option<string>`. `getAllFluxVersions` calls `getFluxVersion` with
its product; the model passes that call in as the function `lookup`, which
the top-level block builds with `FluxVersions.LookupFor(product, fetch)`.

| module | file | what it models |
|---|---|---|
| `Wrappers` | wrappers.dfy | `Option` (JavaScript `undefined`) and `Result` (a raised exception) |
| `Text` | text.dfy | `\d`, the characters a regex `.` does not match, maximal digit runs |
| `ProductVersions` | product_versions.dfy | the version arrays: `replace('v', '')`, the `parseFloat` floor filter, `reverse()` |
| `Patterns` | patterns.dfy | the Flux requirement regex and the release-tag regex, as leftmost-match scanners |
| `Lookup` | lookup.dfy | the repository choice, the go.mod URL, `getFluxVersion`, `getLatestFlux` |
| `FluxVersions` | flux_versions.dfy | the version objects (`addVersion`, `getAllFluxVersions`) and the top-level block |

Behaviour the model keeps as the script has it:

- `replace('v', '')` removes the first `'v'` anywhere in a tag, not only a
  leading one.
- `parseFloat` reads `"1.10"` as 1.1. Such a tag fails both floors (1.7 for
  OSS, 1.9 for Enterprise), so Enterprise 1.10 is dropped.
- In `github.com` the `.` matches any one character (a code point in this
  model) except a line terminator.
- A failed go.mod request gives an absent entry, and the run continues.
- A go.mod body without the Flux requirement raises and ends the run. A
  failed "latest" request also raises and ends the run, and so does a
  redirect path without the tag.
- The legacy Enterprise entries `"1.8"` and `"1.7"` and both `master`
  lookups use the default product `'oss'`. They therefore read InfluxDB's
  go.mod, not the Enterprise repository.

`parseFloat` is modelled as the exact decimal value of the longest
`digits[.digits]` prefix. A tag without such a prefix is NaN and is always
dropped. `ProductVersions.VersionList` requires `TagsInDomain`, the domain
where this model and the IEEE-754 comparison agree:

- the first character, if any, is printable ASCII (`!` to `~`) and is not
  `+`, `-`, `.` or `I`. This rules out leading whitespace, control and
  non-ASCII characters, signs, a leading dot, and every tag starting with
  `I` (`Infinity` among them);
- no exponent after the numeric prefix;
- at most 15 significant digits. Rounding such a decimal to the nearest
  double keeps its order with 1.7 and 1.9.

## Model

| member | source | states |
|---|---|---|
| `Text.DigitRun` | flux-build-scripts/update-flux-versions.js:50 | a `\d+` run is maximal: all digits, and the next character is not a digit |
| `Text.DigitRunUnique` | flux-build-scripts/update-flux-versions.js:50 | any all-digit stretch followed by a non-digit is the run `DigitRun` finds |
| `Text.DigitRunAtLeast` | flux-build-scripts/update-flux-versions.js:50 | a run is at least as long as any all-digit stretch starting where it starts |
| `ProductVersions.StripFirstV` | flux-build-scripts/update-flux-versions.js:78-79 | a tag without `'v'` is unchanged; a tag with one loses exactly one character |
| `ProductVersions.StripFirstVAt` | flux-build-scripts/update-flux-versions.js:78-79 | the first `'v'`, wherever it stands, is cut out and the rest is kept |
| `ProductVersions.StripFirstVExamples` | flux-build-scripts/update-flux-versions.js:78-79 | `"v1.8"` gives `"1.8"`, and `"1.8"` is unchanged |
| `ProductVersions.StripFirstVInside` | flux-build-scripts/update-flux-versions.js:78-79 | `"dev-v1.8"` gives `"de-v1.8"`: only the first `'v'` goes, wherever it stands |
| `ProductVersions.LeadingDecimal` | flux-build-scripts/update-flux-versions.js:78-79 | `parseFloat` is NaN exactly when the tag does not start with a digit |
| `ProductVersions.LeadingDecimalOfFraction` | flux-build-scripts/update-flux-versions.js:78-79 | `a.b…` with maximal digit runs `a`, `b` reads as the exact decimal `a + b / 10^abs(b)`, and the numeric prefix ends after `b` |
| `ProductVersions.LeadingDecimalOfInteger` | flux-build-scripts/update-flux-versions.js:78-79 | a digit run not followed by `.digit` reads as that integer |
| `ProductVersions.OneDigitMinor` | flux-build-scripts/update-flux-versions.js:78-79 | a normalised tag `d.d` is in the domain of the model and reads as `dd / 10` |
| `ProductVersions.OneDigitMinorKept` | flux-build-scripts/update-flux-versions.js:78-79 | a tag `d.d` passes a one-decimal floor exactly when its tenths reach the floor's |
| `ProductVersions.TenthsValue` | flux-build-scripts/update-flux-versions.js:79 | `"1.10"` reads as 110 hundredths, the same number as 1.1 |
| `ProductVersions.TenthsReadAsOne` | flux-build-scripts/update-flux-versions.js:79 | `"1.10"` fails both floors, while `"1.9"` passes the Enterprise floor |
| `ProductVersions.Normalise` | flux-build-scripts/update-flux-versions.js:78-79 | the mapped array has the same length, and each element is its tag without the first `'v'` |
| `ProductVersions.Kept` | flux-build-scripts/update-flux-versions.js:78-79 | the filter test `parseFloat(e) >= floor`: a tag without a numeric prefix (NaN) is never kept, and a tag with one is kept exactly when that value reaches the floor; `OneDigitMinorKept` and `TenthsReadAsOne` state it for concrete tags |
| `ProductVersions.KeepAtLeast` | flux-build-scripts/update-flux-versions.js:78-79 | the filtered array is no longer than its input, and every element it keeps reaches the floor |
| `ProductVersions.KeepAtLeastCounts` | flux-build-scripts/update-flux-versions.js:78-79 | the filter keeps every copy of each element whose leading value reaches the floor, and no copy of any other |
| `ProductVersions.KeepAtLeastCons` | flux-build-scripts/update-flux-versions.js:78-79 | the filter decides the first element alone and filters the rest the same way |
| `ProductVersions.KeepAtLeastIsSubsequence` | flux-build-scripts/update-flux-versions.js:78-79 | the filter keeps the order of the elements it keeps |
| `ProductVersions.Reverse` | flux-build-scripts/update-flux-versions.js:78-79 | `reverse()` keeps the length and puts element `k` at `n-1-k` |
| `ProductVersions.ReversePermutes` | flux-build-scripts/update-flux-versions.js:78-79 | `reverse()` is a permutation |
| `ProductVersions.ReverseReverse` | flux-build-scripts/update-flux-versions.js:78-79 | reversing twice gives back the original array |
| `ProductVersions.ReverseOfThree` | flux-build-scripts/update-flux-versions.js:78-79 | three elements come out in the opposite order |
| `ProductVersions.VersionList` | flux-build-scripts/update-flux-versions.js:78-79 | the array is no longer than the tags, and every version in it reaches the floor |
| `ProductVersions.VersionListCounts` | flux-build-scripts/update-flux-versions.js:78-79 | each normalised tag that reaches the floor occurs in the array as often as among the normalised tags; no other version occurs |
| `ProductVersions.VersionListMembers` | flux-build-scripts/update-flux-versions.js:78-79 | a version is in the array exactly when some tag normalises to it and it reaches the floor |
| `ProductVersions.VersionListOrder` | flux-build-scripts/update-flux-versions.js:78-79 | read back to front, the array is a subsequence of the normalised tags |
| `ProductVersions.VTaggedOneDigitMinor` | flux-build-scripts/update-flux-versions.js:78-79 | a tag `vd.d` loses its leading `'v'` and is in the domain of the model |
| `ProductVersions.OssExampleInDomain` | flux-build-scripts/update-flux-versions.js:78 | `["v1.6","v1.7","v1.8","v2.0"]` is in the domain of the model |
| `ProductVersions.OssExampleNormalised` | flux-build-scripts/update-flux-versions.js:78 | `["v1.6","v1.7","v1.8","v2.0"]` normalises to `["1.6","1.7","1.8","2.0"]` |
| `ProductVersions.OssExampleFiltered` | flux-build-scripts/update-flux-versions.js:78 | floor 1.7 keeps `["1.7","1.8","2.0"]` of those |
| `ProductVersions.OssExample` | flux-build-scripts/update-flux-versions.js:78 | `["v1.6","v1.7","v1.8","v2.0"]` with floor 1.7 gives `["2.0","1.8","1.7"]` |
| `ProductVersions.EnterpriseExample` | flux-build-scripts/update-flux-versions.js:79 | `["v1.9","v1.10"]` with floor 1.9 gives `["1.9"]` |
| `Patterns.TripleAt` | flux-build-scripts/update-flux-versions.js:50 | `\d+\.\d+\.\d+` matches at an index: three non-empty greedy digit runs separated by two dots; `TripleOfRuns` and `TripleOfDotted` state which strings satisfy it |
| `Patterns.TripleEnd` | flux-build-scripts/update-flux-versions.js:50 | a `\d+\.\d+\.\d+` match ends after its start, within the body |
| `Patterns.Leftmost` | flux-build-scripts/update-flux-versions.js:50 | a regex without the `g` flag reports its leftmost match: the result passes the test, no index before it does, and there is none only when no index passes |
| `Patterns.FluxMatchAt` | flux-build-scripts/update-flux-versions.js:50 | the whole Flux pattern matches at an index: `github`, one character that is not a line terminator, `com/influxdata/flux v`, then a triple; `FluxMatchOfLine`, `NoFluxMatchWithoutG` and `FluxMatchComplete` state what it accepts |
| `Patterns.FluxScan` | flux-build-scripts/update-flux-versions.js:50 | the leftmost-match scan of the Flux pattern finds no index exactly when the pattern matches nowhere; otherwise a match with none before it |
| `Patterns.FluxRequirement` | flux-build-scripts/update-flux-versions.js:50 | the `match(...)[1]` of the Flux pattern, as an absent value when nothing matches; its contract is `FluxRequirementSpec` |
| `Patterns.FluxRequirementSpec` | flux-build-scripts/update-flux-versions.js:50 | no result exactly when the pattern matches nowhere; otherwise the capture of the leftmost match |
| `Patterns.FluxCaptureShape` | flux-build-scripts/update-flux-versions.js:50 | the capture is three digit runs joined by two dots, and the last run is maximal |
| `Patterns.FluxMatchComplete` | flux-build-scripts/update-flux-versions.js:50 | wherever the regex can match (any split into three digit runs), the greedy scanner matches too |
| `Patterns.TripleOfDotted` | flux-build-scripts/update-flux-versions.js:50 | a dotted triple placed in the body is read as the digit runs between its dots |
| `Patterns.TripleOfRuns` | flux-build-scripts/update-flux-versions.js:50 | three digit runs joined by dots and not followed by a digit form a triple ending where they end |
| `Patterns.FluxMatchOfLine` | flux-build-scripts/update-flux-versions.js:50 | `github.com/influxdata/flux v` followed by a triple is a match that captures that triple |
| `Patterns.NoFluxMatchWithoutG` | flux-build-scripts/update-flux-versions.js:50 | no match starts at a character other than `'g'` |
| `Patterns.FluxRequirementLeftmost` | flux-build-scripts/update-flux-versions.js:50 | a match with no earlier match is the one captured |
| `Patterns.FluxRequirementOfLine` | flux-build-scripts/update-flux-versions.js:50 | a requirement line after text without `'g'` yields its version triple, whatever non-digit follows |
| `Patterns.FluxRequirementExample` | flux-build-scripts/update-flux-versions.js:50 | a body with `github.com/influxdata/flux v2.3.4` yields `"2.3.4"` |
| `Patterns.FluxRequirementPreRelease` | flux-build-scripts/update-flux-versions.js:50 | `v0.65.0-rc` yields `"0.65.0"` |
| `Patterns.TagAt` | flux-build-scripts/update-flux-versions.js:27 | `/\/v(\d.*)$/` matches at an index: `/v`, a digit, then no line terminator up to the end of the path; `TagScan` and `ReleaseTag` state the leftmost such index |
| `Patterns.TagScan` | flux-build-scripts/update-flux-versions.js:27 | the leftmost-match scan of the tag pattern finds no index exactly when nothing matches; otherwise `/v` + digit with no line terminator after it, and no match before it |
| `Patterns.ReleaseTag` | flux-build-scripts/update-flux-versions.js:27 | no result exactly when nothing matches; otherwise the capture of the leftmost match: the suffix after a `/v` where `TagAt` holds, starting with a digit, with no match before it |
| `Patterns.ReleaseTagOfPath` | flux-build-scripts/update-flux-versions.js:27 | a path `pre + "/v" + tag`, where `pre` has no `'v'` and the tag starts with a digit and has no line terminator, yields the tag |
| `Patterns.ReleaseTagExample` | flux-build-scripts/update-flux-versions.js:27 | `/influxdata/flux/releases/tag/v2.9.1` yields `"2.9.1"` |
| `Lookup.Repo` | flux-build-scripts/update-flux-versions.js:44 | product `'oss'` selects `influxdb`, and every other product selects `plutonium` |
| `Lookup.DepsUrl` | flux-build-scripts/update-flux-versions.js:32 | the go.mod URL of a version in a repository; its shape is `DepsUrlShape` and that it determines both inputs is `DepsUrlInjective` |
| `Lookup.DepsUrlShape` | flux-build-scripts/update-flux-versions.js:32 | the URL is the raw-content host, then `repo/version`, then `/go.mod` |
| `Lookup.DepsUrlInjective` | flux-build-scripts/update-flux-versions.js:32 | two lookups with different versions or repositories never share a URL |
| `Lookup.GetFluxVersion` | flux-build-scripts/update-flux-versions.js:43-54 | `getFluxVersion`: request the go.mod, then extract the requirement; its contract is `GetFluxVersionSpec` |
| `Lookup.GetFluxVersionSpec` | flux-build-scripts/update-flux-versions.js:43-54 | an absent body gives an absent result without raising; a body without the requirement raises; otherwise the result is the leftmost requirement's version triple |
| `Lookup.LatestFlux` | flux-build-scripts/update-flux-versions.js:22-28 | a failed request raises; otherwise the call raises exactly when the path has no release tag, and on success returns exactly the tag `ReleaseTag` finds after `/v`, which starts with a digit |
| `Lookup.DefaultProductReadsInfluxdb` | flux-build-scripts/update-flux-versions.js:43-44 | a lookup with the default product reads `influxdata/influxdb/<version>/go.mod` |
| `FluxVersions.ResolvedPrefix` | flux-build-scripts/update-flux-versions.js:59-66 | counts the lookups that complete before the first one that raises: all before it complete, and the one at it raises |
| `FluxVersions.ResolvedPrefixSpec` | flux-build-scripts/update-flux-versions.js:59-66 | the count equals the length exactly when no lookup raises |
| `FluxVersions.Assign` | flux-build-scripts/update-flux-versions.js:59-66 | the map after the loop's writes, made in order; its contract is `AssignSpec`, and `VersionTable.GetAllFluxVersions` is proved to produce it |
| `FluxVersions.AssignSpec` | flux-build-scripts/update-flux-versions.js:59-66 | after the writes, every looked-up version is a key mapped to its lookup result (repeats included), and other keys keep their values |
| `FluxVersions.VersionTable.constructor` | flux-build-scripts/update-flux-versions.js:82-83 | a new version object is empty |
| `FluxVersions.VersionTable.AddVersion` | flux-build-scripts/update-flux-versions.js:69-71 | sets exactly one key, overwriting any prior value, and changes nothing else |
| `FluxVersions.VersionTable.GetAllFluxVersions` | flux-build-scripts/update-flux-versions.js:59-66 | writes each version's lookup in order; a lookup that raises stops the loop with that exception, and earlier writes stay; without a raise every version is written |
| `FluxVersions.UpdateFluxVersions` | flux-build-scripts/update-flux-versions.js:76-102 | the run builds the object exactly when no lookup raises; the object holds both loops' results, the manual entries, `flux.latest` and `cloud.current` |
| `FluxVersions.OutputShape` | flux-build-scripts/update-flux-versions.js:88-102 | oss keys are the OSS versions plus `nightly`, and enterprise keys the Enterprise versions plus `1.8` and `1.7`; the legacy entries come from InfluxDB's go.mod; `cloud.current` equals `nightly` (because both `master` lookups read the same `fetch`); `flux.latest` is the release tag of the redirect path and starts with a digit |

## Left out

- UTF-16 code units: strings are sequences of Unicode code points. The regular expressions have no `u` flag, so in JavaScript a character outside the Basic Multilingual Plane is two code units, and the `.` in `github.com` matches it here but not in the script: `"github😀com/influxdata/flux v1.2.3"` has a Flux requirement in the model and none in JavaScript.
- The HTTP requests (axios, the `GITHUB_TOKEN` header): they are the `fetch` parameter and the given redirect path.
- The `GITHUB_TOKEN` check and `process.exit(0)`: environment and process control.
- Reading `products.yml` and writing `flux_influxdb_versions.yml`, with its comment header: file I/O. The product tag lists are inputs.
- `yaml.load` and `yaml.dump`: a foreign library. How `js-yaml` serialises (or rejects) an absent value is not part of this model.
- IEEE-754 `parseFloat`: replaced by exact decimals on the domain `TagsInDomain` described above. Whitespace, signs, exponents, `Infinity` and more than 15 significant digits are outside that domain.
- `async`/`await`, the IIFE, `.then` and all `console` output: sequencing and logging with no effect on the data.
- Property names such as `__proto__`, which a JavaScript object treats specially: version objects are modelled as plain maps.
- FluxVersions.OutputShape: `cloud.current` equals the `nightly` entry only because `fetch` is a function. The script makes two separate requests for `master` (lines 92 and 99), and they could return different bodies.
- FluxVersions.AssignSpec: `fetch` is a function, so the same version always gets the same result. The model cannot show a later duplicate overwriting an earlier, different value, or the two `master` lookups disagreeing.
- FluxVersions.UpdateFluxVersions: when the run raises, the contract does not say which lookup raised. Each loop's own contract does.
