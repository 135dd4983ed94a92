/**
 * The network-facing functions of update-flux-versions.js with the network
 * abstracted away: `fetch` maps a URL to the body that `axios.get` delivers,
 * or to `None` when the request fails (the `.catch` yields `undefined`).
 */
module Lookup {
  import opened Wrappers
  import opened Text
  import opened Patterns

  /** The exceptions that end a run of the script. */
  datatype Crash =
    | NoFluxRequirement(version: string, product: string)  // `null[1]` in getFluxVersion
    | LatestUnavailable                                     // destructuring `undefined` in getLatestFlux
    | NoReleaseTag                                          // `null[1]` in getLatestFlux

  /** The host and organisation every go.mod is fetched from. */
  const RawHost := "https://raw.githubusercontent.com/influxdata/"
  const OssRepo := "influxdb"
  const EnterpriseRepo := "plutonium"

  /** The repository that holds the go.mod of a product: "oss" is InfluxDB, everything else Enterprise. */
  function Repo(product: string): (r: string)
    ensures r == OssRepo <==> product == "oss"
    ensures r == EnterpriseRepo <==> product != "oss"
  {
    if product == "oss" then OssRepo else EnterpriseRepo
  }

  /** The URL of the go.mod of `version` in `repo`. */
  function DepsUrl(version: string, repo: string): (url: string)
  {
    RawHost + repo + "/" + version + "/go.mod"
  }

  /** The URL is the raw-content host, then "<repo>/<version>", then "/go.mod". */
  lemma DepsUrlShape(version: string, repo: string)
    ensures var url := DepsUrl(version, repo);
            && |url| == |RawHost| + |repo| + |version| + 8
            && url[..|RawHost|] == RawHost && url[|url| - 7..] == "/go.mod"
            && url[|RawHost|..|url| - 7] == repo + "/" + version
  {
  }

  /** In `r + "/" + rest`, where `r` has no '/', the first '/' stands right after `r`. */
  lemma FirstSlash(r: string, rest: string)
    requires '/' !in r
    ensures (r + "/" + rest)[|r|] == '/'
    ensures forall k :: 0 <= k < |r| ==> (r + "/" + rest)[k] != '/'
  {
    forall k | 0 <= k < |r| ensures (r + "/" + rest)[k] != '/' {
      assert (r + "/" + rest)[k] == r[k];
    }
  }

  /** Different lookups never share a URL: the URL determines both the version and the repository. */
  lemma DepsUrlInjective(v1: string, r1: string, v2: string, r2: string)
    requires '/' !in r1 && '/' !in r2
    requires DepsUrl(v1, r1) == DepsUrl(v2, r2)
    ensures v1 == v2 && r1 == r2
  {
    var u := DepsUrl(v1, r1);
    DepsUrlShape(v1, r1);
    DepsUrlShape(v2, r2);
    var m1, m2 := r1 + "/" + v1, r2 + "/" + v2;
    assert m1 == u[|RawHost|..|u| - 7] == m2;
    FirstSlash(r1, v1);
    FirstSlash(r2, v2);
    assert m1[|r1|] == '/' && m2[|r2|] == '/';
    assert |r1| == |r2|;
    assert r1 == m1[..|r1|] && r2 == m2[..|r2|];
    assert v1 == m1[|r1| + 1..] && v2 == m2[|r2| + 1..];
  }

  /** getFluxVersion(version, product) */
  function GetFluxVersion(version: string, product: string, fetch: string -> Option<string>): (r: Result<Option<string>, Crash>)
  {
    var body := fetch(DepsUrl(version, Repo(product)));
    if body.None? then Success(None)
    else
      match FluxRequirement(body.value)
      case None => Failure(NoFluxRequirement(version, product))
      case Some(v) => Success(Some(v))
  }

  /**
   * An absent go.mod body gives an absent result without raising; a body
   * without the Flux requirement raises; otherwise the result is the
   * dotted triple the requirement names.
   */
  lemma GetFluxVersionSpec(version: string, product: string, fetch: string -> Option<string>)
    ensures var r := GetFluxVersion(version, product, fetch);
            var body := fetch(DepsUrl(version, Repo(product)));
            && (r == Success(None) <==> body.None?)
            && (r.Failure? <==> body.Some? && FluxRequirement(body.value).None?)
            && (r.Failure? ==> r.error == NoFluxRequirement(version, product))
            && (r.Success? && r.value.Some? ==> body.Some? && FluxRequirement(body.value) == r.value)
            && (r.Success? && r.value.Some? ==> IsDottedTriple(r.value.value))
  {
    var body := fetch(DepsUrl(version, Repo(product)));
    if body.Some? && FluxRequirement(body.value).Some? {
      FluxRequirementSpec(body.value);
      var i :| 0 <= i <= |body.value| && FluxMatchAt(body.value, i) && FluxRequirement(body.value).value == FluxCapture(body.value, i);
      FluxCaptureShape(body.value, i);
    }
  }

  /** getLatestFlux(): the release tag in the redirect path of "releases/latest". */
  function LatestFlux(redirectPath: Option<string>): (r: Result<string, Crash>)
    ensures redirectPath.None? ==> r == Failure(LatestUnavailable)
    ensures redirectPath.Some? ==> (r.Success? <==> ReleaseTag(redirectPath.value).Some?)
    ensures r.Success? ==> |r.value| > 0 && IsDigit(r.value[0])
    ensures r.Failure? && redirectPath.Some? ==> r.error == NoReleaseTag
    ensures redirectPath.Some? && ReleaseTag(redirectPath.value).Some? ==>
              r == Success(ReleaseTag(redirectPath.value).value)
  {
    if redirectPath.None? then Failure(LatestUnavailable)
    else
      match ReleaseTag(redirectPath.value)
      case None => Failure(NoReleaseTag)
      case Some(tag) => Success(tag)
  }

  /** The legacy Enterprise entries and the "master" lookups use the default product and so read InfluxDB's go.mod. */
  lemma DefaultProductReadsInfluxdb(version: string)
    ensures DepsUrl(version, Repo("oss")) == RawHost + "influxdb/" + version + "/go.mod"
  {
  }
}
