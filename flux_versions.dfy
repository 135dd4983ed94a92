/**
 * The version objects of update-flux-versions.js and the block that fills
 * them: `getAllFluxVersions` and `addVersion` write into a version object
 * in place, and the final object has the four keys flux.latest,
 * cloud.current, oss and enterprise.
 */
module FluxVersions {
  import opened Wrappers
  import opened Text
  import opened ProductVersions
  import opened Lookup
  import opened Patterns

  /** A version object: InfluxDB version to Flux version, `None` where the lookup found no go.mod. */
  type VersionMap = map<string, Option<string>>

  /** The lookup of one version's Flux version, which may raise. */
  type FluxLookup = string -> Result<Option<string>, Crash>

  /** `version => getFluxVersion(version, product)` */
  function LookupFor(product: string, fetch: string -> Option<string>): (lookup: FluxLookup) {
    version => GetFluxVersion(version, product, fetch)
  }

  /** Every version in `versions` is looked up without raising. */
  ghost predicate AllResolve(versions: seq<string>, lookup: FluxLookup) {
    forall v :: v in versions ==> lookup(v).Success?
  }

  /** How many lookups of `versions`, in order, complete before the first one that raises. */
  function ResolvedPrefix(versions: seq<string>, lookup: FluxLookup): (k: nat)
    ensures k <= |versions|
    ensures forall j :: 0 <= j < k ==> lookup(versions[j]).Success?
    ensures k < |versions| ==> lookup(versions[k]).Failure?
    decreases |versions|
  {
    if versions == [] || lookup(versions[0]).Failure? then 0
    else 1 + ResolvedPrefix(versions[1..], lookup)
  }

  /** The lookups that complete are exactly those of the first `ResolvedPrefix` versions. */
  lemma ResolvedPrefixSpec(versions: seq<string>, lookup: FluxLookup)
    ensures AllResolve(versions[..ResolvedPrefix(versions, lookup)], lookup)
    ensures ResolvedPrefix(versions, lookup) == |versions| <==> AllResolve(versions, lookup)
  {
    var k := ResolvedPrefix(versions, lookup);
    forall v | v in versions[..k] ensures lookup(v).Success? {
      var j :| 0 <= j < k && versions[j] == v;
    }
    if k < |versions| {
      assert versions[k] in versions;
    } else {
      assert versions[..k] == versions;
    }
  }

  /** `m` after `m[v] = lookup(v)` for every `v` of `versions` in turn. */
  function Assign(m: VersionMap, versions: seq<string>, lookup: FluxLookup): (r: VersionMap)
    requires AllResolve(versions, lookup)
    decreases |versions|
  {
    if versions == [] then m
    else
      var n := |versions| - 1;
      assert AllResolve(versions[..n], lookup) by {
        assert forall v :: v in versions[..n] ==> v in versions;
      }
      Assign(m, versions[..n], lookup)[versions[n] := lookup(versions[n]).value]
  }

  /**
   * After the writes, every version looked up is a key mapped to its lookup
   * result (the last write of a repeated version wins), and every other key
   * keeps its old value.
   */
  lemma {:induction false} AssignSpec(m: VersionMap, versions: seq<string>, lookup: FluxLookup)
    requires AllResolve(versions, lookup)
    ensures Assign(m, versions, lookup).Keys == m.Keys + set v | v in versions
    ensures forall v :: v in versions ==> Assign(m, versions, lookup)[v] == lookup(v).value
    ensures forall k :: k in m && k !in versions ==> Assign(m, versions, lookup)[k] == m[k]
    decreases |versions|
  {
    if versions != [] {
      var n := |versions| - 1;
      var init := versions[..n];
      assert AllResolve(init, lookup) by {
        assert forall v :: v in init ==> v in versions;
      }
      AssignSpec(m, init, lookup);
      assert forall v :: v in versions <==> v in init || v == versions[n] by {
        assert versions == init + [versions[n]];
      }
    }
  }

  /** A version object filled from `versions` and then given one more entry by hand. */
  lemma FilledThenAdded(versions: seq<string>, lookup: FluxLookup, key: string, x: Option<string>)
    requires AllResolve(versions, lookup)
    ensures var m := Assign(map[], versions, lookup)[key := x];
            && m.Keys == (set v | v in versions) + {key}
            && m[key] == x
            && forall v :: v in versions && v != key ==> m[v] == lookup(v).value
  {
    AssignSpec(map[], versions, lookup);
  }

  /** A version object whose entries the script fills in place. */
  class VersionTable {
    var entries: VersionMap

    /** `{}` */
    constructor ()
      ensures entries == map[]
    {
      entries := map[];
    }

    /** addVersion(versionObj, influxdbVer, fluxVer): one key is set, overwriting any prior value; nothing else changes. */
    method AddVersion(influxdbVer: string, fluxVer: Option<string>)
      modifies this
      ensures entries == old(entries)[influxdbVer := fluxVer]
      ensures entries.Keys == old(entries).Keys + {influxdbVer} && entries[influxdbVer] == fluxVer
      ensures forall k :: k in old(entries) && k != influxdbVer ==> entries[k] == old(entries)[k]
    {
      entries := entries[influxdbVer := fluxVer];
    }

    /**
     * getAllFluxVersions(versions, product, this), with `lookup` the
     * `getFluxVersion` of that product: each version in turn is looked up
     * and written; a lookup that raises ends the loop, and the writes made
     * before it stay.
     */
    method GetAllFluxVersions(versions: seq<string>, lookup: FluxLookup) returns (outcome: Result<(), Crash>)
      modifies this
      ensures var k := ResolvedPrefix(versions, lookup);
              AllResolve(versions[..k], lookup) && entries == Assign(old(entries), versions[..k], lookup)
      ensures outcome.Success? <==> AllResolve(versions, lookup)
      ensures outcome.Success? ==> entries == Assign(old(entries), versions, lookup)
      ensures outcome.Failure? ==>
                var k := ResolvedPrefix(versions, lookup);
                k < |versions| && Failure(outcome.error) == lookup(versions[k])
    {
      ResolvedPrefixSpec(versions, lookup);
      ghost var k := ResolvedPrefix(versions, lookup);
      var i := 0;
      while i < |versions|
        invariant 0 <= i <= k
        invariant AllResolve(versions[..i], lookup)
        invariant entries == Assign(old(entries), versions[..i], lookup)
      {
        var fluxVersion := lookup(versions[i]);
        if fluxVersion.Failure? {
          return Failure(fluxVersion.error);
        }
        assert versions[..i + 1][..i] == versions[..i];
        assert AllResolve(versions[..i + 1], lookup) by {
          assert versions[..i + 1] == versions[..i] + [versions[i]];
        }
        entries := entries[versions[i] := fluxVersion.value];
        i := i + 1;
      }
      assert versions[..i] == versions;
      return Success(());
    }
  }

  /** The object written to flux_influxdb_versions.yml. */
  datatype FluxVersionsData = FluxVersionsData(
    fluxLatest: string,            // flux.latest
    cloudCurrent: Option<string>,  // cloud.current
    oss: VersionMap,
    enterprise: VersionMap)

  /** No lookup of the run raises, so the whole object is built. */
  ghost predicate RunCompletes(ossTags: seq<string>, enterpriseTags: seq<string>,
                               fetch: string -> Option<string>, latestPath: Option<string>)
    requires TagsInDomain(ossTags) && TagsInDomain(enterpriseTags)
  {
    && AllResolve(VersionList(ossTags, OssFloor), LookupFor("oss", fetch))
    && AllResolve(VersionList(enterpriseTags, EnterpriseFloor), LookupFor("enterprise", fetch))
    && GetFluxVersion("master", "oss", fetch).Success?
    && GetFluxVersion("1.8", "oss", fetch).Success?
    && GetFluxVersion("1.7", "oss", fetch).Success?
    && LatestFlux(latestPath).Success?
  }

  /** `d` is the object the run builds: both loops, then the manual entries, then `flux.latest` and `cloud.current`. */
  ghost predicate Describes(d: FluxVersionsData, ossTags: seq<string>, enterpriseTags: seq<string>,
                            fetch: string -> Option<string>, latestPath: Option<string>)
    requires TagsInDomain(ossTags) && TagsInDomain(enterpriseTags)
    requires RunCompletes(ossTags, enterpriseTags, fetch, latestPath)
  {
    var master := GetFluxVersion("master", "oss", fetch).value;
    && d.fluxLatest == LatestFlux(latestPath).value
    && d.cloudCurrent == master
    && d.oss == Assign(map[], VersionList(ossTags, OssFloor), LookupFor("oss", fetch))["nightly" := master]
    && d.enterprise == Assign(map[], VersionList(enterpriseTags, EnterpriseFloor), LookupFor("enterprise", fetch))
                         ["1.8" := GetFluxVersion("1.8", "oss", fetch).value]
                         ["1.7" := GetFluxVersion("1.7", "oss", fetch).value]
  }

  /**
   * The script's top-level block: builds both version arrays, fills the two
   * version objects, adds the manual entries and assembles the final object.
   * Any lookup that raises ends the run with nothing built.
   */
  method UpdateFluxVersions(ossTags: seq<string>, enterpriseTags: seq<string>,
                            fetch: string -> Option<string>, latestPath: Option<string>)
    returns (r: Result<FluxVersionsData, Crash>)
    requires TagsInDomain(ossTags) && TagsInDomain(enterpriseTags)
    ensures r.Success? <==> RunCompletes(ossTags, enterpriseTags, fetch, latestPath)
    ensures r.Success? ==> Describes(r.value, ossTags, enterpriseTags, fetch, latestPath)
  {
    var ossVersionArr := VersionList(ossTags, OssFloor);
    var enterpriseVersionArr := VersionList(enterpriseTags, EnterpriseFloor);
    var ossVersions := new VersionTable();
    var enterpriseVersions := new VersionTable();

    var outcome := ossVersions.GetAllFluxVersions(ossVersionArr, LookupFor("oss", fetch));
    if outcome.Failure? {
      return Failure(outcome.error);
    }
    outcome := enterpriseVersions.GetAllFluxVersions(enterpriseVersionArr, LookupFor("enterprise", fetch));
    if outcome.Failure? {
      return Failure(outcome.error);
    }

    var nightly := GetFluxVersion("master", "oss", fetch);
    if nightly.Failure? {
      return Failure(nightly.error);
    }
    ossVersions.AddVersion("nightly", nightly.value);
    var v18 := GetFluxVersion("1.8", "oss", fetch);
    if v18.Failure? {
      return Failure(v18.error);
    }
    enterpriseVersions.AddVersion("1.8", v18.value);
    var v17 := GetFluxVersion("1.7", "oss", fetch);
    if v17.Failure? {
      return Failure(v17.error);
    }
    enterpriseVersions.AddVersion("1.7", v17.value);

    var latest := LatestFlux(latestPath);
    if latest.Failure? {
      return Failure(latest.error);
    }
    var current := GetFluxVersion("master", "oss", fetch);
    r := Success(FluxVersionsData(latest.value, current.value, ossVersions.entries, enterpriseVersions.entries));
  }

  /**
   * The shape of a built object: the oss object holds the OSS versions and
   * "nightly", the enterprise object the Enterprise versions and the legacy
   * "1.8" and "1.7", which are read from InfluxDB's go.mod; cloud.current
   * equals the "nightly" entry, and flux.latest is the release tag of
   * the redirect path, which starts with a digit.
   */
  lemma OutputShape(d: FluxVersionsData, ossTags: seq<string>, enterpriseTags: seq<string>,
                    fetch: string -> Option<string>, latestPath: Option<string>)
    requires TagsInDomain(ossTags) && TagsInDomain(enterpriseTags)
    requires RunCompletes(ossTags, enterpriseTags, fetch, latestPath)
    requires Describes(d, ossTags, enterpriseTags, fetch, latestPath)
    ensures d.oss.Keys == (set v | v in VersionList(ossTags, OssFloor)) + {"nightly"}
    ensures d.oss["nightly"] == d.cloudCurrent
    ensures forall v :: v in VersionList(ossTags, OssFloor) && v != "nightly" ==>
              d.oss[v] == GetFluxVersion(v, "oss", fetch).value
    ensures d.enterprise.Keys == (set v | v in VersionList(enterpriseTags, EnterpriseFloor)) + {"1.8", "1.7"}
    ensures d.enterprise["1.8"] == GetFluxVersion("1.8", "oss", fetch).value
    ensures d.enterprise["1.7"] == GetFluxVersion("1.7", "oss", fetch).value
    ensures forall v :: v in VersionList(enterpriseTags, EnterpriseFloor) && v != "1.8" && v != "1.7" ==>
              d.enterprise[v] == GetFluxVersion(v, "enterprise", fetch).value
    ensures latestPath.Some? && ReleaseTag(latestPath.value).Some? && d.fluxLatest == ReleaseTag(latestPath.value).value
    ensures |d.fluxLatest| > 0 && IsDigit(d.fluxLatest[0])
  {
    var ossArr := VersionList(ossTags, OssFloor);
    var enterpriseArr := VersionList(enterpriseTags, EnterpriseFloor);
    var master := GetFluxVersion("master", "oss", fetch).value;
    FilledThenAdded(ossArr, LookupFor("oss", fetch), "nightly", master);
    var e := Assign(map[], enterpriseArr, LookupFor("enterprise", fetch))["1.8" := GetFluxVersion("1.8", "oss", fetch).value];
    FilledThenAdded(enterpriseArr, LookupFor("enterprise", fetch), "1.8", GetFluxVersion("1.8", "oss", fetch).value);
    assert d.enterprise == e["1.7" := GetFluxVersion("1.7", "oss", fetch).value];
  }
}
