/** The four ports of the Strait of Gibraltar, the distance analysis of a
    position against them, and the bounded cache of analyses kept by
    `calculateAllPortDistances` (frontend/src/hooks/useCSVInterval.ts). */
module Ports {
  import opened Wrappers
  import opened JsBuiltins

  /** A position this close to its nearest port is in that port. */
  const PortZoneDistanceKm: real := 5.0
  const MaxCacheSize: nat := 10000

  datatype Port = Port(name: string, lat: real, lon: real)

  const Ports: seq<Port> := [
    Port("Algeciras", 36.128740148, -5.439981128),
    Port("Tanger Med", 35.880312709, -5.515627045),
    Port("Ceuta", 35.889, -5.307),
    Port("Gibraltar", 36.147611, -5.365393)]

  /** The floating-point geography taken as given: `calculateDistance`
      (the haversine distance in km between two positions) and
      `toFixed(3)` (the text of a coordinate rounded to three decimals). */
  datatype Geo = Geo(distance: (real, real, real, real) -> real, toFixed3: real -> string)

  /** `PortAnalysisWithMin`: the distance to each port in the order of
      `Ports`, and the nearest port with its distance. */
  datatype PortAnalysis = PortAnalysis(distances: seq<real>, nearestPort: string, nearestDistance: real)

  /** The distances from a position to the ports, in port order. */
  function PortDistances(lat: real, lon: real, geo: Geo): (distances: seq<real>)
    ensures |distances| == |Ports|
  {
    seq(|Ports|, k requires 0 <= k < |Ports| => geo.distance(lat, lon, Ports[k].lat, Ports[k].lon))
  }

  /** Where `entries.reduce((min, current) => current[1] < min[1] ? current
      : min)` stops among the first `n` distances: a later port replaces the
      current choice only when it is strictly closer. */
  function NearestIndex(distances: seq<real>, n: nat): (i: nat)
    requires 1 <= n <= |distances|
    ensures i < n
  {
    if n == 1 then 0
    else
      var m := NearestIndex(distances, n - 1);
      if distances[n - 1] < distances[m] then n - 1 else m
  }

  /** The reduction picks a smallest distance, and of several equal ones the
      first. */
  lemma {:induction false} NearestIndexIsFirstMinimum(distances: seq<real>, n: nat)
    requires 1 <= n <= |distances|
    ensures var i := NearestIndex(distances, n);
      (forall j :: 0 <= j < n ==> distances[i] <= distances[j])
      && (forall j :: 0 <= j < i ==> distances[j] > distances[i])
  {
    if n > 1 {
      NearestIndexIsFirstMinimum(distances, n - 1);
    }
  }

  /** The analysis `calculateAllPortDistances` computes on a cache miss. */
  function Analyze(lat: real, lon: real, geo: Geo): PortAnalysis {
    var distances := PortDistances(lat, lon, geo);
    var i := NearestIndex(distances, |distances|);
    PortAnalysis(distances, Ports[i].name, distances[i])
  }

  /** The nearest distance is the smallest of the four, and the nearest port
      is the first port, in `Ports` order, at that distance. */
  lemma AnalyzeNearest(lat: real, lon: real, geo: Geo)
    ensures var a := Analyze(lat, lon, geo);
      |a.distances| == |Ports|
      && (forall j :: 0 <= j < |Ports| ==> a.distances[j] == geo.distance(lat, lon, Ports[j].lat, Ports[j].lon))
      && (forall j :: 0 <= j < |Ports| ==> a.nearestDistance <= a.distances[j])
      && exists i :: 0 <= i < |Ports| && a.nearestPort == Ports[i].name && a.nearestDistance == a.distances[i]
           && forall j :: 0 <= j < i ==> a.distances[j] > a.nearestDistance
  {
    var distances := PortDistances(lat, lon, geo);
    NearestIndexIsFirstMinimum(distances, |distances|);
    var i := NearestIndex(distances, |distances|);
    assert Analyze(lat, lon, geo).nearestPort == Ports[i].name;
  }

  /** The position is in its nearest port. */
  predicate InPort(a: PortAnalysis) {
    a.nearestDistance <= PortZoneDistanceKm
  }

  /** `${lat.toFixed(3)},${lon.toFixed(3)}`. */
  function CacheKey(lat: real, lon: real, geo: Geo): (key: string)
    ensures key != "" && ',' in key
  {
    var key := geo.toFixed3(lat) + "," + geo.toFixed3(lon);
    assert key[|geo.toFixed3(lat)|] == ',';
    key
  }

  /** `order` lists the keys of a map, each once. */
  ghost predicate Listed(order: seq<string>, keys: set<string>) {
    (forall i, j :: 0 <= i < j < |order| ==> order[i] != order[j])
    && forall k :: k in keys <==> k in order
  }

  lemma ListedEvict(order: seq<string>, keys: set<string>)
    requires Listed(order, keys) && |order| > 0
    ensures Listed(order[1..], keys - {order[0]}) && |keys - {order[0]}| == |keys| - 1
  {
    forall k | k in keys - {order[0]}
      ensures k in order[1..]
    {
      var i :| 0 <= i < |order| && order[i] == k;
      assert order[1..][i - 1] == k;
    }
  }

  /** A listing has as many places as the map has keys. */
  lemma {:induction false} ListedCount(order: seq<string>, keys: set<string>)
    requires Listed(order, keys)
    ensures |keys| == |order|
    decreases |order|
  {
    if order == [] {
      assert forall k :: k !in keys;
      assert keys == {};
    } else {
      ListedEvict(order, keys);
      ListedCount(order[1..], keys - {order[0]});
    }
  }

  lemma ListedAppend(order: seq<string>, keys: set<string>, key: string)
    requires Listed(order, keys) && key !in keys
    ensures Listed(order + [key], keys + {key})
  {
  }

  /** Each entry is the analysis of the position recorded for it, filed
      under that position's key. */
  ghost predicate Coherent(entries: map<string, PortAnalysis>, origin: map<string, (real, real)>, geo: Geo) {
    origin.Keys == entries.Keys
    && forall k :: k in entries ==>
         CacheKey(origin[k].0, origin[k].1, geo) == k && entries[k] == Analyze(origin[k].0, origin[k].1, geo)
  }

  /** No key is the empty text. */
  ghost predicate KeysNonEmpty(keys: set<string>) {
    forall k :: k in keys ==> k != ""
  }

  lemma CoherentRemove(entries: map<string, PortAnalysis>, origin: map<string, (real, real)>, geo: Geo, key: string)
    requires Coherent(entries, origin, geo)
    ensures Coherent(entries - {key}, origin - {key}, geo)
  {
    assert (entries - {key}).Keys == entries.Keys - {key};
  }

  lemma CoherentAdd(entries: map<string, PortAnalysis>, origin: map<string, (real, real)>, geo: Geo, lat: real, lon: real)
    requires Coherent(entries, origin, geo)
    ensures var key := CacheKey(lat, lon, geo);
      Coherent(entries[key := Analyze(lat, lon, geo)], origin[key := (lat, lon)], geo)
  {
    var key := CacheKey(lat, lon, geo);
    assert entries[key := Analyze(lat, lon, geo)].Keys == entries.Keys + {key};
  }

  /** The module-level `distanceCache` Map. `entries` are its entries and
      `order` its keys in insertion order, the order in which `keys()`
      yields them. `origin` records, for the proof only, the position each
      entry was computed for. */
  class DistanceCache {
    const geo: Geo
    var entries: map<string, PortAnalysis>
    var order: seq<string>
    ghost var origin: map<string, (real, real)>

    /** At most `MaxCacheSize` entries; `order` lists each key once; each
        entry is the analysis of a position whose key it is filed under. */
    ghost predicate Valid()
      reads this
    {
      |order| <= MaxCacheSize && Listed(order, entries.Keys) && KeysNonEmpty(entries.Keys)
      && Coherent(entries, origin, geo)
    }

    constructor (geo: Geo)
      ensures Valid() && this.geo == geo && entries == map[] && order == []
    {
      this.geo := geo;
      entries := map[];
      order := [];
      origin := map[];
    }

    /** `calculateAllPortDistances(lat, lon)`. A hit returns the stored
        analysis and changes nothing. A miss computes the analysis, first
        evicts the oldest key when the cache is full, and stores the
        analysis under the newest key. Either way the result is the analysis
        of a position with the same key. */
    method Lookup(lat: real, lon: real) returns (analysis: PortAnalysis)
      requires Valid()
      modifies this
      ensures Valid()
      ensures var key := CacheKey(lat, lon, geo);
        if key in old(entries) then
          analysis == old(entries)[key] && entries == old(entries) && order == old(order)
        else
          var full := |old(order)| >= MaxCacheSize;
          analysis == Analyze(lat, lon, geo)
          && order == (if full then old(order)[1..] else old(order)) + [key]
          && entries == (if full then old(entries) - {old(order)[0]} else old(entries))[key := analysis]
      ensures var key := CacheKey(lat, lon, geo);
        key in origin && CacheKey(origin[key].0, origin[key].1, geo) == key
        && analysis == Analyze(origin[key].0, origin[key].1, geo)
    {
      var cacheKey := CacheKey(lat, lon, geo);
      if cacheKey in entries {
        return entries[cacheKey];
      }
      var distances := PortDistances(lat, lon, geo);
      var i := NearestIndex(distances, |distances|);
      analysis := PortAnalysis(distances, Ports[i].name, distances[i]);
      if |order| >= MaxCacheSize {
        CoherentRemove(entries, origin, geo, order[0]);
        EvictOldest();
      }
      CoherentAdd(entries, origin, geo, lat, lon);
      Store(cacheKey, analysis, lat, lon);
    }

    /** The eviction step of a miss on a full cache: the oldest key goes
        (its text is never empty, so the guard on it always passes). */
    method EvictOldest()
      requires Listed(order, entries.Keys) && KeysNonEmpty(entries.Keys) && |order| >= MaxCacheSize
      modifies this
      ensures Listed(order, entries.Keys) && KeysNonEmpty(entries.Keys) && |order| == |old(order)| - 1
      ensures entries == old(entries) - {old(order)[0]} && order == old(order)[1..]
      ensures origin == old(origin) - {old(order)[0]}
    {
      var firstKey := order[0];
      assert firstKey in entries;
      if firstKey != "" {
        ListedEvict(order, entries.Keys);
        assert (entries - {firstKey}).Keys == entries.Keys - {firstKey};
        entries := entries - {firstKey};
        order := order[1..];
        origin := origin - {firstKey};
      }
    }

    /** The insertion step of a miss: the new key goes last. */
    method Store(key: string, analysis: PortAnalysis, ghost lat: real, ghost lon: real)
      requires Listed(order, entries.Keys) && KeysNonEmpty(entries.Keys) && key !in entries && key != ""
      modifies this
      ensures Listed(order, entries.Keys) && KeysNonEmpty(entries.Keys)
      ensures entries == old(entries)[key := analysis] && order == old(order) + [key]
      ensures origin == old(origin)[key := (lat, lon)]
    {
      ListedAppend(order, entries.Keys, key);
      assert entries[key := analysis].Keys == entries.Keys + {key};
      entries := entries[key := analysis];
      order := order + [key];
      origin := origin[key := (lat, lon)];
    }

    /** `clearDistanceCache()`. */
    method Clear()
      requires Valid()
      modifies this
      ensures Valid() && entries == map[] && order == []
    {
      entries := map[];
      order := [];
      origin := map[];
    }
  }

  /** A valid cache never holds more than `MaxCacheSize` entries. */
  lemma CacheBounded(cache: DistanceCache)
    requires cache.Valid()
    ensures |cache.entries| <= MaxCacheSize
  {
    ListedCount(cache.order, cache.entries.Keys);
  }
}
