/** The keyed progress store of the second generation: one snapshot per
    extraction id under "progress:<id>", and the latest id under its own key,
    both written with a 30-minute expiry. The clock is a parameter: `now`
    is `Date.now()` in milliseconds. The store is a map from key to the
    value held and the instant it expires. */
module RedisClient {
  import opened Wrappers

  const ExpirySeconds := 1800
  const ExpiryMs := ExpirySeconds * 1000
  /** `isExtractionActive` looks back five minutes. */
  const ActiveWindowMs := 5 * 60 * 1000
  const LatestKey := "latest-extraction-id"
  const CancelledStatus := "Cancelled"

  function ProgressKey(id: string): string
  {
    "progress:" + id
  }

  /** A progress key never collides with the latest-id key, and different
      ids have different keys. */
  lemma ProgressKeys(a: string, b: string)
    ensures ProgressKey(a) != LatestKey
    ensures ProgressKey(a) == ProgressKey(b) ==> a == b
  {
    assert ProgressKey(a)[0] == 'p' && LatestKey[0] == 'l';
    if ProgressKey(a) == ProgressKey(b) {
      assert a == ProgressKey(a)[9..] && b == ProgressKey(b)[9..];
    }
  }

  /** The snapshot a caller hands to `storeProgress`. */
  datatype Snapshot = Snapshot(currentUrl: string, currentUrlIndex: int, totalUrls: int, status: string, percent: int)

  /** `ProgressData`: the snapshot with the time it was written and its id. */
  datatype ProgressData = ProgressData(progress: Snapshot, lastUpdated: int, extractionId: Option<string>)

  /** What `redis.get` hands back for a live key: an object (the client
      decodes the JSON it stored) or a string. */
  datatype Stored = Object(data: ProgressData) | Text(s: string)

  datatype Entry = Entry(value: Stored, expiresAt: int)

  type Entries = map<string, Entry>

  /** `redis.get(key)` at `now`: the value unless the key is missing or has
      expired. */
  function Lookup(m: Entries, key: string, now: int): (r: Option<Stored>)
    ensures r.Some? <==> key in m && now < m[key].expiresAt
    ensures r.Some? ==> r.value == m[key].value
  {
    if key in m && now < m[key].expiresAt then Some(m[key].value) else None
  }

  /** `redis.set(key, value, { ex: 1800 })` at `now`. */
  function Set(m: Entries, key: string, v: Stored, now: int): Entries
  {
    m[key := Entry(v, now + ExpiryMs)]
  }

  /** The store after `storeProgress(id, p)` at `now`. */
  function AfterStore(m: Entries, id: string, p: Snapshot, now: int): Entries
  {
    Set(Set(m, ProgressKey(id), Object(ProgressData(p, now, Some(id))), now), LatestKey, Text(id), now)
  }

  /** `getProgress(id)` at `now`; `parse` is `JSON.parse` read as progress
      data, `None` where it throws. A missing key and an empty string give
      null; an object is returned as it is. */
  function ProgressIn(m: Entries, id: string, now: int, parse: string -> Option<ProgressData>): (r: Option<ProgressData>)
    ensures Lookup(m, ProgressKey(id), now).None? ==> r.None?
    ensures Lookup(m, ProgressKey(id), now) == Some(Text("")) ==> r.None?
    ensures forall s :: Lookup(m, ProgressKey(id), now) == Some(Text(s)) && s != "" ==> r == parse(s)
    ensures forall d :: Lookup(m, ProgressKey(id), now) == Some(Object(d)) ==> r == Some(d)
  {
    match Lookup(m, ProgressKey(id), now)
    case None => None
    case Some(Object(d)) => Some(d)
    case Some(Text(s)) => if s == "" then None else parse(s)
  }

  /** `isExtractionActive(id)` at `now`. */
  predicate ActiveIn(m: Entries, id: string, now: int, parse: string -> Option<ProgressData>)
  {
    match ProgressIn(m, id, now, parse)
    case None => false
    case Some(p) => p.lastUpdated > now - ActiveWindowMs && p.progress.percent < 100
  }

  /** The snapshot `cancelExtraction` writes back. */
  function CancelledSnapshot(p: ProgressData): Snapshot
  {
    p.progress.(status := CancelledStatus, percent := 100)
  }

  /** The store after `cancelExtraction(id)` at `now`. */
  function CancelledIn(m: Entries, id: string, now: int, parse: string -> Option<ProgressData>): Entries
  {
    match ProgressIn(m, id, now, parse)
    case None => m
    case Some(p) => AfterStore(m, id, CancelledSnapshot(p), now)
  }

  /** The Redis client over its store. */
  class Store {
    var entries: Entries

    constructor()
      ensures entries == map[]
    {
      entries := map[];
    }

    method SetKey(key: string, v: Stored, now: int)
      modifies this
      ensures entries == Set(old(entries), key, v, now)
    {
      entries := entries[key := Entry(v, now + ExpiryMs)];
    }

    /** `storeProgress(id, p)`. */
    method StoreProgress(id: string, p: Snapshot, now: int)
      modifies this
      ensures entries == AfterStore(old(entries), id, p, now)
    {
      var data := ProgressData(p, now, Some(id));
      SetKey(ProgressKey(id), Object(data), now);
      SetKey(LatestKey, Text(id), now);
    }

    /** `getProgress(id)`. */
    method GetProgress(id: string, now: int, parse: string -> Option<ProgressData>) returns (r: Option<ProgressData>)
      ensures r == ProgressIn(entries, id, now, parse)
    {
      var key := ProgressKey(id);
      if key !in entries || now >= entries[key].expiresAt {
        return None;
      }
      match entries[key].value {
        case Object(d) =>
          r := Some(d);
        case Text(s) =>
          if s == "" {
            r := None;
          } else {
            r := parse(s);
          }
      }
    }

    /** `getLatestExtractionId()`: whatever the latest-id key holds. */
    method GetLatestExtractionId(now: int) returns (r: Option<Stored>)
      ensures r == Lookup(entries, LatestKey, now)
    {
      if LatestKey in entries && now < entries[LatestKey].expiresAt {
        r := Some(entries[LatestKey].value);
      } else {
        r := None;
      }
    }

    /** `isExtractionActive(id)`. */
    method IsExtractionActive(id: string, now: int, parse: string -> Option<ProgressData>) returns (active: bool)
      ensures active <==> ActiveIn(entries, id, now, parse)
    {
      var progress := GetProgress(id, now, parse);
      if progress.None? {
        return false;
      }
      active := progress.value.lastUpdated > now - ActiveWindowMs && progress.value.progress.percent < 100;
    }

    /** `cancelExtraction(id)`: a read, then a write of the cancelled
        snapshot when there was one. */
    method CancelExtraction(id: string, now: int, parse: string -> Option<ProgressData>)
      modifies this
      ensures entries == CancelledIn(old(entries), id, now, parse)
    {
      var progress := GetProgress(id, now, parse);
      if progress.None? {
        return;
      }
      StoreProgress(id, CancelledSnapshot(progress.value), now);
    }
  }

  // ---------------------------------------------------------------------------
  // Properties

  /** A stored snapshot reads back, stamped with the write time and its id,
      until it expires 1800 seconds later; the latest-id key then names the
      id; no other key changes. */
  lemma StoreThenRead(m: Entries, id: string, p: Snapshot, now: int, t: int, parse: string -> Option<ProgressData>)
    ensures var m' := AfterStore(m, id, p, now);
      ProgressIn(m', id, t, parse) == (if t < now + ExpiryMs then Some(ProgressData(p, now, Some(id))) else None) &&
      Lookup(m', LatestKey, t) == (if t < now + ExpiryMs then Some(Text(id)) else None)
    ensures forall k :: k != ProgressKey(id) && k != LatestKey ==>
      (k in AfterStore(m, id, p, now) <==> k in m) &&
      (k in m ==> AfterStore(m, id, p, now)[k] == m[k])
  {
    ProgressKeys(id, id);
  }

  /** `isExtractionActive` holds exactly when there is progress written in
      the last five minutes that is below 100%. */
  lemma ActiveMeans(m: Entries, id: string, now: int, parse: string -> Option<ProgressData>)
    ensures ActiveIn(m, id, now, parse) <==>
      exists p :: ProgressIn(m, id, now, parse) == Some(p) && p.lastUpdated > now - 300000 && p.progress.percent < 100
  {
    if ActiveIn(m, id, now, parse) {
      var p := ProgressIn(m, id, now, parse).value;
      assert ProgressIn(m, id, now, parse) == Some(p);
    }
  }

  /** A cancelled extraction is never active again (unless it is written
      anew): either nothing was stored, and nothing appears later, or the
      snapshot now says 100%. */
  lemma CancelledNeverActive(m: Entries, id: string, now: int, t: int, parse: string -> Option<ProgressData>)
    requires now <= t
    ensures !ActiveIn(CancelledIn(m, id, now, parse), id, t, parse)
  {
    var m' := CancelledIn(m, id, now, parse);
    match ProgressIn(m, id, now, parse)
    case None =>
      assert m' == m;
      if Lookup(m, ProgressKey(id), t).Some? {
        assert Lookup(m, ProgressKey(id), t) == Lookup(m, ProgressKey(id), now);
      }
    case Some(p) =>
      StoreThenRead(m, id, CancelledSnapshot(p), now, t, parse);
  }

  /** Cancelling twice is cancelling once, apart from `lastUpdated`: if the
      first cancel found nothing the second changes nothing, and otherwise
      the second writes the same snapshot at its own time. */
  lemma CancelIdempotent(m: Entries, id: string, t1: int, t2: int, parse: string -> Option<ProgressData>)
    requires t1 <= t2 < t1 + ExpiryMs
    ensures var m1 := CancelledIn(m, id, t1, parse);
      var m2 := CancelledIn(m1, id, t2, parse);
      (ProgressIn(m, id, t1, parse).None? ==> m2 == m1) &&
      (ProgressIn(m, id, t1, parse).Some? ==>
        m2 == AfterStore(m1, id, CancelledSnapshot(ProgressIn(m, id, t1, parse).value), t2) &&
        ProgressIn(m2, id, t2, parse) == Some(ProgressData(CancelledSnapshot(ProgressIn(m, id, t1, parse).value), t2, Some(id))))
  {
    var m1 := CancelledIn(m, id, t1, parse);
    match ProgressIn(m, id, t1, parse)
    case None =>
      assert m1 == m;
      if Lookup(m, ProgressKey(id), t2).Some? {
        assert Lookup(m, ProgressKey(id), t2) == Lookup(m, ProgressKey(id), t1);
      }
    case Some(p) =>
      var c := CancelledSnapshot(p);
      StoreThenRead(m, id, c, t1, t1, parse);
      StoreThenRead(m, id, c, t1, t2, parse);
      assert CancelledSnapshot(ProgressData(c, t1, Some(id))) == c;
      StoreThenRead(m1, id, c, t2, t2, parse);
  }
}
