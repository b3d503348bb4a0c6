/**
 * `MerinfoCache`: a dictionary from key to (value, time stored), bounded in size, whose
 * entries expire lazily when read after `ttl` seconds. The clock is passed in as `now`.
 */
module Cache {
  import opened Wrappers

  /** `key` holds the smallest timestamp of `m`: a key `min(cache, key=timestamp)` may return. */
  predicate IsOldest<V>(m: map<string, (V, real)>, key: string) {
    key in m && forall k :: k in m ==> m[key].1 <= m[k].1
  }

  /** A non-empty cache has an oldest entry, so `min` does not raise on it. */
  lemma {:induction false} OldestExists<V>(m: map<string, (V, real)>)
    requires |m| > 0
    ensures exists key :: IsOldest(m, key)
    decreases |m|
  {
    var k0 :| k0 in m;
    var rest := m - {k0};
    assert |rest| == |m| - 1;
    if |rest| == 0 {
      assert forall k :: k in m ==> k == k0;
      assert IsOldest(m, k0);
    } else {
      OldestExists(rest);
      var k1 :| IsOldest(rest, k1);
      assert forall k :: k in m && k != k0 ==> k in rest && rest[k] == m[k];
      if m[k0].1 <= m[k1].1 {
        assert IsOldest(m, k0);
      } else {
        assert IsOldest(m, k1);
      }
    }
  }

  /**
   * What one `set(key, value)` at time `now` may do to a cache bounded by `maxSize`: below the
   * bound it stores the entry; at or above it, it first deletes one oldest entry.
   */
  ghost predicate SetStep<V>(before: map<string, (V, real)>, after: map<string, (V, real)>,
                       key: string, value: V, now: real, maxSize: int) {
    if |before| < maxSize then after == before[key := (value, now)]
    else exists victim :: IsOldest(before, victim) && after == (before - {victim})[key := (value, now)]
  }

  /** One `set` keeps the cache within its bound. */
  lemma SetStepBound<V>(before: map<string, (V, real)>, after: map<string, (V, real)>,
                        key: string, value: V, now: real, maxSize: int)
    requires 1 <= maxSize && |before| <= maxSize
    requires SetStep(before, after, key, value, now, maxSize)
    ensures |after| <= maxSize
    ensures key in after && after[key] == (value, now)
  {
    if |before| >= maxSize {
      var victim :| IsOldest(before, victim) && after == (before - {victim})[key := (value, now)];
      assert |before - {victim}| == |before| - 1;
    }
  }

  /** One `set` stores its entry, stamped with the time of the call. */
  lemma SetStepStores<V>(before: map<string, (V, real)>, after: map<string, (V, real)>,
                         key: string, value: V, now: real, maxSize: int)
    requires SetStep(before, after, key, value, now, maxSize)
    ensures key in after && after[key] == (value, now)
  {
    if |before| >= maxSize {
      var victim :| IsOldest(before, victim) && after == (before - {victim})[key := (value, now)];
    }
  }

  /** One `set` leaves every entry other than the stored key and the evicted one as it was. */
  lemma SetStepFrame<V>(before: map<string, (V, real)>, after: map<string, (V, real)>,
                        key: string, value: V, now: real, maxSize: int, other: string)
    requires SetStep(before, after, key, value, now, maxSize)
    requires other in before && other != key
    ensures other in after ==> after[other] == before[other]
    ensures other !in after ==> |before| >= maxSize && IsOldest(before, other)
  {
    if |before| >= maxSize {
      var victim :| IsOldest(before, victim) && after == (before - {victim})[key := (value, now)];
      assert other !in after ==> other == victim;
    }
  }

  /** After `set`, every key is the one stored or an earlier key with its earlier entry. */
  lemma SetStepOrigin<V>(before: map<string, (V, real)>, after: map<string, (V, real)>,
                         key: string, value: V, now: real, maxSize: int, other: string)
    requires SetStep(before, after, key, value, now, maxSize)
    requires other in after && other != key
    ensures other in before && after[other] == before[other]
  {
    if |before| >= maxSize {
      var victim :| IsOldest(before, victim) && after == (before - {victim})[key := (value, now)];
    }
  }

  /**
   * Facts about the first `i` of a run of `set`s of distinct keys at increasing times, starting
   * from an empty cache, while the cache has not filled up.
   */
  ghost predicate Filled<V>(states: seq<map<string, (V, real)>>, keys: seq<string>, times: seq<real>, i: nat)
    requires i < |states| && i <= |keys| && |keys| <= |times|
  {
    && |states[i]| == i
    && (forall k :: k in states[i] ==> k in keys[..i])
    && (forall j :: 0 <= j < i ==> keys[j] in states[i])
    && (i > 0 ==> states[i][keys[0]].1 == times[0])
    && (forall k :: k in states[i] && k != keys[0] ==> states[i][k].1 > times[0])
  }

  /** Storing a new key, later than the first one, below the bound extends the facts by one. */
  lemma FillStep<V>(states: seq<map<string, (V, real)>>, keys: seq<string>, values: seq<V>, times: seq<real>, p: nat)
    requires p + 1 < |states| && p < |keys| && |keys| <= |times| && |values| == |keys|
    requires Filled(states, keys, times, p)
    requires states[p + 1] == states[p][keys[p] := (values[p], times[p])]
    requires keys[p] !in keys[..p]
    requires p > 0 ==> times[p] > times[0]
    ensures Filled(states, keys, times, p + 1)
  {
    var i := p + 1;
    forall k | k in states[i]
      ensures k in keys[..i]
    {
      if k != keys[p] {
        assert k in keys[..p];
        assert keys[..p] <= keys[..i];
      }
    }
    forall k | k in states[i] && k != keys[0]
      ensures states[i][k].1 > times[0]
    {
      if k == keys[p] {
        assert p > 0;
      }
    }
  }

  /** Inserting distinct keys at increasing times: while below the bound nothing is evicted. */
  lemma {:induction false} FillUp<V>(states: seq<map<string, (V, real)>>, keys: seq<string>,
                                     values: seq<V>, times: seq<real>, maxSize: int, i: nat)
    requires |states| == |keys| + 1 && |values| == |keys| && |times| == |keys|
    requires i <= |keys| && i <= maxSize
    requires states[0] == map[]
    requires forall n :: 0 <= n < |keys| ==>
      SetStep(states[n], states[n + 1], keys[n], values[n], times[n], maxSize)
    requires forall m, n :: 0 <= m < n < |keys| ==> keys[m] != keys[n]
    requires forall m, n :: 0 <= m < n < |times| ==> times[m] < times[n]
    ensures Filled(states, keys, times, i)
  {
    if i > 0 {
      var p := i - 1;
      FillUp(states, keys, values, times, maxSize, p);
      assert SetStep(states[p], states[i], keys[p], values[p], times[p], maxSize);
      assert |states[p]| == p < maxSize;
      assert keys[p] !in keys[..p] by {
        forall m | 0 <= m < p
          ensures keys[..p][m] != keys[p]
        {
          assert keys[m] != keys[p];
        }
      }
      assert p > 0 ==> times[0] < times[p];
      FillStep(states, keys, values, times, p);
    }
  }

  /**
   * Inserting `maxSize + 1` distinct keys at strictly increasing times into an empty cache leaves
   * exactly `maxSize` entries: every key but the first one inserted.
   */
  lemma {:induction false} OverfillEvictsFirst<V>(states: seq<map<string, (V, real)>>,
                                                  keys: seq<string>, values: seq<V>,
                                                  times: seq<real>, maxSize: int)
    requires 1 <= maxSize && |keys| == maxSize + 1
    requires |states| == |keys| + 1 && |values| == |keys| && |times| == |keys|
    requires states[0] == map[]
    requires forall n :: 0 <= n < |keys| ==>
      SetStep(states[n], states[n + 1], keys[n], values[n], times[n], maxSize)
    requires forall m, n :: 0 <= m < n < |keys| ==> keys[m] != keys[n]
    requires forall m, n :: 0 <= m < n < |times| ==> times[m] < times[n]
    ensures |states[|keys|]| == maxSize
    ensures keys[0] !in states[|keys|]
    ensures forall n :: 1 <= n < |keys| ==> keys[n] in states[|keys|]
  {
    var p := maxSize;
    FillUp(states, keys, values, times, maxSize, p);
    var full := states[p];
    assert SetStep(full, states[p + 1], keys[p], values[p], times[p], maxSize);
    var victim :| IsOldest(full, victim) && states[p + 1] == (full - {victim})[keys[p] := (values[p], times[p])];
    assert victim == keys[0] by {
      assert keys[0] in full;
      assert full[victim].1 <= full[keys[0]].1;
    }
    assert keys[p] !in keys[..p];
    assert |full - {victim}| == p - 1;
  }

  /** The cache object; `cache` maps a key to the stored value and the time it was stored. */
  class MerinfoCache<V> {
    var cache: map<string, (V, real)>
    const maxSize: int
    const ttl: real

    ghost predicate Valid()
      reads this
    {
      1 <= maxSize && |cache| <= maxSize
    }

    /** `MerinfoCache(max_size, ttl)`; the scraper uses the defaults 100 and 3600. */
    constructor (maxSize: int, ttl: real)
      requires 1 <= maxSize
      ensures Valid()
      ensures cache == map[] && this.maxSize == maxSize && this.ttl == ttl
    {
      cache := map[];
      this.maxSize := maxSize;
      this.ttl := ttl;
    }

    /**
     * `get(key)`: the stored value while it is younger than `ttl`; an older entry is deleted
     * and reads as absent.
     */
    method Get(key: string, now: real) returns (r: Option<V>)
      requires Valid()
      modifies this
      ensures Valid()
      ensures key !in old(cache) ==> r == None && cache == old(cache)
      ensures key in old(cache) && now - old(cache)[key].1 < ttl ==>
        r == Some(old(cache)[key].0) && cache == old(cache)
      ensures key in old(cache) && now - old(cache)[key].1 >= ttl ==>
        r == None && cache == old(cache) - {key}
    {
      if key in cache {
        var (data, timestamp) := cache[key];
        if now - timestamp < ttl {
          return Some(data);
        } else {
          cache := cache - {key};
        }
      }
      return None;
    }

    /** `set(key, value)`: at the bound, first delete an entry with the smallest timestamp. */
    method Set(key: string, value: V, now: real)
      requires Valid()
      modifies this
      ensures Valid()
      ensures SetStep(old(cache), cache, key, value, now, maxSize)
      ensures key in cache && cache[key] == (value, now)
    {
      ghost var before := cache;
      if |cache| >= maxSize {
        OldestExists(cache);
        var oldest :| oldest in cache && IsOldest(cache, oldest);
        cache := cache - {oldest};
        cache := cache[key := (value, now)];
        assert IsOldest(before, oldest) && cache == (before - {oldest})[key := (value, now)];
      } else {
        cache := cache[key := (value, now)];
      }
      SetStepBound(before, cache, key, value, now, maxSize);
    }

    /** `clear()`. */
    method Clear()
      requires Valid()
      modifies this
      ensures Valid() && cache == map[]
    {
      cache := map[];
    }
  }
}
