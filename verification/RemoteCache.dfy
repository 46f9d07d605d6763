/** The bounded set of remote key caches and its pruning. */
module RemoteCache {
  import opened Bytes

  const DEFAULT_ENTRIES: nat := 128
  const DEFAULT_IDLE_TTL: nat := 3_600_000_000_000   // one hour in nanoseconds

  type Key = string

  /** What pruning reads of an entry under the entry's own lock. */
  datatype Entry = Entry(lastUsed: int, inFlight: bool)

  type Caches = map<Key, Entry>

  predicate Evictable(e: Entry) {
    !e.inFlight
  }

  predicate IdleBefore(e: Entry, cutoff: int) {
    Evictable(e) && e.lastUsed < cutoff
  }

  /** The entries that survive the idle sweep. */
  function Active(caches: Caches, cutoff: int): (r: Caches) {
    map k | k in caches && !IdleBefore(caches[k], cutoff) :: caches[k]
  }

  /**
   * Pruning keeps entries as they are; drops only entries that were not in flight, the idle ones
   * and then the least recently used; goes on until there is room or all the rest is in flight; and
   * drops no more than it must.
   */
  ghost predicate Pruned(was: Caches, now: Caches, max: nat, cutoff: int) {
    && (forall k :: k in now ==> k in was && now[k] == was[k] && !IdleBefore(was[k], cutoff))
    && (forall k :: k in was && k !in now ==>
          && Evictable(was[k])
          && (IdleBefore(was[k], cutoff) ||
              forall j :: j in now && Evictable(now[j]) ==> was[k].lastUsed <= now[j].lastUsed))
    && (|now| < max || forall k :: k in now ==> now[k].inFlight)
    && (now == Active(was, cutoff) || |now| + 1 >= max)
  }

  method OldestEvictable(caches: Caches) returns (r: Option<Key>)
    ensures r.None? ==> forall k :: k in caches ==> caches[k].inFlight
    ensures r.Some? ==> r.value in caches && Evictable(caches[r.value])
    ensures r.Some? ==> forall k :: k in caches && Evictable(caches[k]) ==>
      caches[r.value].lastUsed <= caches[k].lastUsed
  {
    r := None;
    var left := caches.Keys;
    while left != {}
      invariant left <= caches.Keys
      invariant r.None? ==> forall k :: k in caches && k !in left ==> caches[k].inFlight
      invariant r.Some? ==> r.value in caches && Evictable(caches[r.value])
      invariant r.Some? ==> forall k :: k in caches && k !in left && Evictable(caches[k]) ==>
        caches[r.value].lastUsed <= caches[k].lastUsed
      decreases |left|
    {
      var k :| k in left;
      left := left - {k};
      if Evictable(caches[k]) && (r.None? || caches[k].lastUsed < caches[r.value].lastUsed) {
        r := Some(k);
      }
    }
  }

  method DropIdle(was: Caches, cutoff: int) returns (caches: Caches)
    ensures caches == Active(was, cutoff)
  {
    caches := was;
    var left := was.Keys;
    while left != {}
      invariant left <= was.Keys && caches.Keys <= was.Keys
      invariant forall k :: k in caches ==> caches[k] == was[k]
      invariant forall k :: k in was ==> (k in caches <==> k in left || !IdleBefore(was[k], cutoff))
      decreases |left|
    {
      var k :| k in left;
      left := left - {k};
      if IdleBefore(was[k], cutoff) {
        caches := caches - {k};
      }
    }
  }

  method PruneRemoteCaches(was: Caches, max: nat, cutoff: int) returns (caches: Caches)
    ensures Pruned(was, caches, max, cutoff)
  {
    caches := DropIdle(was, cutoff);
    while |caches| >= max
      invariant forall k :: k in caches ==> k in was && caches[k] == was[k] && !IdleBefore(was[k], cutoff)
      invariant forall k :: k in was && k !in caches ==>
        && Evictable(was[k])
        && (IdleBefore(was[k], cutoff) ||
            forall j :: j in caches && Evictable(caches[j]) ==> was[k].lastUsed <= caches[j].lastUsed)
      invariant caches == Active(was, cutoff) || |caches| + 1 >= max
      decreases |caches|
    {
      var key := OldestEvictable(caches);
      if key.None? {
        return;
      }
      assert |caches - {key.value}| == |caches| - 1 by { Smaller(caches, key.value); }
      caches := caches - {key.value};
    }
  }

  lemma {:induction false} Smaller<V>(m: map<Key, V>, k: Key)
    requires k in m
    ensures |m - {k}| == |m| - 1
  {
    assert (m - {k}).Keys == m.Keys - {k};
    assert |m| == |m.Keys| && |m - {k}| == |(m - {k}).Keys|;
  }

  class RemoteJWTCacheSet {
    const maxEntries: nat
    const idleTTL: nat
    var jwks: Caches

    ghost predicate Valid()
      reads this
    {
      |jwks| <= maxEntries
    }

    /** A bound or a time that is not positive stands for the default. */
    constructor (max: int, ttl: int)
      ensures Valid() && jwks == map[]
      ensures maxEntries == (if max <= 0 then DEFAULT_ENTRIES else max) &&
        idleTTL == (if ttl <= 0 then DEFAULT_IDLE_TTL else ttl)
    {
      maxEntries := if max <= 0 then DEFAULT_ENTRIES else max;
      idleTTL := if ttl <= 0 then DEFAULT_IDLE_TTL else ttl;
      jwks := map[];
    }

    /** jwksCache: the entry for a key, shared only while there is room for it. */
    method JwksCache(key: Key, now: int) returns (shared: bool)
      requires Valid()
      modifies this
      ensures Valid()
      ensures old(key in jwks) ==> shared && jwks == old(jwks)[key := old(jwks)[key].(lastUsed := now)]
      ensures !old(key in jwks) ==> exists kept ::
        && Pruned(old(jwks), kept, maxEntries, now - idleTTL)
        && shared == (|kept| < maxEntries)
        && jwks == if shared then kept[key := Entry(now, false)] else kept
    {
      if key in jwks {
        SameSize(jwks, key, jwks[key].(lastUsed := now));
        jwks := jwks[key := jwks[key].(lastUsed := now)];
        return true;
      }
      var kept := PruneRemoteCaches(jwks, maxEntries, now - idleTTL);
      PrunedSize(jwks, kept, maxEntries, now - idleTTL);
      hide Pruned;
      jwks := kept;
      if |kept| < maxEntries {
        OneMore(kept, key, Entry(now, false));
        jwks := kept[key := Entry(now, false)];
        return true;
      }
      return false;
    }
  }

  lemma {:induction false} SameSize(m: Caches, k: Key, e: Entry)
    requires k in m
    ensures |m[k := e]| == |m|
  {
    assert m[k := e].Keys == m.Keys;
    assert |m[k := e]| == |m[k := e].Keys| && |m| == |m.Keys|;
  }

  lemma {:induction false} OneMore<V>(m: map<Key, V>, k: Key, e: V)
    ensures |m[k := e]| <= |m| + 1
  {
    assert m[k := e].Keys == m.Keys + {k};
    assert |m[k := e]| == |m[k := e].Keys| && |m| == |m.Keys|;
  }

  lemma {:induction false} PrunedSize(was: Caches, now: Caches, max: nat, cutoff: int)
    requires Pruned(was, now, max, cutoff)
    ensures |now| <= |was|
  {
    assert now.Keys <= was.Keys;
    SubsetSize(now.Keys, was.Keys);
    assert |now| == |now.Keys| && |was| == |was.Keys|;
  }

  lemma {:induction false} SubsetSize(a: set<Key>, b: set<Key>)
    requires a <= b
    ensures |a| <= |b|
    decreases |a|
  {
    if a != {} {
      var x :| x in a;
      SubsetSize(a - {x}, b - {x});
    }
  }
}
