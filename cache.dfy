/** `utils/cache.py`: a time-to-live map. The wall clock is an explicit `now`
    argument (seconds, as a real so that fractional TTLs are representable). */
module CacheUtil {
  import opened Common

  /** The constructor's default TTL: its `ttl` argument in seconds, one hour when absent. */
  function DefaultTtl(ttl: Option<real>): real
  {
    match ttl
    case None => 3600.0
    case Some(t) => t
  }

  /** `ttl or self._default_ttl`: a missing or zero TTL falls back to the default. */
  function EffectiveTtl(ttl: Option<real>, default: real): real
  {
    if ttl.None? || ttl.value == 0.0 then default else ttl.value
  }

  class Cache<V> {
    var cache: map<string, V>
    var expiry: map<string, real>
    const defaultTtl: real

    /** Every cached key has an expiry time and vice versa. */
    ghost predicate Valid()
      reads this
    {
      cache.Keys == expiry.Keys
    }

    constructor (ttl: Option<real>)
      ensures Valid()
      ensures cache == map[] && expiry == map[]
      ensures defaultTtl == DefaultTtl(ttl)
    {
      cache := map[];
      expiry := map[];
      defaultTtl := DefaultTtl(ttl);
    }

    /** Returns the value unless the key is absent or expired; an expired
        entry is deleted. The expiry test is strict: at the expiry instant the
        entry is still served. */
    method Get(key: string, now: real) returns (r: Option<V>)
      requires Valid()
      modifies this
      ensures Valid()
      ensures key !in old(cache) ==> r.None? && cache == old(cache) && expiry == old(expiry)
      ensures key in old(cache) && now > old(expiry)[key] ==>
                r.None? && cache == old(cache) - {key} && expiry == old(expiry) - {key}
      ensures key in old(cache) && now <= old(expiry)[key] ==>
                r == Some(old(cache)[key]) && cache == old(cache) && expiry == old(expiry)
    {
      if key !in cache {
        return None;
      }
      if now > expiry[key] {
        Delete(key);
        return None;
      }
      return Some(cache[key]);
    }

    /** Stores the value and (re)sets its expiry to `now` plus the effective TTL. */
    method Set(key: string, value: V, ttl: Option<real>, now: real)
      requires Valid()
      modifies this
      ensures Valid()
      ensures cache == old(cache)[key := value]
      ensures expiry == old(expiry)[key := now + EffectiveTtl(ttl, defaultTtl)]
    {
      cache := cache[key := value];
      expiry := expiry[key := now + EffectiveTtl(ttl, defaultTtl)];
    }

    /** Removes the key from both maps; a no-op for an absent key. */
    method Delete(key: string)
      requires Valid()
      modifies this
      ensures Valid()
      ensures cache == old(cache) - {key} && expiry == old(expiry) - {key}
    {
      cache := cache - {key};
      expiry := expiry - {key};
    }
  }

  /** A fresh cache that stores `value` at `setTime` serves it at `getTime`
      exactly when `getTime` is not after the stored expiry. */
  method SetThenGet<V>(ctorTtl: Option<real>, key: string, value: V, ttl: Option<real>,
                       setTime: real, getTime: real) returns (r: Option<V>)
    ensures r.Some? <==> getTime <= setTime + EffectiveTtl(ttl, DefaultTtl(ctorTtl))
    ensures r.Some? ==> r.value == value
  {
    var c := new Cache<V>(ctorTtl);
    c.Set(key, value, ttl, setTime);
    r := c.Get(key, getTime);
  }

  /** A second `set` of the same key overrides the first one's value and expiry. */
  method SetTwiceThenGet<V>(key: string, first: V, second: V, ttl: Option<real>,
                            t1: real, t2: real, getTime: real) returns (r: Option<V>)
    ensures r.Some? <==> getTime <= t2 + EffectiveTtl(ttl, 3600.0)
    ensures r.Some? ==> r.value == second
  {
    var c := new Cache<V>(None);
    c.Set(key, first, ttl, t1);
    c.Set(key, second, ttl, t2);
    r := c.Get(key, getTime);
  }

  /** After `delete`, the key is gone while other keys keep their values. */
  method DeleteThenGet<V>(key: string, other: string, v: V, w: V, now: real)
    returns (rKey: Option<V>, rOther: Option<V>)
    requires key != other
    ensures rKey.None?
    ensures rOther == Some(w)
  {
    var c := new Cache<V>(None);
    c.Set(key, v, None, now);
    c.Set(other, w, None, now);
    c.Delete(key);
    rKey := c.Get(key, now);
    rOther := c.Get(other, now);
  }

  /** An expired entry is evicted by `get`, so a later `get` at an earlier
      instant no longer finds it. */
  method ExpiredIsRemoved<V>(key: string, v: V, setTime: real, late: real, early: real)
    returns (r1: Option<V>, r2: Option<V>)
    requires late > setTime + 3600.0
    requires early <= setTime
    ensures r1.None? && r2.None?
  {
    var c := new Cache<V>(None);
    c.Set(key, v, None, setTime);
    r1 := c.Get(key, late);
    r2 := c.Get(key, early);
  }
}
