/**
 * Call sequences on LocalCache whose outcome follows from the contracts alone:
 * what a caller of the cache can rely on across several operations and across
 * a restart of the process.
 */
module CacheScenarios {
  import opened Wrappers
  import opened Octets
  import opened Json
  import opened Fernet
  import opened CacheFunctions

  /** set(k, v) then get(k) gives v; get of any other key is what it was before. */
  method SetThenGet(c: LocalCache, k: string, v: Json, other: string, default: Json,
                    generated: Bytes, now: Time, iv: Iv)
    returns (got: Result<Json, CacheError>, gotOther: Result<Json, CacheError>)
    requires c.Valid() && WellFormed(v) && c.cache.JObject? && other != k
    modifies c, c.dir
    ensures got == Ok(v)
    ensures gotOther == Ok(if other in ToMap(old(c.cache.fields)) then ToMap(old(c.cache.fields))[other] else default)
  {
    var _ := c.Set(k, v, None, generated, now, iv);
    got := c.Get(k, JNull);
    gotOther := c.Get(other, default);
  }

  /** set(k, a) then set(k, b) leaves get(k) == b. */
  method Overwrite(c: LocalCache, k: string, a: Json, b: Json, generated: Bytes, now: Time, iv: Iv)
    returns (got: Result<Json, CacheError>)
    requires c.Valid() && WellFormed(a) && WellFormed(b) && c.cache.JObject?
    modifies c, c.dir
    ensures got == Ok(b)
  {
    var _ := c.Set(k, a, None, generated, now, iv);
    var _ := c.Set(k, b, None, generated, now, iv);
    got := c.Get(k, JNull);
  }

  /** set(k, v), delete(k), then get(k, default) gives default. */
  method DeleteThenGet(c: LocalCache, k: string, v: Json, default: Json, generated: Bytes, now: Time, iv: Iv)
    returns (deleted: Outcome<CacheError>, got: Result<Json, CacheError>)
    requires c.Valid() && WellFormed(v) && c.cache.JObject?
    modifies c, c.dir
    ensures deleted.Fail? ==> deleted == Fail(InvalidKey)
    ensures got == Ok(default)
  {
    var _ := c.Set(k, v, None, generated, now, iv);
    deleted := c.Delete(k, generated, now, iv);
    got := c.Get(k, default);
  }

  /** Deleting a key twice: the second delete raises KeyError and touches nothing. */
  method DeleteTwice(c: LocalCache, k: string, generated: Bytes, now: Time, iv: Iv)
    returns (first: Outcome<CacheError>, second: Outcome<CacheError>)
    requires c.Valid() && c.cache.JObject? && k in ToMap(c.cache.fields)
    modifies c, c.dir
    ensures second == Fail(KeyNotFound(k))
  {
    first := c.Delete(k, generated, now, iv);
    second := c.Delete(k, generated, now, iv);
  }

  /**
   * After a successful set, a new LocalCache on the same directory, as the
   * next run of the program builds it, holds the same dict, whatever key it
   * would have generated.
   */
  method SetThenRestart(c: LocalCache, k: string, v: Json, generated: Bytes, generated': Bytes, now: Time, iv: Iv)
    returns (saved: Outcome<CacheError>, reopened: Result<LocalCache, CacheError>)
    requires c.Valid() && WellFormed(v) && c.cache.JObject?
    modifies c, c.dir
    ensures saved.Pass? ==> reopened.Ok? && reopened.value.cache == c.cache
    ensures saved.Pass? ==> reopened.value.cache.JObject?
                            && k in ToMap(reopened.value.cache.fields) && ToMap(reopened.value.cache.fields)[k] == v
  {
    saved := c.Set(k, v, None, generated, now, iv);
    reopened := LocalCache.Open(c.dir, generated');
  }
}
