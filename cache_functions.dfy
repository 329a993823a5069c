/**
 * LocalCache: a key-value store kept in memory and mirrored, encrypted, in the
 * working directory. cache.key holds the Fernet key, created on first use and
 * reused from then on; cache.bin holds the Fernet token of the JSON text of the
 * whole dict. The constructor reads the dict from disk, get reads memory only,
 * and set and delete change memory and then rewrite cache.bin.
 *
 * What the code takes from outside becomes a parameter: the key
 * Fernet.generate_key() would return (generated), the clock (now) and the IV
 * os.urandom(16) would give (iv). Raised exceptions are Err / Fail values.
 */
module CacheFunctions {
  import opened Wrappers
  import opened Octets
  import opened Json
  import opened JsonCodec
  import opened Fernet

  datatype CacheError =
    | InvalidKey               // Fernet(key) raises ValueError
    | InvalidToken             // Fernet.decrypt raises InvalidToken
    | JsonDecodeError          // json.loads raises JSONDecodeError
    | NotADict                 // self.cache is no dict: AttributeError or TypeError
    | KeyNotFound(key: string) // dict.pop raises KeyError

  /** The two files of the working directory; None is a file that does not exist. */
  class Directory {
    var cacheBin: Option<Bytes>
    var cacheKey: Option<Bytes>

    constructor (cacheBin: Option<Bytes>, cacheKey: Option<Bytes>)
      ensures this.cacheBin == cacheBin && this.cacheKey == cacheKey
    {
      this.cacheBin := cacheBin;
      this.cacheKey := cacheKey;
    }
  }

  // ------------------------------------------------ specification functions

  /** The key __get_fernet_key returns: cache.key's bytes, or the generated key. */
  function KeyOf(cacheKey: Option<Bytes>, generated: Bytes): Bytes
  {
    if cacheKey.Some? then cacheKey.value else generated
  }

  /** cache.key after __get_fernet_key: written only when it did not exist. */
  function KeyFileAfter(cacheKey: Option<Bytes>, generated: Bytes): Option<Bytes>
  {
    Some(KeyOf(cacheKey, generated))
  }

  /** What __load_cache returns for these files. */
  function Loaded(cacheBin: Option<Bytes>, cacheKey: Option<Bytes>, generated: Bytes): Result<Json, CacheError>
  {
    if cacheBin.None? then Ok(JObject([]))
    else
      var key := KeyOf(cacheKey, generated);
      if !ValidKey(key) then Err(InvalidKey)
      else
        match Decrypt(key, cacheBin.value)
        case None => Err(InvalidToken)
        case Some(plain) =>
          match Loads(plain)
          case None => Err(JsonDecodeError)
          case Some(j) => Ok(j)
  }

  /** What __save_cache writes to cache.bin for this cache, or why it raises. */
  function Sealed(cache: Json, cacheKey: Option<Bytes>, generated: Bytes, now: Time, iv: Iv): Result<Bytes, CacheError>
  {
    var key := KeyOf(cacheKey, generated);
    if ValidKey(key) then Ok(Encrypt(key, Dumps(cache), now, iv)) else Err(InvalidKey)
  }

  // ------------------------------------------------ properties of the files

  /**
   * The key never changes once cache.key exists, so two calls of
   * __get_fernet_key in a row return the same key.
   */
  lemma KeyIsStable(cacheKey: Option<Bytes>, generated: Bytes, generated': Bytes)
    ensures cacheKey.Some? ==> KeyFileAfter(cacheKey, generated) == cacheKey
    ensures KeyOf(KeyFileAfter(cacheKey, generated), generated') == KeyOf(cacheKey, generated)
    ensures KeyFileAfter(KeyFileAfter(cacheKey, generated), generated') == KeyFileAfter(cacheKey, generated)
  {
  }

  /**
   * What __save_cache writes, __load_cache reads back: under the key file
   * the save left behind, whatever key a later load would generate.
   */
  lemma LoadAfterSave(cache: Json, cacheKey: Option<Bytes>, generated: Bytes, generated': Bytes, now: Time, iv: Iv)
    requires WellFormed(cache)
    requires Sealed(cache, cacheKey, generated, now, iv).Ok?
    ensures Loaded(Some(Sealed(cache, cacheKey, generated, now, iv).value), KeyFileAfter(cacheKey, generated), generated')
         == Ok(cache)
  {
    var key := KeyOf(cacheKey, generated);
    DecryptEncrypt(key, Dumps(cache), now, iv);
    LoadsDumps(cache);
  }

  /** A cache.bin with any one byte changed is refused, never read as some other dict. */
  lemma TamperedFileRejected(cache: Json, cacheKey: Option<Bytes>, generated: Bytes, generated': Bytes,
                             now: Time, iv: Iv, i: nat, b: Byte)
    requires Sealed(cache, cacheKey, generated, now, iv).Ok?
    requires i < |Sealed(cache, cacheKey, generated, now, iv).value|
    requires b != Sealed(cache, cacheKey, generated, now, iv).value[i]
    ensures Loaded(Some(Sealed(cache, cacheKey, generated, now, iv).value[i := b]), KeyFileAfter(cacheKey, generated), generated')
         == Err(InvalidToken)
  {
    TamperRejected(KeyOf(cacheKey, generated), Dumps(cache), now, iv, i, b);
  }

  /** A cache.bin written under one key cannot be read under another key file. */
  lemma OtherKeyRejected(cache: Json, key: Bytes, other: Bytes, generated: Bytes, now: Time, iv: Iv)
    requires ValidKey(key) && ValidKey(other) && key != other
    ensures Loaded(Some(Sealed(cache, Some(key), generated, now, iv).value), Some(other), generated) == Err(InvalidToken)
  {
    WrongKeyRejected(key, other, Dumps(cache), now, iv);
  }

  // ------------------------------------------------ the cache object

  class LocalCache {
    const dir: Directory
    /** self.cache: whatever json.loads returned, a dict unless cache.bin held something else. */
    var cache: Json

    ghost predicate Valid()
      reads this
    {
      WellFormed(cache)
    }

    /** cache.bin and cache.key as they stand load back to the in-memory cache. */
    ghost predicate Persisted()
      reads this, dir
    {
      forall generated :: Loaded(dir.cacheBin, dir.cacheKey, generated) == Ok(cache)
    }

    constructor FromContents(dir: Directory, cache: Json)
      requires WellFormed(cache)
      ensures this.dir == dir && this.cache == cache && Valid()
    {
      this.dir := dir;
      this.cache := cache;
    }

    /** __get_fernet_key */
    static method GetFernetKey(dir: Directory, generated: Bytes) returns (key: Bytes)
      modifies dir
      ensures key == KeyOf(old(dir.cacheKey), generated)
      ensures dir.cacheKey == Some(key)
      ensures old(dir.cacheKey).Some? ==> dir.cacheKey == old(dir.cacheKey)
      ensures dir.cacheBin == old(dir.cacheBin)
    {
      if dir.cacheKey.Some? {
        key := dir.cacheKey.value;
      } else {
        key := generated;
        dir.cacheKey := Some(key);
      }
    }

    /** __load_cache: the key is fetched, and possibly created, only when cache.bin exists. */
    static method LoadCache(dir: Directory, generated: Bytes) returns (r: Result<Json, CacheError>)
      modifies dir
      ensures r == Loaded(old(dir.cacheBin), old(dir.cacheKey), generated)
      ensures dir.cacheBin == old(dir.cacheBin)
      ensures dir.cacheKey == if old(dir.cacheBin).Some? then KeyFileAfter(old(dir.cacheKey), generated)
                              else old(dir.cacheKey)
    {
      if dir.cacheBin.Some? {
        var key := GetFernetKey(dir, generated);
        if !ValidKey(key) {
          return Err(InvalidKey);
        }
        var encrypted := dir.cacheBin.value;
        var decrypted := Decrypt(key, encrypted);
        if decrypted.None? {
          return Err(InvalidToken);
        }
        var cache := Loads(decrypted.value);
        if cache.None? {
          return Err(JsonDecodeError);
        }
        r := Ok(cache.value);
      } else {
        r := Ok(JObject([]));
      }
    }

    /** LocalCache(): the cache as __load_cache finds it, or the exception it raises. */
    static method Open(dir: Directory, generated: Bytes) returns (r: Result<LocalCache, CacheError>)
      modifies dir
      ensures dir.cacheBin == old(dir.cacheBin)
      ensures dir.cacheKey == if old(dir.cacheBin).Some? then KeyFileAfter(old(dir.cacheKey), generated)
                              else old(dir.cacheKey)
      ensures r.Ok? <==> Loaded(old(dir.cacheBin), old(dir.cacheKey), generated).Ok?
      ensures r.Err? ==> r.error == Loaded(old(dir.cacheBin), old(dir.cacheKey), generated).error
      ensures r.Ok? ==> && fresh(r.value) && r.value.dir == dir && r.value.Valid()
                        && r.value.cache == Loaded(old(dir.cacheBin), old(dir.cacheKey), generated).value
                        && r.value.Persisted()
      ensures old(dir.cacheBin).None? ==> r.Ok? && r.value.cache == JObject([]) && dir.cacheKey == old(dir.cacheKey)
    {
      var loaded := LoadCache(dir, generated);
      if loaded.Err? {
        return Err(loaded.error);
      }
      var c := new LocalCache.FromContents(dir, loaded.value);
      r := Ok(c);
    }

    /** get(key, default): from memory only. */
    method Get(key: string, default: Json) returns (r: Result<Json, CacheError>)
      ensures cache.JObject? ==>
        r == Ok(if key in ToMap(cache.fields) then ToMap(cache.fields)[key] else default)
      ensures !cache.JObject? ==> r == Err(NotADict)
    {
      match cache
      case JObject(fields) =>
        var v := Lookup(fields, key);
        r := Ok(if v.Some? then v.value else default);
      case _ =>
        r := Err(NotADict);
    }

    /** __save_cache: encrypt the JSON of the whole cache and overwrite cache.bin. */
    method SaveCache(generated: Bytes, now: Time, iv: Iv) returns (r: Outcome<CacheError>)
      requires Valid()
      modifies dir
      ensures dir.cacheKey == KeyFileAfter(old(dir.cacheKey), generated)
      ensures r.Pass? <==> Sealed(cache, old(dir.cacheKey), generated, now, iv).Ok?
      ensures r.Pass? ==> dir.cacheBin == Some(Sealed(cache, old(dir.cacheKey), generated, now, iv).value)
                          && Persisted()
      ensures r.Fail? ==> r.error == InvalidKey && dir.cacheBin == old(dir.cacheBin)
    {
      var plain := Dumps(cache);
      ghost var before := dir.cacheKey;
      var key := GetFernetKey(dir, generated);
      if !ValidKey(key) {
        return Fail(InvalidKey);
      }
      var encrypted := Encrypt(key, plain, now, iv);
      dir.cacheBin := Some(encrypted);
      r := Pass;
      forall generated' ensures Loaded(dir.cacheBin, dir.cacheKey, generated') == Ok(cache) {
        LoadAfterSave(cache, before, generated, generated', now, iv);
      }
    }

    /**
     * set(key, value, expires): expires has no effect. The dict changes before
     * the save, so a save that raises leaves memory changed and cache.bin old.
     */
    method Set(key: string, value: Json, expires: Option<int>, generated: Bytes, now: Time, iv: Iv)
      returns (r: Outcome<CacheError>)
      requires Valid() && WellFormed(value)
      modifies this, dir
      ensures Valid()
      ensures old(dir.cacheKey).Some? ==> dir.cacheKey == old(dir.cacheKey)
      ensures !old(cache).JObject? ==> r == Fail(NotADict) && cache == old(cache) && unchanged(dir)
      ensures old(cache).JObject? ==>
        && cache == JObject(Put(old(cache).fields, key, value))
        && ToMap(cache.fields) == ToMap(old(cache).fields)[key := value]
        && dir.cacheKey == KeyFileAfter(old(dir.cacheKey), generated)
        && (r.Pass? <==> ValidKey(KeyOf(old(dir.cacheKey), generated)))
        && (r.Pass? ==> dir.cacheBin == Some(Sealed(cache, old(dir.cacheKey), generated, now, iv).value) && Persisted())
        && (r.Fail? ==> r == Fail(InvalidKey) && dir.cacheBin == old(dir.cacheBin))
    {
      match cache
      case JObject(fields) =>
        PutWellFormed(fields, key, value);
        cache := JObject(Put(fields, key, value));
        r := SaveCache(generated, now, iv);
      case _ =>
        r := Fail(NotADict);
    }

    /**
     * delete(key): a key that is not there raises KeyError before anything
     * is saved; otherwise the entry goes and cache.bin is rewritten.
     */
    method Delete(key: string, generated: Bytes, now: Time, iv: Iv) returns (r: Outcome<CacheError>)
      requires Valid()
      modifies this, dir
      ensures Valid()
      ensures old(dir.cacheKey).Some? ==> dir.cacheKey == old(dir.cacheKey)
      ensures !old(cache).JObject? ==> r == Fail(NotADict) && cache == old(cache) && unchanged(dir)
      ensures old(cache).JObject? && key !in ToMap(old(cache).fields) ==>
        r == Fail(KeyNotFound(key)) && cache == old(cache) && unchanged(dir)
      ensures old(cache).JObject? && key in ToMap(old(cache).fields) ==>
        && cache == JObject(Remove(old(cache).fields, key))
        && ToMap(cache.fields) == ToMap(old(cache).fields) - {key}
        && dir.cacheKey == KeyFileAfter(old(dir.cacheKey), generated)
        && (r.Pass? <==> ValidKey(KeyOf(old(dir.cacheKey), generated)))
        && (r.Pass? ==> dir.cacheBin == Some(Sealed(cache, old(dir.cacheKey), generated, now, iv).value) && Persisted())
        && (r.Fail? ==> r == Fail(InvalidKey) && dir.cacheBin == old(dir.cacheBin))
    {
      match cache
      case JObject(fields) =>
        if Lookup(fields, key).None? {
          return Fail(KeyNotFound(key));
        }
        RemoveWellFormed(fields, key);
        cache := JObject(Remove(fields, key));
        r := SaveCache(generated, now, iv);
      case _ =>
        r := Fail(NotADict);
    }
  }
}
