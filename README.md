# Encrypted local token cache — a Dafny model

This project models `LocalCache` from `01-Login/cache_functions.py`. That class
is the token cache of an OAuth2 demo app. It keeps a key-value store in memory
(`self.cache`) and mirrors it, encrypted, in two files of the working directory:

- `cache.key` holds the Fernet key. `__get_fernet_key` reads it, or, if the file
  does not exist, writes a freshly generated key to it.
- `cache.bin` holds the Fernet token of `json.dumps(self.cache)`.

Constructing a `LocalCache` loads the dict from `cache.bin` if that file exists,
and starts empty otherwise. `get` reads memory only. `set` and `delete` change
the dict in memory first, then re-encrypt the whole dict and overwrite
`cache.bin`.

Modules, one per concern:

- `Wrappers`, `Octets` (wrappers.dfy): `Option`, `Result`, `Outcome`; bytes.
- `Json` (json.dfy): JSON values. An object is a sequence of pairs, because a
  Python dict keeps insertion order and `json.dumps` writes keys in that order.
  The module also holds the dict operations the cache uses (`Lookup` for
  `dict.get`, `Put` for item assignment, `Remove` for `pop`, `FromPairs` for the
  dict `json.loads` builds). Each is specified against `ToMap`, the finite map a
  pair sequence denotes.
- `JsonCodec` (json_codec.dfy): `Dumps`/`Loads`, a byte encoding standing in
  for `json.dumps(...).encode('utf-8')` and `json.loads`. The round trip is
  proved, not assumed.
- `Fernet` (fernet.dfy): a stand-in for the Fernet recipe. It uses Fernet's
  header layout (version, timestamp, IV). A key plus a checksum takes the place
  of the HMAC, so these are proved: decrypt after encrypt gives the plaintext
  back, a different key text is refused, and a changed byte of the decoded
  token is refused.
- `CacheFunctions` (cache_functions.dfy): the files as a `Directory` object, and
  specification functions over file contents: `KeyOf`, `KeyFileAfter`, `Loaded`,
  `Sealed`. Lemmas about the files, and the `LocalCache` class itself.
- `CacheScenarios` (scenarios.dfy): call sequences whose outcome follows from
  the contracts alone, including a process restart.

Inputs from outside become parameters:

- `generated` is the key `Fernet.generate_key()` would return.
- `now` is the clock.
- `iv` is `os.urandom(16)`.

Exceptions become `Err`/`Fail` values of `CacheError`:

- `InvalidKey` is Fernet's `ValueError` for a malformed key.
- `InvalidToken` is a decryption failure.
- `JsonDecodeError` is a `json.loads` failure.
- `NotADict` is an `AttributeError`/`TypeError` when `self.cache` is not a dict.
- `KeyNotFound` is the `KeyError` of `pop`.

`self.cache` is modelled as a JSON value, not as a dict. The code assigns
whatever `json.loads` returned, and the failure for a non-object surfaces only
at the next `get`/`set`/`delete`.

The class keeps `Valid()`: every object in the cache has unique keys. After the
constructor and after every `set`/`delete` that returns normally, it also keeps
`Persisted()`: loading the files as they stand gives back the in-memory cache,
whatever key a later load would generate. Once `cache.key` exists, no operation
changes it.

Behaviour that follows from the code, and that the model keeps:

- A `set` or `delete` whose save raises (a malformed `cache.key`) has already
  changed the dict in memory, while `cache.bin` keeps its old contents.
- If `cache.bin` exists but `cache.key` does not, loading writes a new key
  before decrypting. The decryption then fails (`OtherKeyRejected`), and the
  new key file stays behind.

The model follows the code as written, in-memory mirror included: `get`
never rereads `cache.bin`, and nothing is reloaded before `set` or `delete`.

## Model

| member | source | states |
|---|---|---|
| `CacheFunctions.LocalCache.Open` | 01-Login/cache_functions.py:7-9 | Constructing succeeds exactly when loading succeeds, and fails with the load's error otherwise. The new object's cache is the loaded value, it is valid, and the files load back to it. With no `cache.bin`, the cache is the empty dict and `cache.key` is not created. |
| `CacheFunctions.LocalCache.Get` | 01-Login/cache_functions.py:11-12 | For a dict, returns the value stored under `key` if the key is present and `default` otherwise. Otherwise it fails with `NotADict`. It modifies nothing: no field and no file. |
| `CacheFunctions.LocalCache.Set` | 01-Login/cache_functions.py:14-16 | The dict maps `key` to `value` with every other key unchanged: `ToMap` becomes `old[key := value]`, and an existing key keeps its position. Then the save runs. On success `cache.bin` is the token of the new dict and the files load back to it. On `InvalidKey`, `cache.bin` is unchanged. A non-dict cache fails with `NotADict` and changes nothing. `expires` has no effect. An existing key file is never changed. |
| `CacheFunctions.LocalCache.Delete` | 01-Login/cache_functions.py:18-20 | An absent key fails with `KeyNotFound` before any save: the cache and both files are unchanged. A present key is removed with all other entries unchanged (`ToMap` becomes `old - {key}`). Then `cache.bin` is rewritten to encode the new dict, with the same success and failure cases as `Set`. |
| `CacheFunctions.LocalCache.LoadCache` | 01-Login/cache_functions.py:22-31 | Returns `Loaded` of the files as they were. `cache.bin` is untouched. The key is fetched, and possibly created, only when `cache.bin` exists. |
| `CacheFunctions.LocalCache.SaveCache` | 01-Login/cache_functions.py:33-38 | `cache.key` becomes `KeyFileAfter` of its old contents. On success `cache.bin` holds `Encrypt(key, Dumps(cache))` and the files load back to the cache. A malformed key fails with `InvalidKey` and leaves `cache.bin` unchanged. |
| `CacheFunctions.LocalCache.GetFernetKey` | 01-Login/cache_functions.py:40-48 | Returns the existing contents of `cache.key` unchanged when the file exists. Otherwise it writes the generated key to `cache.key` and returns it. `cache.bin` is untouched. |
| `CacheFunctions.KeyIsStable` | 01-Login/cache_functions.py:40-48 | An existing key file is left as it is. A second `__get_fernet_key` returns the same key as the first and leaves the key file as the first call left it. |
| `CacheFunctions.LoadAfterSave` | 01-Login/cache_functions.py:22-38 | What `__save_cache` writes, `__load_cache` reads back as the same dict. This uses the key file the save left, whatever key the later load would generate. |
| `CacheFunctions.TamperedFileRejected` | 01-Login/cache_functions.py:22-31 | A saved token with any one of its decoded bytes changed makes the load fail with `InvalidToken`. It is never read as a different dict. |
| `CacheFunctions.OtherKeyRejected` | 01-Login/cache_functions.py:22-31 | A `cache.bin` written under one key fails to load with `InvalidToken` under any other valid key text in `cache.key`. |
| `Json.Lookup` | 01-Login/cache_functions.py:12 | `dict.get` returns `Some(ToMap(d)[k])` when `k` is in the dict's map, and `None` otherwise. |
| `Json.Put` | 01-Login/cache_functions.py:15 | Item assignment: the map becomes `ToMap(d)[k := v]`. Order: an existing key keeps its place and a new key goes last. No pair other than `(k, v)` appears. Unique keys are preserved. |
| `Json.Remove` | 01-Login/cache_functions.py:19 | `pop` of a present key: the map becomes `ToMap(d) - {k}`. The result is the dict with the one pair for `k` cut out, so the other pairs keep their insertion order. There is one pair fewer, no new pairs appear, and the keys stay unique. |
| `Json.IndexOf` | 01-Login/cache_functions.py:12 | The position found holds the key and is its last occurrence. `None` means the key occurs nowhere. |
| `Json.FromPairs` | 01-Login/cache_functions.py:28 | The dict `json.loads` builds from an object's pairs has unique keys. It denotes the same map as the pairs (a later pair wins) and contains only pairs that were read. |
| `Json.FromPairsOfDict` | 01-Login/cache_functions.py:28 | Building a dict from the pairs of a dict gives back that dict, order included. |
| `JsonCodec.LoadsDumps` | 01-Login/cache_functions.py:28-34 | `Loads(Dumps(j)) == Some(j)` for every JSON value whose objects have unique keys. |
| `JsonCodec.ValueRoundTrip` | 01-Login/cache_functions.py:28-34 | Decoding `Dumps(j)` followed by any bytes gives `j` and exactly those bytes. This is proved by induction jointly with the array and object cases. |
| `JsonCodec.Loads` | 01-Login/cache_functions.py:28 | Anything `Loads` accepts is a value in which every object has unique keys, so the loaded cache is valid. |
| `JsonCodec.DecodeValue` | 01-Login/cache_functions.py:28 | A decoded value consumes at least one byte and is well formed. |
| `Fernet.DecryptEncrypt` | 01-Login/cache_functions.py:24-36 | Decrypting a token with the key that made it gives back the plaintext. |
| `Fernet.WrongKeyRejected` | 01-Login/cache_functions.py:24-27 | A token made under one key fails to decrypt under any other valid key text. |
| `Fernet.TamperRejected` | 01-Login/cache_functions.py:27 | Changing any single byte of a decoded token makes decryption fail. |
| `CacheScenarios.SetThenGet` | 01-Login/cache_functions.py:11-16 | After `set(k, v)`, `get(k)` returns `v`, and `get` of another key returns what it returned before. |
| `CacheScenarios.Overwrite` | 01-Login/cache_functions.py:14-16 | `set(k, a)` then `set(k, b)` leaves `get(k) == b`. |
| `CacheScenarios.DeleteThenGet` | 01-Login/cache_functions.py:11-20 | After `set(k, v)` and `delete(k)`, `get(k, default)` returns `default`. The delete can fail only with `InvalidKey`. |
| `CacheScenarios.DeleteTwice` | 01-Login/cache_functions.py:18-20 | A second `delete` of the same key raises `KeyError` (`KeyNotFound`). |
| `CacheScenarios.SetThenRestart` | 01-Login/cache_functions.py:7-38 | After a successful `set`, a new `LocalCache` on the same directory holds the same dict, with `k` mapped to `v`. This holds whatever key the new instance would have generated. |

## Left out

- Real Fernet cryptography is not modelled: AES-CBC, HMAC-SHA256, PKCS7 padding and the base64 text of the token. The token body is the plaintext itself, so confidentiality is not modelled. The key in the tag position stands in for the HMAC.
- The base64 text of `cache.bin` and `cache.key` is not modelled: `cacheBin` holds the decoded token bytes, and keys are compared as text. Fernet decodes both with a lenient url-safe base64 decoder, which drops bytes outside the alphabet (a trailing newline), accepts `+` and `/` in place of `-` and `_`, and ignores the unused low bits of the last character. So several file texts can denote one token, and two key texts can denote one 32-byte key.
- Fernet.TamperRejected: covers changing one byte of the decoded token. Truncated or extended tokens, and changes to several bytes, are not covered. Changes to the file text that decode to the same token are accepted by real Fernet and are outside the model.
- Fernet.WrongKeyRejected: states rejection for a different key text. Real Fernet also accepts a key text that decodes to the same 32 bytes, for example one that differs only in the unused low bits of its last character; the same holds for CacheFunctions.OtherKeyRejected.
- Fernet.ValidKey: stands in for the check `Fernet(key)` makes by a syntactic test: 43 url-safe base64 characters followed by `=`. Python's lenient base64 decoding, described above, is not modelled.
- JSON text is not modelled. `Dumps` is a tagged binary encoding, not the text `json.dumps` writes, and there is no UTF-8 step. Only the round trip and the `dict(pairs)` semantics of objects are kept.
- Floating-point JSON numbers are left out: numbers are integers. Keys are strings; Python's conversion of non-string dict keys by `json.dumps` is not modelled.
- CacheFunctions.LocalCache.Set: requires the value to be a JSON value whose objects have unique keys. Python values that `json.dumps` cannot serialise (they raise `TypeError` inside `__save_cache`) are not modelled. Nor is the `ValueError` that Python 3.11 and later raise when converting an integer of more than 4300 digits to text; `JNumber` takes any integer.
- JSON values are immutable here, so reference sharing (aliasing) is not modelled. In Python, `set` stores a reference to the caller's object and `get` returns the stored object itself. A caller that mutates such an object changes `self.cache` without `__save_cache` running, and memory and `cache.bin` then disagree. `Persisted()` and `CacheScenarios.SetThenGet` hold only while callers do not mutate values passed to `set` or returned by `get`.
- The `generated` parameter is any byte sequence, although `Fernet.generate_key()` always returns a valid key. No property depends on this: a generated key that is not valid leads to the `InvalidKey` path, which `Fernet.generate_key()` never takes.
- File I/O failures are not modelled: permissions, missing directory, disk full, and partial or interrupted writes. Each file is an optional byte sequence that is replaced whole.
- Concurrency is not modelled. Two processes racing to create `cache.key`, and the lost updates of the non-atomic modify-and-save cycle, are outside a sequential model.
- The `dict` base class is not modelled. `super().__init__()` leaves the object itself an empty dict that the code never uses.
- The randomness of `Fernet.generate_key()` and `os.urandom(16)`, and the clock, are parameters. The timestamp is bounded to 64 bits, as the token's timestamp field is.
- Operations on a cache that is not a dict, for example when `cache.bin` held a JSON list, fail with one error, `NotADict`. The model does not distinguish Python's `AttributeError` from its `TypeError`.
