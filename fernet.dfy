/**
 * A stand-in for the Fernet recipe of the cryptography package: the token
 * layout of the Fernet specification (version byte 0x80, 8-byte big-endian
 * timestamp, 16-byte IV, body, 32-byte HMAC-SHA256) with the cryptography
 * replaced by something whose properties can be proved. The body is the
 * plaintext itself, not its AES-CBC encryption, and the place of the HMAC is
 * taken by the key followed by a one-byte checksum of everything before it.
 * What the cache relies on holds and is proved below: decrypting a token with
 * the key that made it gives back the plaintext; another key text, or any
 * change to a single byte of the token, makes decryption fail with
 * InvalidToken. A token here is the decoded bytes of the token, not its
 * base64 text.
 */
module Fernet {
  import opened Wrappers
  import opened Octets

  const Version: Byte := 0x80
  /** A key is the url-safe base64 text of 32 bytes: 43 characters and one '='. */
  const KeyLength: nat := 44
  const TimestampLength: nat := 8
  const IvLength: nat := 16
  const HeaderLength: nat := 1 + TimestampLength + IvLength
  const TagLength: nat := KeyLength + 1

  /** Seconds since the epoch, as the token's 64-bit timestamp field holds them. */
  type Time = t: nat | t < 0x1_0000_0000_0000_0000

  /** The 16 random bytes os.urandom gives for each token. */
  type Iv = s: Bytes | |s| == IvLength witness seq(16, i => 0)

  predicate IsUrlSafeBase64(b: Byte) {
    'A' as int <= b <= 'Z' as int || 'a' as int <= b <= 'z' as int
    || '0' as int <= b <= '9' as int || b == '-' as int || b == '_' as int
  }

  /**
   * The key texts Fernet(key) accepts, by a syntactic test: 43 url-safe base64
   * characters and a '='. Keys are compared as text, not as the 32 bytes they
   * decode to.
   */
  predicate ValidKey(key: Bytes) {
    && |key| == KeyLength
    && (forall i | 0 <= i < KeyLength - 1 :: IsUrlSafeBase64(key[i]))
    && key[KeyLength - 1] == '=' as int
  }

  function BigEndian(n: nat, len: nat): (s: Bytes)
    ensures |s| == len
  {
    if len == 0 then [] else BigEndian(n / 256, len - 1) + [n % 256]
  }

  function Sum(s: Bytes): int
  {
    if |s| == 0 then 0 else s[0] + Sum(s[1..])
  }

  function Checksum(s: Bytes): Byte
  {
    Sum(s) % 256
  }

  /** Fernet(key).encrypt_at_time(data, now) with the IV drawn as iv. */
  function Encrypt(key: Bytes, data: Bytes, now: Time, iv: Iv): (token: Bytes)
    requires ValidKey(key)
    ensures |token| == HeaderLength + |data| + TagLength
  {
    var signed := [Version] + BigEndian(now, TimestampLength) + iv + data;
    signed + key + [Checksum(signed)]
  }

  /** Fernet(key).decrypt(token) with no ttl; None stands for InvalidToken. */
  function Decrypt(key: Bytes, token: Bytes): (r: Option<Bytes>)
    requires ValidKey(key)
    ensures r.Some? ==> HeaderLength + |r.value| + TagLength == |token|
  {
    var n := |token|;
    if n < HeaderLength + TagLength || token[0] != Version then None
    else if token[n - TagLength..n - 1] != key || token[n - 1] != Checksum(token[..n - TagLength]) then None
    else Some(token[HeaderLength..n - TagLength])
  }

  lemma {:induction false} SumUpdate(s: Bytes, i: nat, b: Byte)
    requires i < |s|
    ensures Sum(s[i := b]) == Sum(s) - s[i] + b
  {
    if i == 0 {
      assert s[i := b][1..] == s[1..];
    } else {
      assert s[i := b][1..] == s[1..][i - 1 := b];
      SumUpdate(s[1..], i - 1, b);
    }
  }

  lemma ChecksumUpdate(s: Bytes, i: nat, b: Byte)
    requires i < |s| && b != s[i]
    ensures Checksum(s[i := b]) != Checksum(s)
  {
    SumUpdate(s, i, b);
  }

  /** The plaintext comes back under the key that encrypted it. */
  lemma DecryptEncrypt(key: Bytes, data: Bytes, now: Time, iv: Iv)
    requires ValidKey(key)
    ensures Decrypt(key, Encrypt(key, data, now, iv)) == Some(data)
  {
    var signed := [Version] + BigEndian(now, TimestampLength) + iv + data;
    var token := Encrypt(key, data, now, iv);
    var n := |token|;
    assert token[..n - TagLength] == signed;
    assert token[n - TagLength..n - 1] == key;
    assert token[HeaderLength..n - TagLength] == data;
  }

  /** A token made under one key is refused under any other. */
  lemma WrongKeyRejected(key: Bytes, other: Bytes, data: Bytes, now: Time, iv: Iv)
    requires ValidKey(key) && ValidKey(other) && key != other
    ensures Decrypt(other, Encrypt(key, data, now, iv)).None?
  {
    var token := Encrypt(key, data, now, iv);
    var n := |token|;
    assert token[n - TagLength..n - 1] == key;
  }

  /** Changing any one byte of a token makes it fail to decrypt. */
  lemma TamperRejected(key: Bytes, data: Bytes, now: Time, iv: Iv, i: nat, b: Byte)
    requires ValidKey(key)
    requires i < |Encrypt(key, data, now, iv)| && b != Encrypt(key, data, now, iv)[i]
    ensures Decrypt(key, Encrypt(key, data, now, iv)[i := b]).None?
  {
    var token := Encrypt(key, data, now, iv);
    var n := |token|;
    var signed := [Version] + BigEndian(now, TimestampLength) + iv + data;
    assert token[..n - TagLength] == signed;
    var forged := token[i := b];
    if i < n - TagLength {
      assert forged[..n - TagLength] == signed[i := b];
      ChecksumUpdate(signed, i, b);
    } else if i < n - 1 {
      assert forged[n - TagLength..n - 1][i - (n - TagLength)] == b;
      assert token[n - TagLength..n - 1] == key;
    } else {
      assert forged[..n - TagLength] == signed;
    }
  }
}
