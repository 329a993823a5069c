/**
 * A byte encoding of JSON values standing in for json.dumps(...).encode('utf-8')
 * and json.loads. It is not JSON text: every value is a tag byte followed by
 * length-prefixed contents, numbers and lengths as base-128 varints. What the
 * cache relies on is proved of it: Loads(Dumps(j)) == Some(j), and whatever
 * Loads accepts is a value a Python program could hold.
 */
module JsonCodec {
  import opened Wrappers
  import opened Octets
  import opened Json

  const TagNull: Byte := 0
  const TagFalse: Byte := 1
  const TagTrue: Byte := 2
  const TagNat: Byte := 3
  const TagNeg: Byte := 4
  const TagString: Byte := 5
  const TagArray: Byte := 6
  const TagObject: Byte := 7

  /** A parse that succeeded, with the input left over. */
  type Parsed<T> = Option<(T, Bytes)>

  // ---------------------------------------------------------------- encoding

  /** Little-endian base-128: the high bit of a byte says another byte follows. */
  function EncodeNat(n: nat): (s: Bytes)
    decreases n
  {
    if n < 128 then [n] else [128 + n % 128] + EncodeNat(n / 128)
  }

  function EncodeChars(s: string): Bytes
  {
    if |s| == 0 then [] else EncodeNat(s[0] as int) + EncodeChars(s[1..])
  }

  function EncodeString(s: string): Bytes
  {
    EncodeNat(|s|) + EncodeChars(s)
  }

  function Dumps(j: Json): Bytes
    decreases j, 1
  {
    match j
    case JNull => [TagNull]
    case JBool(b) => [if b then TagTrue else TagFalse]
    case JNumber(n) => if n < 0 then [TagNeg] + EncodeNat(-n) else [TagNat] + EncodeNat(n)
    case JString(s) => [TagString] + EncodeString(s)
    case JArray(items) => [TagArray] + EncodeNat(|items|) + DumpsItems(items)
    case JObject(fields) => [TagObject] + EncodeNat(|fields|) + DumpsFields(fields)
  }

  function DumpsItems(items: seq<Json>): Bytes
    decreases items, 0
  {
    if |items| == 0 then [] else Dumps(items[0]) + DumpsItems(items[1..])
  }

  function DumpsFields(fields: Fields): Bytes
    decreases fields, 0
  {
    if |fields| == 0 then []
    else
      assert fields[0].1 < fields[0];
      EncodeString(fields[0].0) + Dumps(fields[0].1) + DumpsFields(fields[1..])
  }

  // ---------------------------------------------------------------- decoding

  function DecodeNat(s: Bytes): (r: Parsed<nat>)
    ensures r.Some? ==> |r.value.1| < |s|
  {
    if |s| == 0 then None
    else if s[0] < 128 then Some((s[0], s[1..]))
    else
      match DecodeNat(s[1..])
      case None => None
      case Some((m, rest)) => Some((s[0] - 128 + 128 * m, rest))
  }

  /** The code points a Dafny char (a Unicode scalar value) can have. */
  predicate IsScalar(c: nat) {
    c < 0xD800 || 0xE000 <= c < 0x11_0000
  }

  function DecodeChars(s: Bytes, n: nat): (r: Parsed<string>)
    ensures r.Some? ==> |r.value.1| <= |s| && |r.value.0| == n
    decreases n
  {
    if n == 0 then Some(([], s))
    else
      match DecodeNat(s)
      case None => None
      case Some((c, rest)) =>
        if !IsScalar(c) then None
        else
          match DecodeChars(rest, n - 1)
          case None => None
          case Some((cs, rest')) => Some(([c as char] + cs, rest'))
  }

  function DecodeString(s: Bytes): (r: Parsed<string>)
    ensures r.Some? ==> |r.value.1| < |s|
  {
    match DecodeNat(s)
    case None => None
    case Some((n, rest)) => DecodeChars(rest, n)
  }

  /** One value from the front of s; every object is built as json.loads builds a dict. */
  function DecodeValue(s: Bytes): (r: Parsed<Json>)
    ensures r.Some? ==> |r.value.1| < |s| && WellFormed(r.value.0)
    decreases |s|, 0
  {
    if |s| == 0 then None
    else
      var tag, rest := s[0], s[1..];
      if tag == TagNull then Some((JNull, rest))
      else if tag == TagFalse then Some((JBool(false), rest))
      else if tag == TagTrue then Some((JBool(true), rest))
      else if tag == TagNat || tag == TagNeg then
        match DecodeNat(rest)
        case None => None
        case Some((m, rest')) => Some((JNumber(if tag == TagNat then m else -(m as int)), rest'))
      else if tag == TagString then
        match DecodeString(rest)
        case None => None
        case Some((str, rest')) => Some((JString(str), rest'))
      else if tag == TagArray then DecodeArray(rest)
      else if tag == TagObject then DecodeObject(rest)
      else None
  }

  /** An array after its tag: the item count, then the items. */
  function DecodeArray(s: Bytes): (r: Parsed<Json>)
    ensures r.Some? ==> |r.value.1| < |s| && WellFormed(r.value.0)
    decreases |s|, 2
  {
    match DecodeNat(s)
    case None => None
    case Some((n, rest)) =>
      match DecodeItems(rest, n)
      case None => None
      case Some((items, rest')) => Some((JArray(items), rest'))
  }

  /** An object after its tag: the pair count, then the pairs, made into a dict. */
  function DecodeObject(s: Bytes): (r: Parsed<Json>)
    ensures r.Some? ==> |r.value.1| < |s| && WellFormed(r.value.0)
    decreases |s|, 2
  {
    match DecodeNat(s)
    case None => None
    case Some((n, rest)) =>
      match DecodeFields(rest, n)
      case None => None
      case Some((pairs, rest')) =>
        FromPairsWellFormed(pairs);
        Some((JObject(FromPairs(pairs)), rest'))
  }

  function DecodeItems(s: Bytes, n: nat): (r: Parsed<seq<Json>>)
    ensures r.Some? ==> |r.value.1| <= |s| && |r.value.0| == n
    ensures r.Some? ==> forall i | 0 <= i < n :: WellFormed(r.value.0[i])
    decreases |s|, 1, n
  {
    if n == 0 then Some(([], s))
    else
      match DecodeValue(s)
      case None => None
      case Some((j, rest)) =>
        match DecodeItems(rest, n - 1)
        case None => None
        case Some((js, rest')) => Some(([j] + js, rest'))
  }

  function DecodeFields(s: Bytes, n: nat): (r: Parsed<Fields>)
    ensures r.Some? ==> |r.value.1| <= |s| && |r.value.0| == n
    ensures r.Some? ==> forall i | 0 <= i < n :: WellFormed(r.value.0[i].1)
    decreases |s|, 1, n
  {
    if n == 0 then Some(([], s))
    else
      match DecodeString(s)
      case None => None
      case Some((k, rest)) =>
        match DecodeValue(rest)
        case None => None
        case Some((v, rest')) =>
          match DecodeFields(rest', n - 1)
          case None => None
          case Some((ps, rest'')) => Some(([(k, v)] + ps, rest''))
  }

  lemma FromPairsWellFormed(pairs: Fields)
    requires forall i | 0 <= i < |pairs| :: WellFormed(pairs[i].1)
    ensures WellFormed(JObject(FromPairs(pairs)))
  {
    var fields := FromPairs(pairs);
    forall i | 0 <= i < |fields| ensures WellFormed(fields[i].1) {
      var k :| 0 <= k < |pairs| && pairs[k] == fields[i];
    }
  }

  /** json.loads: exactly one value and no trailing bytes. */
  function Loads(s: Bytes): (r: Option<Json>)
    ensures r.Some? ==> WellFormed(r.value)
  {
    match DecodeValue(s)
    case Some((j, rest)) => if rest == [] then Some(j) else None
    case None => None
  }

  // ---------------------------------------------------------------- round trip

  lemma {:induction false} NatRoundTrip(n: nat, rest: Bytes)
    ensures DecodeNat(EncodeNat(n) + rest) == Some((n, rest))
    decreases n
  {
    if n >= 128 {
      NatRoundTrip(n / 128, rest);
      assert EncodeNat(n) + rest == [128 + n % 128] + (EncodeNat(n / 128) + rest);
    }
  }

  lemma AppendAssoc(a: Bytes, b: Bytes, c: Bytes)
    ensures (a + b) + c == a + (b + c)
  {
  }

  // One decoding step each, so that the inductive proofs below stay small.

  lemma CharsStep(x: Bytes, c: char, tail: Bytes, cs: string, rest: Bytes)
    requires DecodeNat(x) == Some((c as int, tail))
    requires DecodeChars(tail, |cs|) == Some((cs, rest))
    ensures DecodeChars(x, |cs| + 1) == Some(([c] + cs, rest))
  {
    assert IsScalar(c as int) && (c as int) as char == c;
  }

  lemma ItemsStep(x: Bytes, j: Json, tail: Bytes, js: seq<Json>, rest: Bytes)
    requires DecodeValue(x) == Some((j, tail))
    requires DecodeItems(tail, |js|) == Some((js, rest))
    ensures DecodeItems(x, |js| + 1) == Some(([j] + js, rest))
  {
  }

  lemma FieldsStep(x: Bytes, k: string, afterKey: Bytes, v: Json, tail: Bytes, ps: Fields, rest: Bytes)
    requires DecodeString(x) == Some((k, afterKey))
    requires DecodeValue(afterKey) == Some((v, tail))
    requires DecodeFields(tail, |ps|) == Some((ps, rest))
    ensures DecodeFields(x, |ps| + 1) == Some(([(k, v)] + ps, rest))
  {
  }

  lemma DecodeArrayBody(t: Bytes, items: seq<Json>, rest: Bytes)
    requires t == EncodeNat(|items|) + (DumpsItems(items) + rest)
    requires DecodeItems(DumpsItems(items) + rest, |items|) == Some((items, rest))
    ensures DecodeArray(t) == Some((JArray(items), rest))
  {
    NatRoundTrip(|items|, DumpsItems(items) + rest);
  }

  lemma DecodeObjectBody(t: Bytes, fields: Fields, rest: Bytes)
    requires UniqueKeys(fields)
    requires t == EncodeNat(|fields|) + (DumpsFields(fields) + rest)
    requires DecodeFields(DumpsFields(fields) + rest, |fields|) == Some((fields, rest))
    ensures DecodeObject(t) == Some((JObject(fields), rest))
  {
    NatRoundTrip(|fields|, DumpsFields(fields) + rest);
    FromPairsOfDict(fields);
  }

  lemma DecodeValueTag(x: Bytes)
    requires |x| > 0
    ensures x[0] == TagArray ==> DecodeValue(x) == DecodeArray(x[1..])
    ensures x[0] == TagObject ==> DecodeValue(x) == DecodeObject(x[1..])
  {
  }

  lemma DecodeArrayAt(x: Bytes, items: seq<Json>, rest: Bytes)
    requires x == [TagArray] + (EncodeNat(|items|) + (DumpsItems(items) + rest))
    requires DecodeItems(DumpsItems(items) + rest, |items|) == Some((items, rest))
    ensures DecodeValue(x) == Some((JArray(items), rest))
  {
    assert x[0] == TagArray && x[1..] == EncodeNat(|items|) + (DumpsItems(items) + rest);
    DecodeValueTag(x);
    DecodeArrayBody(x[1..], items, rest);
  }

  lemma DecodeObjectAt(x: Bytes, fields: Fields, rest: Bytes)
    requires UniqueKeys(fields)
    requires x == [TagObject] + (EncodeNat(|fields|) + (DumpsFields(fields) + rest))
    requires DecodeFields(DumpsFields(fields) + rest, |fields|) == Some((fields, rest))
    ensures DecodeValue(x) == Some((JObject(fields), rest))
  {
    assert x[0] == TagObject && x[1..] == EncodeNat(|fields|) + (DumpsFields(fields) + rest);
    DecodeValueTag(x);
    DecodeObjectBody(x[1..], fields, rest);
  }

  lemma NumberStep(n: int, rest: Bytes)
    ensures DecodeValue(Dumps(JNumber(n)) + rest) == Some((JNumber(n), rest))
  {
    var m := if n < 0 then -n else n;
    var x := Dumps(JNumber(n)) + rest;
    AppendAssoc([x[0]], EncodeNat(m), rest);
    NatRoundTrip(m, rest);
    assert x[1..] == EncodeNat(m) + rest;
  }

  lemma StringStep(str: string, rest: Bytes)
    ensures DecodeValue(Dumps(JString(str)) + rest) == Some((JString(str), rest))
  {
    var x := Dumps(JString(str)) + rest;
    AppendAssoc([TagString], EncodeString(str), rest);
    StringRoundTrip(str, rest);
    assert x[1..] == EncodeString(str) + rest;
  }

  lemma ArrayStep(items: seq<Json>, rest: Bytes)
    requires DecodeItems(DumpsItems(items) + rest, |items|) == Some((items, rest))
    ensures DecodeValue(Dumps(JArray(items)) + rest) == Some((JArray(items), rest))
  {
    var t, e, d := [TagArray], EncodeNat(|items|), DumpsItems(items);
    DumpsArray(items);
    AppendAssoc(t + e, d, rest);
    AppendAssoc(t, e, d + rest);
    DecodeArrayAt(Dumps(JArray(items)) + rest, items, rest);
  }

  lemma DumpsArray(items: seq<Json>)
    ensures Dumps(JArray(items)) == [TagArray] + EncodeNat(|items|) + DumpsItems(items)
  {
  }

  lemma DumpsObject(fields: Fields)
    ensures Dumps(JObject(fields)) == [TagObject] + EncodeNat(|fields|) + DumpsFields(fields)
  {
  }

  lemma DumpsFieldsCons(fields: Fields, rest: Bytes)
    requires |fields| > 0
    ensures DumpsFields(fields) + rest
         == EncodeString(fields[0].0) + (Dumps(fields[0].1) + (DumpsFields(fields[1..]) + rest))
  {
    var k, v, t := EncodeString(fields[0].0), Dumps(fields[0].1), DumpsFields(fields[1..]);
    assert DumpsFields(fields) == k + v + t;
    AppendAssoc(k + v, t, rest);
    AppendAssoc(k, v, t + rest);
  }

  lemma DumpsItemsCons(items: seq<Json>, rest: Bytes)
    requires |items| > 0
    ensures DumpsItems(items) + rest == Dumps(items[0]) + (DumpsItems(items[1..]) + rest)
  {
    AppendAssoc(Dumps(items[0]), DumpsItems(items[1..]), rest);
  }

  lemma ObjectStep(fields: Fields, rest: Bytes)
    requires UniqueKeys(fields)
    requires DecodeFields(DumpsFields(fields) + rest, |fields|) == Some((fields, rest))
    ensures DecodeValue(Dumps(JObject(fields)) + rest) == Some((JObject(fields), rest))
  {
    var t, e, d := [TagObject], EncodeNat(|fields|), DumpsFields(fields);
    DumpsObject(fields);
    AppendAssoc(t + e, d, rest);
    AppendAssoc(t, e, d + rest);
    DecodeObjectAt(Dumps(JObject(fields)) + rest, fields, rest);
  }

  lemma {:induction false} CharsRoundTrip(s: string, rest: Bytes)
    ensures DecodeChars(EncodeChars(s) + rest, |s|) == Some((s, rest))
  {
    if |s| > 0 {
      var tail := EncodeChars(s[1..]) + rest;
      assert EncodeChars(s) + rest == EncodeNat(s[0] as int) + tail;
      NatRoundTrip(s[0] as int, tail);
      CharsRoundTrip(s[1..], rest);
      CharsStep(EncodeChars(s) + rest, s[0], tail, s[1..], rest);
      assert [s[0]] + s[1..] == s;
    } else {
      assert EncodeChars(s) + rest == rest;
    }
  }

  lemma StringRoundTrip(s: string, rest: Bytes)
    ensures DecodeString(EncodeString(s) + rest) == Some((s, rest))
  {
    assert EncodeString(s) + rest == EncodeNat(|s|) + (EncodeChars(s) + rest);
    NatRoundTrip(|s|, EncodeChars(s) + rest);
    CharsRoundTrip(s, rest);
  }

  lemma {:induction false} ValueRoundTrip(j: Json, rest: Bytes)
    requires WellFormed(j)
    ensures DecodeValue(Dumps(j) + rest) == Some((j, rest))
    decreases j, 1
  {
    match j
    case JNull =>
    case JBool(b) =>
    case JNumber(n) =>
      NumberStep(n, rest);
    case JString(str) =>
      StringStep(str, rest);
    case JArray(items) =>
      ItemsRoundTrip(items, rest);
      ArrayStep(items, rest);
    case JObject(fields) =>
      FieldsRoundTrip(fields, rest);
      ObjectStep(fields, rest);
  }

  lemma {:induction false} ItemsRoundTrip(items: seq<Json>, rest: Bytes)
    requires forall i | 0 <= i < |items| :: WellFormed(items[i])
    ensures DecodeItems(DumpsItems(items) + rest, |items|) == Some((items, rest))
    decreases items, 0
  {
    if |items| > 0 {
      var tail := DumpsItems(items[1..]) + rest;
      DumpsItemsCons(items, rest);
      ValueRoundTrip(items[0], tail);
      ItemsRoundTrip(items[1..], rest);
      ItemsStep(DumpsItems(items) + rest, items[0], tail, items[1..], rest);
      assert [items[0]] + items[1..] == items;
    } else {
      assert DumpsItems(items) + rest == rest;
    }
  }

  lemma {:induction false} FieldsRoundTrip(fields: Fields, rest: Bytes)
    requires forall i | 0 <= i < |fields| :: WellFormed(fields[i].1)
    ensures DecodeFields(DumpsFields(fields) + rest, |fields|) == Some((fields, rest))
    decreases fields, 0
  {
    if |fields| > 0 {
      var tail := DumpsFields(fields[1..]) + rest;
      var afterKey := Dumps(fields[0].1) + tail;
      DumpsFieldsCons(fields, rest);
      StringRoundTrip(fields[0].0, afterKey);
      assert fields[0].1 < fields[0];
      ValueRoundTrip(fields[0].1, tail);
      FieldsRoundTrip(fields[1..], rest);
      FieldsStep(DumpsFields(fields) + rest, fields[0].0, afterKey, fields[0].1, tail, fields[1..], rest);
      assert [(fields[0].0, fields[0].1)] + fields[1..] == fields;
    } else {
      assert DumpsFields(fields) + rest == rest;
    }
  }

  /** json.loads(json.dumps(j)) == j for every value a Python program can hold. */
  lemma LoadsDumps(j: Json)
    requires WellFormed(j)
    ensures Loads(Dumps(j)) == Some(j)
  {
    ValueRoundTrip(j, []);
    assert Dumps(j) + [] == Dumps(j);
  }
}
