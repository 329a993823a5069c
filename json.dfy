/**
 * JSON values as the cache stores them, and the Python dict operations the
 * cache applies to a JSON object.
 *
 * A Python dict keeps its keys in insertion order and json.dumps writes them in
 * that order, so an object is a sequence of (key, value) pairs. ToMap is the
 * reference view of such a sequence as a finite map, with a later pair for a
 * key overriding an earlier one, as dict(pairs) does.
 */
module Json {
  import opened Wrappers

  datatype Json =
    | JNull
    | JBool(b: bool)
    | JNumber(n: int)
    | JString(s: string)
    | JArray(items: seq<Json>)
    | JObject(fields: seq<(string, Json)>)

  type Fields = seq<(string, Json)>

  /** No key occurs twice: true of every Python dict. */
  predicate UniqueKeys(d: Fields) {
    forall i, j | 0 <= i < j < |d| :: d[i].0 != d[j].0
  }

  /** A value some Python object could be: every object in it has unique keys. */
  predicate WellFormed(j: Json)
    decreases j
  {
    match j
    case JArray(items) => forall i | 0 <= i < |items| :: WellFormed(items[i])
    case JObject(fields) =>
      UniqueKeys(fields) && forall i | 0 <= i < |fields| :: WellFormed(fields[i].1)
    case _ => true
  }

  /** The keys of an object, in order. */
  function Keys(d: Fields): (ks: seq<string>)
    ensures |ks| == |d| && forall i | 0 <= i < |d| :: ks[i] == d[i].0
  {
    seq(|d|, i requires 0 <= i < |d| => d[i].0)
  }

  /** The mapping a pair sequence denotes; the last pair for a key wins. */
  function ToMap(d: Fields): map<string, Json>
  {
    if |d| == 0 then map[] else ToMap(d[..|d| - 1])[d[|d| - 1].0 := d[|d| - 1].1]
  }

  /** The position of the last pair whose key is k. */
  function IndexOf(d: Fields, k: string): (r: Option<nat>)
    ensures r.Some? ==> r.value < |d| && d[r.value].0 == k
    ensures r.Some? ==> forall j | r.value < j < |d| :: d[j].0 != k
    ensures r.None? ==> forall j | 0 <= j < |d| :: d[j].0 != k
  {
    if |d| == 0 then None
    else if d[|d| - 1].0 == k then Some(|d| - 1)
    else IndexOf(d[..|d| - 1], k)
  }

  lemma {:induction false} AbsentNotInMap(d: Fields, k: string)
    requires forall j | 0 <= j < |d| :: d[j].0 != k
    ensures k !in ToMap(d)
  {
    if |d| > 0 {
      AbsentNotInMap(d[..|d| - 1], k);
    }
  }

  /** The pair IndexOf finds is the one ToMap keeps. */
  lemma {:induction false} IndexOfInMap(d: Fields, k: string)
    ensures IndexOf(d, k).None? <==> k !in ToMap(d)
    ensures IndexOf(d, k).Some? ==> ToMap(d)[k] == d[IndexOf(d, k).value].1
  {
    if |d| > 0 && d[|d| - 1].0 != k {
      IndexOfInMap(d[..|d| - 1], k);
    }
    if IndexOf(d, k).None? {
      AbsentNotInMap(d, k);
    }
  }

  /** dict.get(k): the value stored under k, if any. */
  function Lookup(d: Fields, k: string): (r: Option<Json>)
    ensures r == if k in ToMap(d) then Some(ToMap(d)[k]) else None
  {
    IndexOfInMap(d, k);
    match IndexOf(d, k)
    case Some(i) => Some(d[i].1)
    case None => None
  }

  lemma {:induction false} ReplaceLast(d: Fields, i: nat, v: Json)
    requires i < |d|
    requires forall j | i < j < |d| :: d[j].0 != d[i].0
    ensures ToMap(d[i := (d[i].0, v)]) == ToMap(d)[d[i].0 := v]
  {
    var n := |d|;
    var e := d[i := (d[i].0, v)];
    if i == n - 1 {
      assert e[..n - 1] == d[..n - 1];
    } else {
      assert e[..n - 1] == d[..n - 1][i := (d[i].0, v)];
      ReplaceLast(d[..n - 1], i, v);
    }
  }

  /**
   * d[k] = v: an existing key keeps its position and takes the new value, a
   * new key goes to the end.
   */
  function Put(d: Fields, k: string, v: Json): (r: Fields)
    ensures ToMap(r) == ToMap(d)[k := v]
    ensures Keys(r) == if k in ToMap(d) then Keys(d) else Keys(d) + [k]
    ensures forall i | 0 <= i < |r| :: r[i] in d || r[i] == (k, v)
    ensures UniqueKeys(d) ==> UniqueKeys(r)
  {
    IndexOfInMap(d, k);
    match IndexOf(d, k)
    case Some(i) =>
      ReplaceLast(d, i, v);
      d[i := (k, v)]
    case None =>
      assert (d + [(k, v)])[..|d|] == d;
      d + [(k, v)]
  }

  lemma {:induction false} RemoveAt(d: Fields, i: nat)
    requires UniqueKeys(d) && i < |d|
    ensures ToMap(d[..i] + d[i + 1..]) == ToMap(d) - {d[i].0}
  {
    var n := |d|;
    var k := d[i].0;
    var e := d[..n - 1];
    if i == n - 1 {
      assert d[..i] + d[i + 1..] == e;
      AbsentNotInMap(e, k);
    } else {
      var lk := d[n - 1].0;
      assert (d[..i] + d[i + 1..])[..n - 2] == e[..i] + e[i + 1..];
      assert (d[..i] + d[i + 1..])[n - 2] == d[n - 1];
      RemoveAt(e, i);
      assert lk != k;
    }
  }

  /**
   * d.pop(k) for a present key: the pair for k is gone, nothing else changes,
   * and the remaining pairs keep their insertion order.
   */
  function Remove(d: Fields, k: string): (r: Fields)
    requires UniqueKeys(d) && k in ToMap(d)
    ensures ToMap(r) == ToMap(d) - {k}
    ensures exists i | 0 <= i < |d| :: d[i].0 == k && r == d[..i] + d[i + 1..]
    ensures UniqueKeys(r)
    ensures |r| == |d| - 1
    ensures forall i | 0 <= i < |r| :: r[i] in d
  {
    IndexOfInMap(d, k);
    var i := IndexOf(d, k).value;
    RemoveAt(d, i);
    var r := d[..i] + d[i + 1..];
    assert forall a | 0 <= a < |r| :: r[a] == if a < i then d[a] else d[a + 1];
    r
  }

  /**
   * The dict json.loads builds from the pairs of an object, in the order it
   * reads them: key order is that of first occurrences, and a later pair for a
   * key replaces the value of an earlier one.
   */
  function FromPairs(ps: Fields): (r: Fields)
    ensures UniqueKeys(r)
    ensures ToMap(r) == ToMap(ps)
    ensures forall i | 0 <= i < |r| :: r[i] in ps
  {
    if |ps| == 0 then []
    else
      var init := FromPairs(ps[..|ps| - 1]);
      var r := Put(init, ps[|ps| - 1].0, ps[|ps| - 1].1);
      assert forall i | 0 <= i < |r| :: r[i] in ps by {
        forall i | 0 <= i < |r| ensures r[i] in ps {
          if r[i] in init {
            assert r[i] in ps[..|ps| - 1];
          }
        }
      }
      r
  }

  /** Building a dict from the pairs of a dict gives back that dict. */
  lemma {:induction false} FromPairsOfDict(ps: Fields)
    requires UniqueKeys(ps)
    ensures FromPairs(ps) == ps
  {
    if |ps| > 0 {
      var n := |ps|;
      var e := ps[..n - 1];
      assert e + [ps[n - 1]] == ps;
      assert UniqueKeys(e);
      FromPairsOfDict(e);
      assert forall j | 0 <= j < |e| :: e[j].0 != ps[n - 1].0;
      assert IndexOf(e, ps[n - 1].0).None?;
      assert FromPairs(ps) == Put(e, ps[n - 1].0, ps[n - 1].1);
    }
  }

  lemma PutWellFormed(d: Fields, k: string, v: Json)
    requires WellFormed(JObject(d)) && WellFormed(v)
    ensures WellFormed(JObject(Put(d, k, v)))
  {
    var r := Put(d, k, v);
    forall i | 0 <= i < |r| ensures WellFormed(r[i].1) {
      if r[i] != (k, v) {
        var j :| 0 <= j < |d| && d[j] == r[i];
      }
    }
  }

  lemma RemoveWellFormed(d: Fields, k: string)
    requires WellFormed(JObject(d)) && k in ToMap(d)
    ensures WellFormed(JObject(Remove(d, k)))
  {
    var r := Remove(d, k);
    forall i | 0 <= i < |r| ensures WellFormed(r[i].1) {
      var j :| 0 <= j < |d| && d[j] == r[i];
    }
  }
}
