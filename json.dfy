/** JSON values as the generator sees them: schema nodes, literals inside a schema
    (`default`, `enum`) and generated values all share this one representation.
    An object keeps its bindings in order, as a Python dict does. */
module Json {

  datatype Option<+T> = None | Some(value: T)

  datatype Json =
    | JNull
    | JBool(b: bool)
    | JInt(i: int)
    | JStr(s: string)
    | JArr(elems: seq<Json>)
    | JObj(fields: seq<(string, Json)>)

  /** The bindings of a JSON object, in insertion order. */
  type Fields = seq<(string, Json)>

  function Keys(fs: Fields): seq<string>
  {
    seq(|fs|, i requires 0 <= i < |fs| => fs[i].0)
  }

  /** A Python dict never binds one key twice. */
  predicate IsDict(fs: Fields)
  {
    forall i, j :: 0 <= i < j < |fs| ==> fs[i].0 != fs[j].0
  }

  /** Index of the first binding of `k`, or `|fs|` when `k` is not bound. */
  function Find(fs: Fields, k: string): (i: nat)
    ensures i <= |fs|
    ensures i < |fs| ==> fs[i].0 == k
    ensures forall j :: 0 <= j < i ==> fs[j].0 != k
  {
    if |fs| == 0 then 0
    else if fs[0].0 == k then 0
    else 1 + Find(fs[1..], k)
  }

  /** Python's `k in d`. */
  predicate Has(fs: Fields, k: string)
  {
    Find(fs, k) < |fs|
  }

  /** Python's `d.get(k)`. */
  function Get(fs: Fields, k: string): Option<Json>
  {
    var i := Find(fs, k);
    if i < |fs| then Some(fs[i].1) else None
  }

  /** Python's `t in s` on two strings: `t` occurs in `s` as a substring. */
  predicate IsSubstring(t: string, s: string)
  {
    exists i :: 0 <= i <= |s| && t <= s[i..]
  }

  /** Python's `key in node` for a node that is not a mapping: a substring
      test on a string, a membership test on a list. */
  predicate Mentions(node: Json, key: string)
    requires node.JStr? || node.JArr?
  {
    if node.JStr? then IsSubstring(key, node.s) else JStr(key) in node.elems
  }

  lemma HasIffKey(fs: Fields, k: string)
    ensures Has(fs, k) <==> k in Keys(fs)
  {
    if k in Keys(fs) {
      var j :| 0 <= j < |fs| && Keys(fs)[j] == k;
      assert Find(fs, k) <= j;
    }
    if Has(fs, k) {
      assert Keys(fs)[Find(fs, k)] == k;
    }
  }

  /** Lookup in an object whose first binding is `x`. */
  lemma GetCons(x: (string, Json), rest: Fields, k: string)
    ensures Get([x] + rest, k) == if x.0 == k then Some(x.1) else Get(rest, k)
    ensures Has([x] + rest, k) <==> x.0 == k || Has(rest, k)
    ensures Keys([x] + rest) == [x.0] + Keys(rest)
  {
    assert ([x] + rest)[1..] == rest;
  }

  /** Lookup in a one-binding object. */
  lemma GetSingle(a: (string, Json), k: string)
    ensures Get([a], k) == if a.0 == k then Some(a.1) else None
  {
    assert [a] == [a] + [];
    GetCons(a, [], k);
  }

  /** Lookup in a two-binding object. */
  lemma GetPair(a: (string, Json), b: (string, Json), k: string)
    ensures Get([a, b], k) == if a.0 == k then Some(a.1) else if b.0 == k then Some(b.1) else None
  {
    assert [a, b] == [a] + [b];
    GetCons(a, [b], k);
    assert [b] == [b] + [];
    GetCons(b, [], k);
  }

  /** Lookup in a three-binding object. */
  lemma GetTriple(a: (string, Json), b: (string, Json), c: (string, Json), k: string)
    ensures Get([a, b, c], k) ==
      if a.0 == k then Some(a.1) else if b.0 == k then Some(b.1) else if c.0 == k then Some(c.1) else None
  {
    assert [a, b, c] == [a] + [b, c];
    GetCons(a, [b, c], k);
    GetPair(b, c, k);
  }

  /** `d.get(k)` is the value of the first binding of `k`, and `None`
      exactly when `k` is not a key. */
  lemma GetSpec(fs: Fields, k: string)
    ensures Get(fs, k).None? <==> k !in Keys(fs)
    ensures Get(fs, k).Some? ==>
      exists i :: 0 <= i < |fs| && fs[i] == (k, Get(fs, k).value) && forall j :: 0 <= j < i ==> fs[j].0 != k
  {
    HasIffKey(fs, k);
    if Get(fs, k).Some? {
      var i := Find(fs, k);
      assert fs[i] == (k, Get(fs, k).value);
    }
  }

  /** The object with every binding of `k` removed (`d.pop(k, None)`). */
  function Without(fs: Fields, k: string): (r: Fields)
    ensures !Has(r, k)
    ensures forall k' :: k' != k ==> Get(r, k') == Get(fs, k')
  {
    if |fs| == 0 then []
    else
      var rest := Without(fs[1..], k);
      assert fs == [fs[0]] + fs[1..];
      forall k' ensures Get(fs, k') == if fs[0].0 == k' then Some(fs[0].1) else Get(fs[1..], k') {
        GetCons(fs[0], fs[1..], k');
      }
      forall k' ensures Get([fs[0]] + rest, k') == if fs[0].0 == k' then Some(fs[0].1) else Get(rest, k') {
        GetCons(fs[0], rest, k');
      }
      if fs[0].0 == k then rest else [fs[0]] + rest
  }

  /** Python's `d[k] = v`: an existing key keeps its position and gets the new
      value; a new key is appended. */
  function Put(d: Fields, k: string, v: Json): (r: Fields)
    ensures Get(r, k) == Some(v)
    ensures forall k' :: k' != k ==> Get(r, k') == Get(d, k')
    ensures !Has(d, k) ==> r == d + [(k, v)]
  {
    if |d| == 0 then
      GetCons((k, v), [], k);
      forall k' ensures Get([(k, v)], k') == Get(d, k') || k' == k {
        GetCons((k, v), [], k');
      }
      [(k, v)]
    else
      assert d == [d[0]] + d[1..];
      forall k' ensures Get(d, k') == if d[0].0 == k' then Some(d[0].1) else Get(d[1..], k') {
        GetCons(d[0], d[1..], k');
      }
      if d[0].0 == k then
        forall k' ensures Get([(k, v)] + d[1..], k') == if k == k' then Some(v) else Get(d[1..], k') {
          GetCons((k, v), d[1..], k');
        }
        GetCons(d[0], d[1..], k);
        [(k, v)] + d[1..]
      else
        var rest := Put(d[1..], k, v);
        forall k' ensures Get([d[0]] + rest, k') == if d[0].0 == k' then Some(d[0].1) else Get(rest, k') {
          GetCons(d[0], rest, k');
        }
        GetCons(d[0], d[1..], k);
        [d[0]] + rest
  }

  /** Assignment keeps the keys and their order, appending a new key last. */
  lemma {:induction false} PutKeys(d: Fields, k: string, v: Json)
    ensures Keys(Put(d, k, v)) == if Has(d, k) then Keys(d) else Keys(d) + [k]
  {
    if |d| > 0 {
      assert d == [d[0]] + d[1..];
      GetCons(d[0], d[1..], k);
      if d[0].0 == k {
        GetCons((k, v), d[1..], k);
      } else {
        PutKeys(d[1..], k, v);
        GetCons(d[0], Put(d[1..], k, v), k);
      }
    }
  }
}
