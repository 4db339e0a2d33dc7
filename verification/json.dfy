/** Parsed JSON values as the pipeline sees them after `json.loads`.
    An object is an ordered association list standing for a Python dict:
    lookup finds the first entry for a key, assignment replaces that entry
    in place or appends a new one (dict insertion order), and `pop` drops
    the key. Floating-point numbers are not modelled. */
module JsonValue {
  import opened Options

  datatype Json =
    | JNull
    | JBool(b: bool)
    | JInt(i: int)
    | JStr(s: string)
    | JArr(items: seq<Json>)
    | JObj(fields: seq<(string, Json)>)

  type Fields = seq<(string, Json)>

  /** The keys of an object, in insertion order. */
  function Keys(o: Fields): (ks: seq<string>)
    ensures |ks| == |o|
    ensures forall i | 0 <= i < |o| :: ks[i] == o[i].0
  {
    seq(|o|, i requires 0 <= i < |o| => o[i].0)
  }

  /** `d.get(k)`, with `None` for a missing key. */
  function Get(o: Fields, k: string): (r: Option<Json>)
    ensures r.None? <==> forall i | 0 <= i < |o| :: o[i].0 != k
    ensures r.Some? ==> (k, r.value) in o
  {
    if |o| == 0 then None
    else if o[0].0 == k then Some(o[0].1)
    else Get(o[1..], k)
  }

  /** `k in d` */
  predicate HasKey(o: Fields, k: string) {
    Get(o, k).Some?
  }

  /** `d[k] = v`: the entry for `k` is replaced where it stands, or a new
      entry is appended, and every other entry is left alone. */
  function Set(o: Fields, k: string, v: Json): (r: Fields)
    ensures Get(r, k) == Some(v)
    ensures forall k' | k' != k :: Get(r, k') == Get(o, k')
    ensures HasKey(o, k) ==> Keys(r) == Keys(o)
    ensures !HasKey(o, k) ==> Keys(r) == Keys(o) + [k]
  {
    if |o| == 0 then [(k, v)]
    else if o[0].0 == k then
      SetHere(o, k, v);
      [(k, v)] + o[1..]
    else
      var t := Set(o[1..], k, v);
      SetLater(o, k, v, t);
      [o[0]] + t
  }

  /** Assigning the key of the leading entry. */
  lemma SetHere(o: Fields, k: string, v: Json)
    requires |o| > 0 && o[0].0 == k
    ensures Get([(k, v)] + o[1..], k) == Some(v)
    ensures forall k' | k' != k :: Get([(k, v)] + o[1..], k') == Get(o, k')
    ensures HasKey(o, k) && Keys([(k, v)] + o[1..]) == Keys(o)
  {
    KeysCons((k, v), o[1..]);
    KeysCons(o[0], o[1..]);
    assert o == [o[0]] + o[1..];
    forall k' | k' != k ensures Get([(k, v)] + o[1..], k') == Get(o, k') {
      GetPast((k, v), o[1..], k');
      GetPast(o[0], o[1..], k');
    }
  }

  /** Assigning a key past a leading entry with another key. */
  lemma SetLater(o: Fields, k: string, v: Json, t: Fields)
    requires |o| > 0 && o[0].0 != k
    requires Get(t, k) == Some(v)
    requires forall k' | k' != k :: Get(t, k') == Get(o[1..], k')
    requires HasKey(o[1..], k) ==> Keys(t) == Keys(o[1..])
    requires !HasKey(o[1..], k) ==> Keys(t) == Keys(o[1..]) + [k]
    ensures Get([o[0]] + t, k) == Some(v)
    ensures forall k' | k' != k :: Get([o[0]] + t, k') == Get(o, k')
    ensures HasKey(o, k) ==> Keys([o[0]] + t) == Keys(o)
    ensures !HasKey(o, k) ==> Keys([o[0]] + t) == Keys(o) + [k]
  {
    SetLaterGet(o, k, v, t);
    SetLaterKeys(o, k, t);
  }

  lemma SetLaterGet(o: Fields, k: string, v: Json, t: Fields)
    requires |o| > 0 && o[0].0 != k
    requires Get(t, k) == Some(v)
    requires forall k' | k' != k :: Get(t, k') == Get(o[1..], k')
    ensures Get([o[0]] + t, k) == Some(v)
    ensures forall k' | k' != k :: Get([o[0]] + t, k') == Get(o, k')
    ensures HasKey(o, k) == HasKey(o[1..], k)
  {
    var r := [o[0]] + t;
    assert o == [o[0]] + o[1..];
    GetPast(o[0], t, k);
    GetPast(o[0], o[1..], k);
    forall k' | k' != k ensures Get(r, k') == Get(o, k') {
      if k' != o[0].0 {
        GetPast(o[0], t, k');
        GetPast(o[0], o[1..], k');
      }
    }
  }

  lemma SetLaterKeys(o: Fields, k: string, t: Fields)
    requires |o| > 0
    requires Keys(t) == Keys(o[1..]) || Keys(t) == Keys(o[1..]) + [k]
    ensures Keys(t) == Keys(o[1..]) ==> Keys([o[0]] + t) == Keys(o)
    ensures Keys(t) == Keys(o[1..]) + [k] ==> Keys([o[0]] + t) == Keys(o) + [k]
  {
    assert o == [o[0]] + o[1..];
    KeysCons(o[0], t);
    KeysCons(o[0], o[1..]);
    if Keys(t) == Keys(o[1..]) + [k] {
      assert [o[0].0] + (Keys(o[1..]) + [k]) == [o[0].0] + Keys(o[1..]) + [k];
    }
  }

  /** `d.pop(k)` with the value discarded. */
  function Remove(o: Fields, k: string): (r: Fields)
    ensures Get(r, k) == None
    ensures forall k' | k' != k :: Get(r, k') == Get(o, k')
  {
    if |o| == 0 then []
    else if o[0].0 == k then Remove(o[1..], k)
    else [o[0]] + Remove(o[1..], k)
  }

  lemma KeysCons(e: (string, Json), rest: Fields)
    ensures Keys([e] + rest) == [e.0] + Keys(rest)
  {
  }

  lemma KeysSingle(e: (string, Json))
    ensures Keys([e]) == [e.0]
  {
  }

  /** Reading a key just assigned gives the assigned value. */
  lemma SetThenGet(o: Fields, k: string, v: Json)
    ensures Get(Set(o, k, v), k) == Some(v)
  {
  }

  /** A key that is not among the keys is absent. */
  lemma AbsentKey(o: Fields, k: string)
    requires k !in Keys(o)
    ensures !HasKey(o, k)
  {
    assert forall i | 0 <= i < |o| :: o[i].0 == Keys(o)[i];
  }

  /** Looking up past a leading entry with another key. */
  lemma GetPast(e: (string, Json), rest: Fields, k: string)
    requires e.0 != k
    ensures Get([e] + rest, k) == Get(rest, k)
  {
    assert ([e] + rest)[1..] == rest;
  }

  /** Assigning a key the value it already holds changes nothing. */
  lemma {:induction false} SetUnchanged(o: Fields, k: string, v: Json)
    requires Get(o, k) == Some(v)
    ensures Set(o, k, v) == o
  {
    if o[0].0 != k {
      SetUnchanged(o[1..], k, v);
    }
  }

  /** The object has exactly one distinct key (`len(d) == 1`). */
  predicate SingleKey(o: Fields) {
    |o| > 0 && forall i | 0 <= i < |o| :: o[i].0 == o[0].0
  }

  /** Python truthiness of a JSON value (`if x:`). */
  predicate Truthy(j: Json) {
    match j
    case JNull => false
    case JBool(b) => b
    case JInt(i) => i != 0
    case JStr(s) => s != ""
    case JArr(items) => items != []
    case JObj(fields) => fields != []
  }

  /** `isinstance(x, (int, float))`: a `bool` is an `int` in Python. */
  predicate IsNumber(j: Json) {
    j.JInt? || j.JBool?
  }
}
