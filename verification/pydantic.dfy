/** How a record type reads one field of its input mapping, following the
    field declarations of the schema classes (pydantic v2 models whose
    constraints come from xsdata metadata):
    - a field without a default is required; `Optional[X]` without a
      default is still required but may be `null`;
    - `Optional[X] = None` may be missing or `null`;
    - a field with a default takes the default when missing, but `null` is
      not an `int`, `bool`, enum or list;
    - declared inclusive bounds and list cardinalities are taken to be
      enforced; they are `metadata` entries of xsdata's `field`, and this
      model assumes validation checks them;
    - keys the record does not declare are ignored.
    Each rule comes twice: as a predicate saying which inputs are accepted,
    and as a reader returning the value the record ends up holding. */
module Pydantic {
  import opened Options
  import opened JsonValue

  /** Inclusive bounds from `min_inclusive` / `max_inclusive` (or `ge`). */
  datatype Bounds = Bounds(lo: Option<int>, hi: Option<int>) {
    predicate Admits(n: int) {
      (lo.Some? ==> lo.value <= n) && (hi.Some? ==> n <= hi.value)
    }
  }

  function AtLeast(lo: int): Bounds {
    Bounds(Some(lo), None)
  }

  function Within(lo: int, hi: int): Bounds {
    Bounds(Some(lo), Some(hi))
  }

  const Unbounded: Bounds := Bounds(None, None)

  /** The field is missing or holds `null`. */
  predicate Unset(o: Fields, k: string) {
    Get(o, k).None? || Get(o, k) == Some(JNull)
  }

  // ---------------------------------------------------------------------
  // Which inputs a field accepts

  /** An `int` field; `dflt` is `None` when the field is required. */
  predicate IntField(o: Fields, k: string, dflt: Option<int>, b: Bounds) {
    match Get(o, k)
    case None => dflt.Some?
    case Some(v) => v.JInt? && b.Admits(v.i)
  }

  /** `Optional[int]`, possibly bounded; `required` when it has no default. */
  predicate NullableIntField(o: Fields, k: string, required: bool, b: Bounds) {
    match Get(o, k)
    case None => !required
    case Some(v) => v == JNull || (v.JInt? && b.Admits(v.i))
  }

  /** A required `str` field. */
  predicate StrField(o: Fields, k: string) {
    match Get(o, k)
    case None => false
    case Some(v) => v.JStr?
  }

  /** `Optional[str]`; `required` when it has no default. */
  predicate NullableStrField(o: Fields, k: string, required: bool) {
    match Get(o, k)
    case None => !required
    case Some(v) => v == JNull || v.JStr?
  }

  /** A `bool` field with a default. */
  predicate BoolField(o: Fields, k: string) {
    match Get(o, k)
    case None => true
    case Some(v) => v.JBool?
  }

  /** An enumeration field: the input is one of the member values. */
  predicate ChoiceField<T>(o: Fields, k: string, table: seq<(string, T)>, hasDefault: bool) {
    match Get(o, k)
    case None => hasDefault
    case Some(v) => v.JStr? && exists i | 0 <= i < |table| :: table[i].0 == v.s
  }

  /** A required nested record. */
  predicate Required(o: Fields, k: string, valid: Json -> bool) {
    match Get(o, k)
    case None => false
    case Some(v) => valid(v)
  }

  /** A nested record declared `Optional[...] = None`. */
  predicate Optional(o: Fields, k: string, valid: Json -> bool) {
    Unset(o, k) || valid(Get(o, k).value)
  }

  /** The list a list field holds: `[]` when missing (`default_factory=list`). */
  function Items(o: Fields, k: string): Option<seq<Json>> {
    match Get(o, k)
    case None => Some([])
    case Some(JArr(xs)) => Some(xs)
    case Some(_) => None
  }

  /** A list of records with declared `min_occurs` / `max_occurs`. */
  predicate ListOf(o: Fields, k: string, valid: Json -> bool, min: nat, max: Option<nat>) {
    && Items(o, k).Some?
    && min <= |Items(o, k).value|
    && (max.Some? ==> |Items(o, k).value| <= max.value)
    && forall i | 0 <= i < |Items(o, k).value| :: valid(Items(o, k).value[i])
  }

  // ---------------------------------------------------------------------
  // The value a field ends up holding

  /** `n` is the field's value once the default is filled in. */
  predicate HoldsInt(o: Fields, k: string, dflt: Option<int>, n: int) {
    match Get(o, k)
    case None => dflt == Some(n)
    case Some(v) => v == JInt(n)
  }

  function ReadInt(o: Fields, k: string, dflt: Option<int>, b: Bounds): (r: Option<int>)
    ensures r.Some? <==> IntField(o, k, dflt, b)
    ensures r.Some? ==> HoldsInt(o, k, dflt, r.value)
    ensures r.Some? && (dflt.Some? ==> b.Admits(dflt.value)) ==> b.Admits(r.value)
  {
    match Get(o, k)
    case None => dflt
    case Some(JInt(n)) => if b.Admits(n) then Some(n) else None
    case Some(_) => None
  }

  /** `Optional[int]`: `Some(None)` stands for a held `None`. */
  function ReadNullableInt(o: Fields, k: string, required: bool, dflt: Option<int>, b: Bounds): (r: Option<Option<int>>)
    ensures r.Some? <==> NullableIntField(o, k, required, b)
    ensures r.Some? && Get(o, k).None? ==> r.value == dflt
    ensures r.Some? && Get(o, k).Some? ==> Get(o, k).value == (match r.value case None => JNull case Some(n) => JInt(n))
  {
    match Get(o, k)
    case None => if required then None else Some(dflt)
    case Some(JNull) => Some(None)
    case Some(JInt(n)) => if b.Admits(n) then Some(Some(n)) else None
    case Some(_) => None
  }

  function ReadStr(o: Fields, k: string): (r: Option<string>)
    ensures r.Some? <==> StrField(o, k)
    ensures r.Some? ==> Get(o, k) == Some(JStr(r.value))
  {
    match Get(o, k)
    case Some(JStr(s)) => Some(s)
    case _ => None
  }

  function ReadNullableStr(o: Fields, k: string, required: bool): (r: Option<Option<string>>)
    ensures r.Some? <==> NullableStrField(o, k, required)
    ensures r.Some? ==> (r.value.None? <==> Unset(o, k))
    ensures r.Some? && r.value.Some? ==> Get(o, k) == Some(JStr(r.value.value))
  {
    match Get(o, k)
    case None => if required then None else Some(None)
    case Some(JNull) => Some(None)
    case Some(JStr(s)) => Some(Some(s))
    case Some(_) => None
  }

  function ReadBool(o: Fields, k: string, dflt: bool): (r: Option<bool>)
    ensures r.Some? <==> BoolField(o, k)
    ensures r.Some? ==> Get(o, k) == (if Get(o, k).None? then None else Some(JBool(r.value)))
    ensures r.Some? && Get(o, k).None? ==> r.value == dflt
  {
    match Get(o, k)
    case None => Some(dflt)
    case Some(JBool(b)) => Some(b)
    case Some(_) => None
  }

  /** The member whose value is `s`, looked up in a data-driven table. */
  function Lookup<T>(table: seq<(string, T)>, s: string): (r: Option<T>)
    ensures r.Some? <==> exists i | 0 <= i < |table| :: table[i].0 == s
    ensures r.Some? ==> (s, r.value) in table
  {
    if |table| == 0 then None
    else if table[0].0 == s then Some(table[0].1)
    else Lookup(table[1..], s)
  }

  function ReadChoice<T>(o: Fields, k: string, table: seq<(string, T)>, dflt: Option<T>): (r: Option<T>)
    ensures r.Some? <==> ChoiceField(o, k, table, dflt.Some?)
    ensures r.Some? && Get(o, k).None? ==> r == dflt
    ensures r.Some? && Get(o, k).Some? ==> exists s :: Get(o, k) == Some(JStr(s)) && (s, r.value) in table
  {
    match Get(o, k)
    case None => dflt
    case Some(JStr(s)) => Lookup(table, s)
    case Some(_) => None
  }

  function ReadRequired<T>(o: Fields, k: string, build: Json -> Option<T>): Option<T> {
    match Get(o, k)
    case None => None
    case Some(v) => build(v)
  }

  function ReadOptional<T>(o: Fields, k: string, build: Json -> Option<T>): Option<Option<T>> {
    if Unset(o, k) then Some(None)
    else
      match build(Get(o, k).value)
      case None => None
      case Some(x) => Some(Some(x))
  }

  /** Builds every element, failing as soon as one element fails. */
  function BuildAll<T>(xs: seq<Json>, build: Json -> Option<T>): (r: Option<seq<T>>)
    ensures r.Some? <==> forall i | 0 <= i < |xs| :: build(xs[i]).Some?
    ensures r.Some? ==> |r.value| == |xs| && forall i | 0 <= i < |xs| :: build(xs[i]) == Some(r.value[i])
  {
    if |xs| == 0 then Some([])
    else
      match build(xs[0])
      case None => None
      case Some(x) =>
        match BuildAll(xs[1..], build)
        case None =>
          assert !build(xs[1..][0]).Some? || exists i | 1 <= i < |xs| :: !build(xs[i]).Some?;
          None
        case Some(rest) => Some([x] + rest)
  }

  function ReadList<T>(o: Fields, k: string, build: Json -> Option<T>, min: nat, max: Option<nat>): Option<seq<T>> {
    var xs :- Items(o, k);
    if |xs| < min || (max.Some? && |xs| > max.value) then None
    else BuildAll(xs, build)
  }

  /** The list reader succeeds exactly on the inputs the list rule accepts,
      for any element builder that agrees with the element rule. */
  lemma ReadListMatches<T>(o: Fields, k: string, build: Json -> Option<T>, valid: Json -> bool, min: nat, max: Option<nat>)
    requires forall x :: build(x).Some? <==> valid(x)
    ensures ReadList(o, k, build, min, max).Some? <==> ListOf(o, k, valid, min, max)
    ensures ReadList(o, k, build, min, max).Some? ==> |ReadList(o, k, build, min, max).value| == |Items(o, k).value|
  {
  }

  /** The required-record reader succeeds exactly when the rule accepts. */
  lemma ReadRequiredMatches<T>(o: Fields, k: string, build: Json -> Option<T>, valid: Json -> bool)
    requires forall x :: build(x).Some? <==> valid(x)
    ensures ReadRequired(o, k, build).Some? <==> Required(o, k, valid)
  {
  }

  /** The optional-record reader succeeds exactly when the rule accepts,
      and reads `None` exactly when the field is unset. */
  lemma ReadOptionalMatches<T>(o: Fields, k: string, build: Json -> Option<T>, valid: Json -> bool)
    requires forall x :: build(x).Some? <==> valid(x)
    ensures ReadOptional(o, k, build).Some? <==> Optional(o, k, valid)
    ensures ReadOptional(o, k, build).Some? ==> (ReadOptional(o, k, build).value.None? <==> Unset(o, k))
  {
  }
}
