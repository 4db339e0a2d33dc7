/** How the schema file is cut into text chunks before embedding: one
    chunk per described element, one per global type, then one per scalar
    value found under a dictionary key anywhere in the schema, labelled
    with its dotted path. Embedding and storage are not modelled, and
    `json.dumps` of an element description is a parameter. */
module Indexer {
  import opened Options
  import opened JsonValue
  import opened Text

  predicate IsContainer(v: Json) {
    v.JObj? || v.JArr?
  }

  /** Python's `str` of a scalar JSON value. */
  function ScalarText(v: Json): (r: string)
    requires !IsContainer(v)
    ensures v.JStr? ==> r == v.s
    ensures v.JInt? && v.i >= 0 ==> r == NatToString(v.i)
    ensures v.JInt? && v.i < 0 ==> r == "-" + NatToString(-v.i)
    ensures v.JNull? ==> r == "None"
    ensures v.JBool? ==> r == (if v.b then "True" else "False")
  {
    match v
    case JNull => "None"
    case JBool(b) => if b then "True" else "False"
    case JInt(i) => IntToString(i)
    case JStr(s) => s
    case _ => ""
  }

  /** `str(v)` for any value; the text of a list or dictionary is `show`. */
  function ValueText(v: Json, show: Json -> string): string {
    if IsContainer(v) then show(v) else ScalarText(v)
  }

  function Dot(prefix: string, k: string): string {
    prefix + "." + k
  }

  function Index(prefix: string, i: nat): string {
    prefix + "[" + NatToString(i) + "]"
  }

  function LeafChunk(path: string, v: Json): string
    requires !IsContainer(v)
  {
    path + ": " + ScalarText(v)
  }

  lemma ExtendedStartsWith(c: string, prefix: string, x: string)
    requires StartsWith(c, prefix + x)
    ensures StartsWith(c, prefix)
  {
    assert c[..|prefix|] == (prefix + x)[..|prefix|];
  }

  // ---------------------------------------------------------------------
  // recurse

  /** The nested `recurse`: a dictionary yields, per entry in order, either
      the entries of its container value under `prefix.key` or the chunk
      `prefix.key: value`; a list yields its items' chunks under
      `prefix[i]`; a scalar reached directly yields nothing. */
  function Flatten(v: Json, prefix: string): (r: seq<string>)
    ensures forall c | c in r :: StartsWith(c, prefix)
    decreases v, 1, 0
  {
    match v
    case JObj(fs) => FlattenFields(fs, 0, prefix)
    case JArr(xs) => FlattenItems(xs, 0, prefix)
    case _ => []
  }

  function FlattenFields(fs: Fields, i: nat, prefix: string): (r: seq<string>)
    requires i <= |fs|
    ensures forall c | c in r :: StartsWith(c, prefix)
    decreases JObj(fs), 0, |fs| - i
  {
    if i == |fs| then []
    else
      var path := Dot(prefix, fs[i].0);
      var here := if IsContainer(fs[i].1) then Flatten(fs[i].1, path) else [LeafChunk(path, fs[i].1)];
      forall c | c in here ensures StartsWith(c, prefix) {
        ExtendedStartsWith(c, prefix, "." + fs[i].0);
      }
      here + FlattenFields(fs, i + 1, prefix)
  }

  function FlattenItems(xs: seq<Json>, i: nat, prefix: string): (r: seq<string>)
    requires i <= |xs|
    ensures forall c | c in r :: StartsWith(c, prefix)
    decreases JArr(xs), 0, |xs| - i
  {
    if i == |xs| then []
    else
      var here := Flatten(xs[i], Index(prefix, i));
      forall c | c in here ensures StartsWith(c, prefix) {
        ExtendedStartsWith(c, prefix, "[" + NatToString(i) + "]");
      }
      here + FlattenItems(xs, i + 1, prefix)
  }

  /** The number of scalar values held directly by some dictionary key,
      at any depth. */
  function KeyedScalars(v: Json): nat
    decreases v, 1, 0
  {
    match v
    case JObj(fs) => FieldScalars(fs, 0)
    case JArr(xs) => ItemScalars(xs, 0)
    case _ => 0
  }

  function FieldScalars(fs: Fields, i: nat): nat
    requires i <= |fs|
    decreases JObj(fs), 0, |fs| - i
  {
    if i == |fs| then 0
    else (if IsContainer(fs[i].1) then KeyedScalars(fs[i].1) else 1) + FieldScalars(fs, i + 1)
  }

  function ItemScalars(xs: seq<Json>, i: nat): nat
    requires i <= |xs|
    decreases JArr(xs), 0, |xs| - i
  {
    if i == |xs| then 0 else KeyedScalars(xs[i]) + ItemScalars(xs, i + 1)
  }

  /** One chunk per keyed scalar, whatever the prefix. */
  lemma {:induction false} FlattenCount(v: Json, prefix: string)
    ensures |Flatten(v, prefix)| == KeyedScalars(v)
    decreases v, 1, 0
  {
    match v
    case JObj(fs) => FlattenFieldsCount(fs, 0, prefix);
    case JArr(xs) => FlattenItemsCount(xs, 0, prefix);
    case _ =>
  }

  lemma {:induction false} FlattenFieldsCount(fs: Fields, i: nat, prefix: string)
    requires i <= |fs|
    ensures |FlattenFields(fs, i, prefix)| == FieldScalars(fs, i)
    decreases JObj(fs), 0, |fs| - i
  {
    if i < |fs| {
      if IsContainer(fs[i].1) {
        FlattenCount(fs[i].1, Dot(prefix, fs[i].0));
      }
      FlattenFieldsCount(fs, i + 1, prefix);
    }
  }

  lemma {:induction false} FlattenItemsCount(xs: seq<Json>, i: nat, prefix: string)
    requires i <= |xs|
    ensures |FlattenItems(xs, i, prefix)| == ItemScalars(xs, i)
    decreases JArr(xs), 0, |xs| - i
  {
    if i < |xs| {
      FlattenCount(xs[i], Index(prefix, i));
      FlattenItemsCount(xs, i + 1, prefix);
    }
  }

  /** A scalar entry of a dictionary becomes the chunk `prefix.key: value`,
      and a container entry contributes all of its own chunks under
      `prefix.key`. */
  lemma {:induction false} FieldChunks(fs: Fields, i: nat, j: nat, prefix: string)
    requires i <= j < |fs|
    ensures !IsContainer(fs[j].1) ==> LeafChunk(Dot(prefix, fs[j].0), fs[j].1) in FlattenFields(fs, i, prefix)
    ensures IsContainer(fs[j].1) ==>
      forall c | c in Flatten(fs[j].1, Dot(prefix, fs[j].0)) :: c in FlattenFields(fs, i, prefix)
    decreases j - i
  {
    if i < j {
      FieldChunks(fs, i + 1, j, prefix);
    }
  }

  /** An item of a list contributes all of its chunks under `prefix[j]`. */
  lemma {:induction false} ItemChunks(xs: seq<Json>, i: nat, j: nat, prefix: string)
    requires i <= j < |xs|
    ensures forall c | c in Flatten(xs[j], Index(prefix, j)) :: c in FlattenItems(xs, i, prefix)
    decreases j - i
  {
    if i < j {
      ItemChunks(xs, i + 1, j, prefix);
    }
  }

  // ---------------------------------------------------------------------
  // extract_chunks

  /** Python's `for t in v`: a list yields its items, a dictionary its
      keys, a string its characters; any other value raises TypeError. */
  function Iterate(v: Json): (r: Option<seq<Json>>)
    ensures r.None? <==> !(v.JArr? || v.JObj? || v.JStr?)
    ensures v.JArr? ==> r == Some(v.items)
    ensures v.JObj? ==> |r.value| == |v.fields| && forall i | 0 <= i < |v.fields| :: r.value[i] == JStr(v.fields[i].0)
    ensures v.JStr? ==> |r.value| == |v.s| && forall i | 0 <= i < |v.s| :: r.value[i] == JStr([v.s[i]])
  {
    match v
    case JArr(xs) => Some(xs)
    case JObj(fs) => Some(seq(|fs|, i requires 0 <= i < |fs| => JStr(fs[i].0)))
    case JStr(s) => Some(seq(|s|, i requires 0 <= i < |s| => JStr([s[i]])))
    case _ => None
  }

  function ElementChunk(name: string, details: Json, dumps: Json -> string): string {
    "Schema element: " + name + "\nDetails:\n" + dumps(details)
  }

  function GlobalTypeChunk(t: Json, show: Json -> string): string {
    "Global type: " + ValueText(t, show)
  }

  /** The element chunks: `None` when `elements_details` is present but
      not a dictionary (`.items()` raises). */
  function ElementChunks(schema: Fields, dumps: Json -> string): (r: Option<seq<string>>)
    ensures r.None? <==> HasKey(schema, "elements_details") && !Get(schema, "elements_details").value.JObj?
    ensures !HasKey(schema, "elements_details") ==> r == Some([])
    ensures r.Some? && HasKey(schema, "elements_details") ==>
      var fs := Get(schema, "elements_details").value.fields;
      |r.value| == |fs| &&
      forall i | 0 <= i < |fs| :: r.value[i] == ElementChunk(fs[i].0, fs[i].1, dumps)
  {
    match Get(schema, "elements_details")
    case None => Some([])
    case Some(JObj(fs)) => Some(seq(|fs|, i requires 0 <= i < |fs| => ElementChunk(fs[i].0, fs[i].1, dumps)))
    case Some(_) => None
  }

  /** The global-type chunks: `None` when `global_types` is present but
      cannot be iterated. */
  function GlobalTypeChunks(schema: Fields, show: Json -> string): (r: Option<seq<string>>)
    ensures r.None? <==> HasKey(schema, "global_types") && Iterate(Get(schema, "global_types").value).None?
    ensures !HasKey(schema, "global_types") ==> r == Some([])
    ensures r.Some? && HasKey(schema, "global_types") ==>
      var ts := Iterate(Get(schema, "global_types").value).value;
      |r.value| == |ts| &&
      forall i | 0 <= i < |ts| :: r.value[i] == GlobalTypeChunk(ts[i], show)
  {
    match Get(schema, "global_types")
    case None => Some([])
    case Some(g) =>
      match Iterate(g)
      case None => None
      case Some(ts) => Some(seq(|ts|, i requires 0 <= i < |ts| => GlobalTypeChunk(ts[i], show)))
  }

  /** `extract_chunks`: element chunks, then global-type chunks, then the
      flattened schema under the prefix `schema`; `None` where the
      source raises. */
  function ExtractChunks(schema: Fields, dumps: Json -> string, show: Json -> string): (r: Option<seq<string>>)
    ensures r.Some? <==> ElementChunks(schema, dumps).Some? && GlobalTypeChunks(schema, show).Some?
    ensures r.Some? ==>
      var e := ElementChunks(schema, dumps).value;
      var g := GlobalTypeChunks(schema, show).value;
      && |r.value| == |e| + |g| + KeyedScalars(JObj(schema))
      && r.value[..|e|] == e
      && r.value[|e|..|e| + |g|] == g
      && forall c | c in r.value[|e| + |g|..] :: StartsWith(c, "schema.")
  {
    var e :- ElementChunks(schema, dumps);
    var g :- GlobalTypeChunks(schema, show);
    var f := Flatten(JObj(schema), "schema");
    FlattenCount(JObj(schema), "schema");
    FlattenStartsWithDot(schema);
    var r := e + g + f;
    assert r[..|e|] == e;
    assert r[|e|..|e| + |g|] == g;
    assert r[|e| + |g|..] == f;
    Some(r)
  }

  /** Every chunk of a flattened object starts with the prefix and a dot. */
  lemma FlattenStartsWithDot(schema: Fields)
    ensures forall c | c in Flatten(JObj(schema), "schema") :: StartsWith(c, "schema.")
  {
    forall c | c in FlattenFields(schema, 0, "schema") ensures StartsWith(c, "schema.") {
      FieldsStartWithDot(schema, 0, "schema", c);
    }
  }

  lemma {:induction false} FieldsStartWithDot(fs: Fields, i: nat, prefix: string, c: string)
    requires i <= |fs|
    requires c in FlattenFields(fs, i, prefix)
    ensures StartsWith(c, prefix + ".")
    decreases |fs| - i
  {
    var path := Dot(prefix, fs[i].0);
    var here := if IsContainer(fs[i].1) then Flatten(fs[i].1, path) else [LeafChunk(path, fs[i].1)];
    if c in here {
      assert StartsWith(c, path);
      assert path == prefix + "." + fs[i].0;
      ExtendedStartsWith(c, prefix + ".", fs[i].0);
    } else {
      FieldsStartWithDot(fs, i + 1, prefix, c);
    }
  }

  /** A schema with no descriptions and no global types, holding one
      scalar, is one chunk labelled with its dotted path. */
  lemma SingleScalarSchema(k: string, n: nat, dumps: Json -> string, show: Json -> string)
    requires k != "elements_details" && k != "global_types"
    ensures ExtractChunks([(k, JInt(n))], dumps, show) == Some(["schema." + k + ": " + NatToString(n)])
  {
    var schema := [(k, JInt(n))];
    OnlyTree(schema, dumps, show);
    FlattenSingle(k, n);
  }

  /** Without the two sections, the chunks are the flattened tree alone. */
  lemma OnlyTree(schema: Fields, dumps: Json -> string, show: Json -> string)
    requires !HasKey(schema, "elements_details") && !HasKey(schema, "global_types")
    ensures ExtractChunks(schema, dumps, show) == Some(Flatten(JObj(schema), "schema"))
  {
    assert [] + [] + Flatten(JObj(schema), "schema") == Flatten(JObj(schema), "schema");
  }

  lemma FlattenSingle(k: string, n: nat)
    ensures Flatten(JObj([(k, JInt(n))]), "schema") == ["schema." + k + ": " + NatToString(n)]
  {
    var schema := [(k, JInt(n))];
    assert FlattenFields(schema, 1, "schema") == [];
    assert LeafChunk(Dot("schema", k), JInt(n)) == "schema." + k + ": " + NatToString(n);
  }
}
