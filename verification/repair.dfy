/** How the first assistant turns a model answer into a record: cut out
    the first `{` ... last `}` span, append missing closing braces and
    brackets, decode, unwrap one level of tool-call wrapping, normalize
    for the target record type and construct the record. Any exception
    along the way makes the answer `None`. Decoding JSON text is a
    parameter: the model does not contain a JSON parser. */
module Repair {
  import opened Options
  import opened JsonValue
  import opened Text
  import opened Pydantic
  import opened AeSchema
  import opened Normalize

  // ---------------------------------------------------------------------
  // extract_first_json

  /** The text from the first `{` through the last `}`; empty when no `}`
      follows the first `{` (Python's slice `text[start:end + 1]` with
      `end + 1 <= start`); `None` when there is no `{` at all. */
  function ExtractFirstJson(text: string): (r: Option<string>)
    ensures r.None? <==> '{' !in text
    ensures r.Some? && r.value != [] ==>
      && r.value[0] == '{' && r.value[|r.value| - 1] == '}'
      && OccursAt(text, r.value, Find(text, '{'))
      && '}' !in text[Find(text, '{') + |r.value|..]
    ensures r.Some? ==> (r.value == [] <==> '}' !in text[Find(text, '{')..])
  {
    var start := Find(text, '{');
    if start < 0 then None
    else
      var end := RFind(text, '}');
      if end + 1 <= start then
        NoCloserAfterLast(text, start, end);
        Some([])
      else
        CloserInside(text, start, end);
        Some(text[start..end + 1])
  }

  /** No `}` follows the last one, nor any position past it. */
  lemma NoCloserAfterLast(text: string, start: nat, end: int)
    requires start < |text| && end == RFind(text, '}') && end + 1 <= start
    ensures '}' !in text[start..]
  {
    if end >= 0 {
      assert text[start..] == text[end + 1..][start - end - 1..];
    }
  }

  lemma CloserInside(text: string, start: nat, end: int)
    requires start <= end < |text| && text[end] == '}'
    ensures '}' in text[start..]
  {
    assert text[start..][end - start] == text[end];
  }

  /** Cutting is the inverse of surrounding an object text with chatter
      that holds no `{` before it and no `}` after it. */
  lemma ExtractSurrounded(prefix: string, j: string, suffix: string)
    requires |j| > 0 && j[0] == '{' && j[|j| - 1] == '}'
    requires '{' !in prefix && '}' !in suffix
    ensures ExtractFirstJson(prefix + j + suffix) == Some(j)
  {
    var t := prefix + j + suffix;
    var start := Find(t, '{');
    assert t[|prefix|] == '{';
    var end := RFind(t, '}');
    var last := |prefix| + |j| - 1;
    assert t[last] == '}';
    assert t[start..end + 1] == j;
  }

  // ---------------------------------------------------------------------
  // auto_close_json

  /** The snippet followed by as many `}` as it lacks and then as many `]`
      as it lacks. A snippet with a surplus of closers is left alone. */
  function AutoCloseJson(snippet: string): (r: string)
    ensures StartsWith(r, snippet)
    ensures forall i | |snippet| <= i < |r| :: r[i] == '}' || r[i] == ']'
    ensures forall i, j | |snippet| <= i < j < |r| && r[j] == '}' :: r[i] == '}'
    ensures Count(r, '{') == Count(snippet, '{') && Count(r, '[') == Count(snippet, '[')
    ensures Count(r, '}') == if Count(snippet, '}') < Count(snippet, '{') then Count(snippet, '{') else Count(snippet, '}')
    ensures Count(r, ']') == if Count(snippet, ']') < Count(snippet, '[') then Count(snippet, '[') else Count(snippet, ']')
  {
    var nb := Count(snippet, '{') - Count(snippet, '}');
    var nk := Count(snippet, '[') - Count(snippet, ']');
    ClosedCounts(snippet, nb, nk);
    ClosersInOrder(snippet, nb, nk);
    snippet + Repeat('}', nb) + Repeat(']', nk)
  }

  /** After the snippet come only closers, and no `]` before a `}`. */
  lemma ClosersInOrder(s: string, nb: int, nk: int)
    ensures var t := s + Repeat('}', nb) + Repeat(']', nk);
      && t[..|s|] == s
      && (forall i | |s| <= i < |t| :: t[i] == '}' || t[i] == ']')
      && (forall i, j | |s| <= i < j < |t| && t[j] == '}' :: t[i] == '}')
  {
    var b := Repeat('}', nb);
    var k := Repeat(']', nk);
    var t := s + b + k;
    assert forall i | |s| <= i < |s| + |b| :: t[i] == b[i - |s|];
    assert forall i | |s| + |b| <= i < |t| :: t[i] == k[i - |s| - |b|];
  }

  /** Closers go in a fixed order, braces first: an unclosed `{[` becomes
      `{[}]`, which is not valid JSON. */
  lemma AutoCloseBracesFirst()
    ensures AutoCloseJson("{[") == "{[}]"
  {
    assert Count("{[", '{') == 1 && Count("{[", '}') == 0;
    assert Count("{[", '[') == 1 && Count("{[", ']') == 0;
    assert Repeat('}', 1) == "}" && Repeat(']', 1) == "]";
  }

  /** The counts of the four bracket characters after appending `nb`
      braces and then `nk` brackets. */
  lemma ClosedCounts(s: string, nb: int, nk: int)
    ensures var t := s + Repeat('}', nb) + Repeat(']', nk);
      && Count(t, '{') == Count(s, '{') && Count(t, '[') == Count(s, '[')
      && Count(t, '}') == Count(s, '}') + (if nb > 0 then nb else 0)
      && Count(t, ']') == Count(s, ']') + (if nk > 0 then nk else 0)
  {
    var u := s + Repeat('}', nb);
    CountAfterRepeat(s, '}', nb, '{');
    CountAfterRepeat(s, '}', nb, '[');
    CountAfterRepeat(s, '}', nb, '}');
    CountAfterRepeat(s, '}', nb, ']');
    CountAfterRepeat(u, ']', nk, '{');
    CountAfterRepeat(u, ']', nk, '[');
    CountAfterRepeat(u, ']', nk, '}');
    CountAfterRepeat(u, ']', nk, ']');
  }

  /** Appending `n` copies of `c` adds `n` to the count of `c` and nothing
      to the count of any other character. */
  lemma CountAfterRepeat(s: string, c: char, n: int, d: char)
    ensures Count(s + Repeat(c, n), d) == Count(s, d) + if c == d && n > 0 then n else 0
  {
    CountConcat(s, Repeat(c, n), d);
    CountRepeat(c, d, n);
  }

  /** Closing a snippet whose braces and brackets already match changes
      nothing, so closing twice is closing once. */
  lemma AutoCloseIdempotent(snippet: string)
    ensures AutoCloseJson(AutoCloseJson(snippet)) == AutoCloseJson(snippet)
  {
    var r := AutoCloseJson(snippet);
    var r2 := AutoCloseJson(r);
    assert r2 == r2[..|r|];
  }

  // ---------------------------------------------------------------------
  // parse_json_schema

  /** The keys a lone wrapper around the arguments may carry. */
  const WrapperKeys: seq<string> := ["add_chiplet", "add_cpu_cluster", "parameters", "operation"]

  /** A one-entry object keyed by a wrapper name is replaced by its value,
      once; anything else passes through. */
  function Unwrap(data: Json): (r: Json)
    ensures data.JObj? && |data.fields| == 1 && data.fields[0].0 in WrapperKeys ==> r == data.fields[0].1
    ensures !(data.JObj? && |data.fields| == 1 && data.fields[0].0 in WrapperKeys) ==> r == data
  {
    if data.JObj? && |data.fields| == 1 && data.fields[0].0 in WrapperKeys then data.fields[0].1 else data
  }

  /** Only one level is removed: a doubly wrapped call keeps its inner wrapper. */
  lemma UnwrapOnce(x: Json)
    ensures Unwrap(JObj([("operation", JObj([("add_chiplet", x)]))])) == JObj([("add_chiplet", x)])
  {
  }

  /** The record type the answer is read as. */
  datatype Target = ClusterTarget | ChipletTarget

  /** The record constructed from an answer. */
  datatype Parsed = ParsedCluster(cluster: CpuCluster) | ParsedChiplet(chiplet: Chiplet)

  /** The scenario runner reads scenarios whose id mentions `cluster` as
      CPU clusters and every other scenario as a chiplet. */
  function TargetFor(scenarioId: string): (t: Target)
    ensures t == ClusterTarget <==> IsSubstring("cluster", scenarioId)
  {
    if IsSubstring("cluster", scenarioId) then ClusterTarget else ChipletTarget
  }

  /** The decoded object the record is constructed from, when the answer
      gets that far. */
  function Prepared(output: string, target: Target, parse: string -> Option<Json>): (r: Option<Fields>)
    ensures r.Some? ==> '{' in output && '}' in output
  {
    var j :- ExtractFirstJson(output);
    if j == [] then None
    else
      SnippetBraces(output);
      var data :- parse(AutoCloseJson(j));
      var inner := Unwrap(data);
      if !inner.JObj? then None
      else if target == ChipletTarget then NormalizeChiplet(inner.fields)
      else Some(NormalizeCpuCluster(inner.fields))
  }

  /** A non-empty cut span shows the text holds both braces. */
  lemma SnippetBraces(text: string)
    requires ExtractFirstJson(text).Some? && ExtractFirstJson(text).value != []
    ensures '{' in text && '}' in text
  {
    var s := ExtractFirstJson(text).value;
    var start := Find(text, '{');
    assert text[start..start + |s|] == s;
    assert text[start + |s| - 1] == s[|s| - 1];
  }

  /** Whether the answer yields a record of the target type. */
  predicate Accepted(output: string, target: Target, parse: string -> Option<Json>) {
    && Prepared(output, target, parse).Some?
    && var d := Prepared(output, target, parse).value;
       if target == ChipletTarget then ValidChiplet(JObj(d)) else ValidCpuCluster(AnyCores, JObj(d))
  }

  function ParseJsonSchema(output: string, target: Target, parse: string -> Option<Json>): (r: Option<Parsed>)
    ensures r.Some? <==> Accepted(output, target, parse)
    ensures r.Some? ==> (r.value.ParsedCluster? <==> target == ClusterTarget)
    ensures r.Some? ==> '{' in output && '}' in output
    ensures r.Some? && r.value.ParsedChiplet? ==>
      BuildChiplet(JObj(Prepared(output, target, parse).value)) == Some(r.value.chiplet)
    ensures r.Some? && r.value.ParsedCluster? ==>
      BuildCpuCluster(AnyCores, JObj(Prepared(output, target, parse).value)) == Some(r.value.cluster)
  {
    match Prepared(output, target, parse)
    case None => None
    case Some(d) =>
      if target == ChipletTarget then
        match BuildChiplet(JObj(d))
        case None => None
        case Some(c) => Some(ParsedChiplet(c))
      else
        match BuildCpuCluster(AnyCores, JObj(d))
        case None => None
        case Some(c) => Some(ParsedCluster(c))
  }

  /** An answer cut off before its first closing brace is lost: the cut
      span is empty, so the closing step never gets to repair it. */
  lemma TruncatedAnswerLost(output: string, target: Target, parse: string -> Option<Json>)
    requires '}' !in output
    ensures ParseJsonSchema(output, target, parse).None?
  {
    if '{' in output {
      var start := Find(output, '{');
      assert '}' !in output[start..] by {
        forall i | 0 <= i < |output| - start ensures output[start..][i] != '}' {
          assert output[start..][i] == output[start + i];
        }
      }
    }
  }
}
