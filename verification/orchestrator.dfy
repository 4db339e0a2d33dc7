/** The schema-aware assistant's handling of one model answer: cut the
    first `{` ... last `}` span and decode it without repair, check that
    it is a tool call, run the named tool, then validate the tool's
    result against the record types the retrieved context names, first
    match wins. Calling the model, timing and printing are left out;
    decoding JSON text is a parameter, and the rules of record types this
    model does not state are a parameter too. */
module Orchestrator {
  import opened Options
  import opened JsonValue
  import opened Text
  import opened AeSchema
  import opened AePackage
  import Repair
  import Retriever
  import Tools

  // ---------------------------------------------------------------------
  // enum_safe

  /** What `json.dumps` hands to its `default` hook: an object that may
      carry a `value` attribute (enum members do), and is a set, a tuple
      or something else. */
  datatype Kind = SetKind | TupleKind | OtherKind

  datatype PyObject = PyObject(valueAttr: Option<Json>, kind: Kind, items: seq<Json>, text: string)

  /** An enum member whose value is `v`. */
  function EnumMember(v: Json): PyObject {
    PyObject(Some(v), OtherKind, [], "")
  }

  /** `enum_safe`: the `value` attribute if there is one, whatever else
      the object is; otherwise a set or tuple as a list of its items, and
      anything else as its string form. */
  function EnumSafe(o: PyObject): (r: Json)
    ensures o.valueAttr.Some? ==> r == o.valueAttr.value
    ensures o.valueAttr.None? && o.kind != OtherKind ==> r == JArr(o.items)
    ensures o.valueAttr.None? && o.kind == OtherKind ==> r == JStr(o.text)
  {
    match o.valueAttr
    case Some(v) => v
    case None => if o.kind == OtherKind then JStr(o.text) else JArr(o.items)
  }

  /** Dumping a validated Ethernet or UCIe mode and validating the dump
      again gives back the same mode. */
  lemma DumpedModesRevalidate(e: EthMode, u: UcieMode)
    ensures BuildEthernet(JObj([("mode", EnumSafe(EnumMember(JStr(EthModeName(e)))))])) == Some(e)
    ensures ValidUcie(JObj([("mode", EnumSafe(EnumMember(JStr(UcieModeName(u)))))]))
  {
    assert EthModes[0].0 == "simulated" && EthModes[1].0 == "native";
    UcieModeChoices(UcieModeName(u));
  }

  // ---------------------------------------------------------------------
  // extract_json

  /** `extract_json`: the span from the first `{` through the last `}`,
      decoded as it stands. Empty text and text without `{` give `None`;
      a decoding failure gives `None`. There is no brace repair. */
  function ExtractJson(text: string, parse: string -> Option<Fields>): (r: Option<Fields>)
    ensures '{' !in text ==> r.None?
    ensures '{' in text ==> r == parse(Repair.ExtractFirstJson(text).value)
  {
    if text == [] then None
    else
      match Repair.ExtractFirstJson(text)
      case None => None
      case Some(snippet) => parse(snippet)
  }

  /** Chatter around an object text is cut away, and the object text is
      decoded exactly as written. */
  lemma ExtractJsonSurrounded(prefix: string, j: string, suffix: string, parse: string -> Option<Fields>)
    requires |j| > 0 && j[0] == '{' && j[|j| - 1] == '}'
    requires '{' !in prefix && '}' !in suffix
    ensures ExtractJson(prefix + j + suffix, parse) == parse(j)
  {
    Repair.ExtractSurrounded(prefix, j, suffix);
    assert (prefix + j + suffix)[|prefix|] == '{';
  }

  // ---------------------------------------------------------------------
  // select_candidate_models

  predicate NamedIn(context: string, name: string) {
    IsSubstring(Lower(name), Lower(context))
  }

  /** The names of `universe` whose lowercased form occurs in the
      lowercased context, in order, or all of `universe` when none does. */
  function SelectFrom(universe: seq<string>, context: string): (r: seq<string>)
    ensures |universe| > 0 ==> |r| > 0
    ensures IsSubsequence(r, universe)
    ensures (exists n | n in universe :: NamedIn(context, n)) ==>
      forall n :: n in r <==> n in universe && NamedIn(context, n)
    ensures (forall n | n in universe :: !NamedIn(context, n)) ==> r == universe
  {
    var matched := Filter(universe, n => NamedIn(context, n));
    FilterIsSubsequence(universe, n => NamedIn(context, n));
    if matched == [] then
      Retriever.SubsequenceOfItself(universe);
      universe
    else
      assert matched[0] in matched;
      matched
  }

  /** `select_candidate_models` over the record types of the schema module. */
  function SelectCandidates(context: string): seq<string> {
    SelectFrom(RecordTypes, context)
  }

  /** Lowercasing keeps a substring a substring. */
  lemma LowerSubstring(p: string, s: string)
    requires IsSubstring(p, s)
    ensures IsSubstring(Lower(p), Lower(s))
  {
    var i :| 0 <= i <= |s| && OccursAt(s, p, i);
    assert Lower(s)[i..i + |p|] == Lower(p) by {
      forall k | 0 <= k < |p| ensures Lower(s)[i..i + |p|][k] == Lower(p)[k] {
        assert s[i + k] == p[k];
      }
    }
    assert OccursAt(Lower(s), Lower(p), i);
  }

  /** Every record type the retriever's header names is a candidate for
      the context it builds. */
  lemma RetrievedKeywordsAreCandidates(query: string, docs: seq<string>)
    ensures forall k | k in Retriever.KeywordFilter(query) :: k in SelectCandidates(Retriever.Retrieve(query, docs))
  {
    var ks := Retriever.KeywordFilter(query);
    var context := Retriever.Retrieve(query, docs);
    forall k | k in ks ensures k in SelectCandidates(context) {
      var i :| 0 <= i < |ks| && ks[i] == k;
      assert IsSubstring(k, context);
      LowerSubstring(k, context);
      KeywordsListed(k);
      NamedCandidate(context, k);
    }
  }

  /** The context the retriever builds always names a record type, so the
      candidates for it never fall back to the whole listing. */
  lemma RetrievedContextNamesType(query: string, docs: seq<string>)
    ensures exists n | n in RecordTypes :: NamedIn(Retriever.Retrieve(query, docs), n)
  {
    var ks := Retriever.KeywordFilter(query);
    var context := Retriever.Retrieve(query, docs);
    var k := ks[0];
    assert IsSubstring(k, context);
    LowerSubstring(k, context);
    KeywordsListed(k);
  }

  /** The three keyword type names are record types of the listing. */
  lemma KeywordsListed(k: string)
    requires k in Retriever.KeywordOrder
    ensures k in RecordTypes
  {
    assert RecordTypes[3] == Retriever.ChipletType;
    assert RecordTypes[5] == Retriever.ClusterType;
    assert RecordTypes[23] == Retriever.NetworkType;
  }

  lemma NamedCandidate(context: string, k: string)
    requires k in RecordTypes && NamedIn(context, k)
    ensures k in SelectCandidates(context)
  {
  }

  // ---------------------------------------------------------------------
  // validate_and_print

  /** Whether the record type of a name accepts a value: the validator
      `model(**parsed)` runs for that name. */
  function Acceptance(j: Json, unmodelled: (string, Json) -> bool): (accepts: string -> bool)
    ensures forall n :: accepts(n) == Accepts(n, j, unmodelled)
  {
    n => Accepts(n, j, unmodelled)
  }

  /** The position of the first candidate that accepts. */
  function FirstAccepted(cands: seq<string>, accepts: string -> bool): (r: Option<nat>)
    ensures r.Some? ==> r.value < |cands| && accepts(cands[r.value])
    ensures r.Some? ==> forall i | 0 <= i < r.value :: !accepts(cands[i])
    ensures r.None? <==> forall i | 0 <= i < |cands| :: !accepts(cands[i])
  {
    if |cands| == 0 then None
    else if accepts(cands[0]) then Some(0)
    else
      match FirstAccepted(cands[1..], accepts)
      case None => None
      case Some(k) => Some(k + 1)
  }

  /** What `validate_and_print` reports: the record type the value was
      validated as, or the raw value when every candidate rejected it. */
  datatype Report = Validated(model: string) | Unvalidated(raw: Fields)

  /** The report for a value from a list of candidates. */
  function ValidateAmong(parsed: Fields, cands: seq<string>, accepts: string -> bool): (r: Report)
    ensures r.Validated? ==> exists i | 0 <= i < |cands| :: cands[i] == r.model && accepts(cands[i])
                               && forall k | 0 <= k < i :: !accepts(cands[k])
    ensures r.Unvalidated? <==> forall i | 0 <= i < |cands| :: !accepts(cands[i])
    ensures r.Unvalidated? ==> r.raw == parsed
  {
    match FirstAccepted(cands, accepts)
    case None => Unvalidated(parsed)
    case Some(i) => Validated(cands[i])
  }

  /** The report for a value, from the candidates for a context. */
  function Validate(parsed: Fields, context: string, unmodelled: (string, Json) -> bool): Report {
    ValidateAmong(parsed, SelectCandidates(context), Acceptance(JObj(parsed), unmodelled))
  }

  /** `validate_and_print`: tries the candidates in order and stops at the
      first that accepts; later candidates are never tried. `Validate`
      instantiates it with the candidates for the context and the record
      types' own validators. */
  method ValidateAndPrint(parsed: Fields, cands: seq<string>, accepts: string -> bool) returns (r: Report)
    ensures r == ValidateAmong(parsed, cands, accepts)
  {
    var i := 0;
    while i < |cands|
      invariant 0 <= i <= |cands|
      invariant forall k | 0 <= k < i :: !accepts(cands[k])
    {
      if accepts(cands[i]) {
        FirstAcceptedAt(cands, accepts, i);
        return Validated(cands[i]);
      }
      i := i + 1;
    }
    return Unvalidated(parsed);
  }

  /** With the record types' validators, the report names a candidate
      whose record type accepts the value, and the raw value comes back
      exactly when every candidate rejects it. */
  lemma ValidateReports(parsed: Fields, cands: seq<string>, unmodelled: (string, Json) -> bool)
    ensures var r := ValidateAmong(parsed, cands, Acceptance(JObj(parsed), unmodelled));
      && (r.Validated? ==> r.model in cands && Accepts(r.model, JObj(parsed), unmodelled))
      && (r.Unvalidated? <==> forall n | n in cands :: !Accepts(n, JObj(parsed), unmodelled))
  {
    var accepts := Acceptance(JObj(parsed), unmodelled);
    var r := ValidateAmong(parsed, cands, accepts);
    if r.Unvalidated? {
      forall n | n in cands ensures !Accepts(n, JObj(parsed), unmodelled) {
        var i :| 0 <= i < |cands| && cands[i] == n;
        assert !accepts(cands[i]);
      }
    } else {
      var i :| 0 <= i < |cands| && cands[i] == r.model && accepts(cands[i]);
    }
  }

  /** The first-match search finds the first accepting position. */
  lemma FirstAcceptedAt(cands: seq<string>, accepts: string -> bool, i: nat)
    requires i < |cands| && accepts(cands[i])
    requires forall k | 0 <= k < i :: !accepts(cands[k])
    ensures FirstAccepted(cands, accepts) == Some(i)
  {
    var r := FirstAccepted(cands, accepts);
    assert r.Some?;
    if r.value < i {
    } else if r.value > i {
    }
  }

  /** A candidate accepting the value, placed before every candidate of a
      second list, wins over all of them. */
  lemma {:induction false} EarlierAcceptingWins(front: seq<string>, back: seq<string>, accepts: string -> bool, m: nat)
    requires m < |front| && accepts(front[m])
    ensures FirstAccepted(front + back, accepts).Some?
    ensures FirstAccepted(front + back, accepts).value < |front|
  {
    assert (front + back)[m] == front[m];
  }

  /** The cluster variants that narrow the core count. */
  const SizedClusters: seq<string> :=
    ["AeDualCoreCluster", "AeHexaCoreCluster", "AeOctaCoreCluster", "AeQuadCoreCluster", "AeSingleCoreCluster"]

  /** Whatever a sized variant accepts, the base cluster accepts. */
  lemma SizedAcceptsBase(j: Json, unmodelled: (string, Json) -> bool)
    ensures forall n | n in SizedClusters && Accepts(n, j, unmodelled) :: Accepts("AeCpuCluster", j, unmodelled)
  {
    assert ClusterOf("AeCpuCluster") == Some(AnyCores);
    forall n | n in SizedClusters && Accepts(n, j, unmodelled)
      ensures Accepts("AeCpuCluster", j, unmodelled)
    {
      SizedKind(n);
      var k := ClusterOf(n).value;
      assert ValidCpuCluster(k, j);
      ClusterKindsNested(k, AnyCores, j);
    }
  }

  /** Every sized variant names a cluster kind. */
  lemma SizedKind(n: string)
    requires n in SizedClusters
    ensures ClusterOf(n).Some?
  {
  }

  /** The first six record types in the listing, the last being the base
      cluster. */
  lemma ListingFront()
    ensures |RecordTypes| == 38
    ensures RecordTypes[..6] == ["AeAnalyseSimtime", "AeAnalysisType", "AeAxiBusType",
                                 "AeChipletType", "AeCpuArchType", "AeCpuCluster"]
  {
  }

  /** The base cluster appears only once in the listing. */
  lemma ListingBaseOnce()
    ensures forall i | 6 <= i < |RecordTypes| :: RecordTypes[i] != "AeCpuCluster"
  {
  }

  lemma BackNotBase(x: string)
    requires x in RecordTypes[6..]
    ensures x != "AeCpuCluster"
  {
    ListingFront();
    var j :| 0 <= j < |RecordTypes[6..]| && RecordTypes[6..][j] == x;
    assert RecordTypes[6 + j] == x;
    ListingBaseOnce();
  }

  lemma FrontNotSized(x: string)
    requires x in RecordTypes[..6]
    ensures x !in SizedClusters
  {
    ListingFront();
  }

  lemma SplitAt<T>(xs: seq<T>, n: nat)
    requires n <= |xs|
    ensures xs == xs[..n] + xs[n..]
  {
  }

  /** In any candidate list that holds the base cluster before every sized
      variant, no sized variant is ever reported when the base cluster
      accepts whatever a variant accepts. */
  lemma BaseBeforeSized(parsed: Fields, front: seq<string>, back: seq<string>, accepts: string -> bool)
    requires "AeCpuCluster" in front
    requires forall n | n in front :: n !in SizedClusters
    requires forall n | n in SizedClusters && accepts(n) :: accepts("AeCpuCluster")
    ensures ValidateAmong(parsed, front + back, accepts).Validated? ==> ValidateAmong(parsed, front + back, accepts).model !in SizedClusters
  {
    var cands := front + back;
    var r := FirstAccepted(cands, accepts);
    if r.Some? && cands[r.value] in SizedClusters {
      var m :| 0 <= m < |front| && front[m] == "AeCpuCluster";
      EarlierAcceptingWins(front, back, accepts, m);
    }
  }

  /** The candidates drawn from a listing split where the listing splits:
      those from its first `n` names, then those from the rest. */
  lemma SelectFromSplit(universe: seq<string>, context: string, n: nat) returns (front: seq<string>, back: seq<string>)
    requires n <= |universe|
    ensures SelectFrom(universe, context) == front + back
    ensures forall x | x in front :: x in universe[..n]
    ensures forall x | x in back :: x in universe[n..]
  {
    var f, b := universe[..n], universe[n..];
    SplitAt(universe, n);
    var p := x => NamedIn(context, x);
    if Filter(universe, p) == [] {
      front, back := f, b;
    } else {
      FilterConcat(f, b, p);
      front, back := Filter(f, p), Filter(b, p);
    }
  }

  /** For any listing whose first `n` names hold no sized variant and whose
      other names are not the base cluster: whenever the base cluster is a
      candidate, no sized variant is reported. */
  lemma SizedNeverReportedAmong(parsed: Fields, universe: seq<string>, context: string, accepts: string -> bool, n: nat)
    requires n <= |universe|
    requires forall x | x in universe[..n] :: x !in SizedClusters
    requires forall x | x in universe[n..] :: x != "AeCpuCluster"
    requires forall x | x in SizedClusters && accepts(x) :: accepts("AeCpuCluster")
    requires "AeCpuCluster" in SelectFrom(universe, context)
    ensures ValidateAmong(parsed, SelectFrom(universe, context), accepts).Validated? ==>
              ValidateAmong(parsed, SelectFrom(universe, context), accepts).model !in SizedClusters
  {
    var front, back := SelectFromSplit(universe, context, n);
    BaseBeforeSized(parsed, front, back, accepts);
  }

  /** The listing's first six names hold no sized variant; the rest do not
      hold the base cluster. */
  lemma ListingShape()
    ensures |RecordTypes| == 38
    ensures forall x | x in RecordTypes[..6] :: x !in SizedClusters
    ensures forall x | x in RecordTypes[6..] :: x != "AeCpuCluster"
  {
    forall x | x in RecordTypes[6..] ensures x != "AeCpuCluster" {
      BackNotBase(x);
    }
    forall x | x in RecordTypes[..6] ensures x !in SizedClusters {
      FrontNotSized(x);
    }
  }

  /** Whenever the base cluster is a candidate, no sized cluster variant is
      ever reported: the base type comes first in the listing and accepts
      every value a variant accepts. */
  lemma SizedClusterNeverReported(parsed: Fields, context: string, unmodelled: (string, Json) -> bool)
    requires "AeCpuCluster" in SelectCandidates(context)
    ensures Validate(parsed, context, unmodelled).Validated? ==> Validate(parsed, context, unmodelled).model !in SizedClusters
  {
    ListingShape();
    SizedAcceptsBase(JObj(parsed), unmodelled);
    SizedNeverReportedAmong(parsed, RecordTypes, context, Acceptance(JObj(parsed), unmodelled), 6);
  }

  /** A cluster-related query puts the base cluster among the candidates,
      so a sized variant is never reported for it. */
  lemma ClusterQueryReportsNoSizedVariant(query: string, docs: seq<string>, parsed: Fields, unmodelled: (string, Json) -> bool)
    requires Retriever.MentionsCluster(Lower(query))
    ensures var r := Validate(parsed, Retriever.Retrieve(query, docs), unmodelled);
      r.Validated? ==> r.model !in SizedClusters
  {
    RetrievedKeywordsAreCandidates(query, docs);
    SizedClusterNeverReported(parsed, Retriever.Retrieve(query, docs), unmodelled);
  }

  /** With a context naming none of a listing's names, the first name of
      the listing is reported whenever it accepts. */
  lemma FallbackToFirst(parsed: Fields, universe: seq<string>, context: string, accepts: string -> bool)
    requires |universe| > 0 && accepts(universe[0])
    requires forall n | n in universe :: !NamedIn(context, n)
    ensures ValidateAmong(parsed, SelectFrom(universe, context), accepts) == Validated(universe[0])
  {
    FirstAcceptedAt(universe, accepts, 0);
  }

  lemma ListingFirst()
    ensures |RecordTypes| == 38 && RecordTypes[0] == "AeAnalyseSimtime"
  {
  }

  /** `validate_and_print` on any context that names no record type: every
      record type is a candidate and the first, the simulation-time window,
      accepts any object without time fields, so every tool result is
      reported as it. The contexts the retriever builds always name a type
      (`RetrievedContextNamesType`), so this is about other contexts. */
  lemma ToolResultsFallBackToSimtime(t: Tools.Tool, args: Fields, context: string, unmodelled: (string, Json) -> bool)
    requires forall n | n in RecordTypes :: !NamedIn(context, n)
    ensures Validate(Tools.RunTool(t, args), context, unmodelled) == Validated("AeAnalyseSimtime")
  {
    var r := Tools.RunTool(t, args);
    ToolResultsUntimed(t, args);
    AnalyseSimtimeAcceptsPlainObjects(r);
    ListingFirst();
    FallbackToFirst(r, RecordTypes, context, Acceptance(JObj(r), unmodelled));
  }

  /** A tool result never carries a start or end time. */
  lemma ToolResultsUntimed(t: Tools.Tool, args: Fields)
    ensures !HasKey(Tools.RunTool(t, args), "start_time") && !HasKey(Tools.RunTool(t, args), "end_time")
  {
    var ks := Tools.ResultKeys(t);
    assert "start_time" !in ks && "end_time" !in ks;
    UntimedKeys(Tools.RunTool(t, args), ks);
  }

  lemma UntimedKeys(r: Fields, ks: seq<string>)
    requires Keys(r) == ks
    requires "start_time" !in ks && "end_time" !in ks
    ensures !HasKey(r, "start_time") && !HasKey(r, "end_time")
  {
    AbsentKey(r, "start_time");
    AbsentKey(r, "end_time");
  }

  // ---------------------------------------------------------------------
  // The tool-call step of the scenario loop

  /** How one answer ends. `Crashed` is an unhashable tool name, which
      raises outside the `try` and ends the run. */
  datatype Outcome =
    | NoToolCall
    | UnknownTool
    | Crashed
    | ToolFailed
    | Checked(tool: Tools.Tool, result: Fields, report: Report)

  /** The shape check: a decoded object holding both `tool` and `args`. */
  predicate IsToolCall(p: Option<Fields>) {
    p.Some? && HasKey(p.value, "tool") && HasKey(p.value, "args")
  }

  /** The answer names a registered tool by a string. */
  predicate NamesRegisteredTool(p: Option<Fields>) {
    && IsToolCall(p)
    && Get(p.value, "tool").value.JStr?
    && Tools.SelectTool(Get(p.value, "tool").value.s).Some?
  }

  /** The tool-call step on the decoded answer; `run` calls the selected
      tool with the decoded arguments. */
  function HandleCall(p: Option<Fields>, context: string, run: (Tools.Tool, Fields) -> Fields,
                      unmodelled: (string, Json) -> bool): (r: Outcome)
    ensures r == NoToolCall <==> !IsToolCall(p)
    ensures r == Crashed <==> IsToolCall(p) && (Get(p.value, "tool").value.JArr? || Get(p.value, "tool").value.JObj?)
    ensures r.Checked? <==> NamesRegisteredTool(p) && Get(p.value, "args").value.JObj?
    ensures r == ToolFailed <==> NamesRegisteredTool(p) && !Get(p.value, "args").value.JObj?
    ensures r.Checked? ==>
              && r.tool == Tools.SelectTool(Get(p.value, "tool").value.s).value
              && r.result == run(r.tool, Get(p.value, "args").value.fields)
              && r.report == Validate(r.result, context, unmodelled)
  {
    if !IsToolCall(p) then NoToolCall
    else
      var name := Get(p.value, "tool").value;
      var args := Get(p.value, "args").value;
      if name.JArr? || name.JObj? then Crashed
      else if !name.JStr? || Tools.SelectTool(name.s).None? then UnknownTool
      else if !args.JObj? then ToolFailed
      else
        var t := Tools.SelectTool(name.s).value;
        var result := run(t, args.fields);
        Checked(t, result, Validate(result, context, unmodelled))
  }

  /** One pass of the scenario loop after the model answered: the answer
      is cut and decoded, then handled as a tool call whose result is
      validated against the context's candidates. */
  function HandleAnswer(output: string, context: string, parse: string -> Option<Fields>,
                        unmodelled: (string, Json) -> bool): (r: Outcome)
    ensures '{' !in output ==> r == NoToolCall
    ensures r == NoToolCall <==> !IsToolCall(ExtractJson(output, parse))
    ensures r.Checked? ==> r.report == Validate(r.result, context, unmodelled)
  {
    HandleCall(ExtractJson(output, parse), context, Tools.RunTool, unmodelled)
  }

  /** A brace left open makes the answer fail the shape check when the
      decoder rejects unbalanced text: nothing repairs it on this path. */
  lemma UnclosedAnswerIsNoToolCall(output: string, context: string, parse: string -> Option<Fields>,
                                   unmodelled: (string, Json) -> bool)
    requires '}' !in output
    requires parse("") == None
    ensures HandleAnswer(output, context, parse, unmodelled) == NoToolCall
  {
    if '{' in output {
      var start := Find(output, '{');
      assert '}' !in output[start..] by {
        forall i | 0 <= i < |output| - start ensures output[start..][i] != '}' {
          assert output[start..][i] == output[start + i];
        }
      }
    }
  }
}
