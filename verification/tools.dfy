/** The tool functions the schema-aware assistant calls with the arguments
    a language model chose. Each builds the argument object of a record
    type from loosely typed keyword arguments; the arguments arrive as a
    decoded JSON object, so none of them can be an enumeration member and
    the `hasattr(x, "value")` branches never fire. */
module Tools {
  import opened Options
  import opened JsonValue
  import opened Text
  import opened Pydantic
  import opened AeSchema

  /** `parse_int`: an integer (a `bool` included, as Python counts it) is
      returned as given; a string yields its leftmost digit run, so any
      sign is dropped; anything else, and a string without digits, is 0. */
  function ParseInt(v: Json): (r: Json)
    ensures IsNumber(v) ==> r == v
    ensures !IsNumber(v) ==> r.JInt? && r.i >= 0
    ensures !IsNumber(v) && !v.JStr? ==> r == JInt(0)
    ensures v.JStr? ==> (r == JInt(0) <== forall i | 0 <= i < |v.s| :: !IsDigit(v.s[i]))
    ensures v.JStr? && (exists i | 0 <= i < |v.s| :: IsDigit(v.s[i])) ==>
      exists i | 0 <= i < |v.s| ::
        && IsDigit(v.s[i])
        && (forall j | 0 <= j < i :: !IsDigit(v.s[j]))
        && r == JInt(DigitsValue(LeadingDigits(v.s[i..])))
  {
    match v
    case JInt(_) => v
    case JBool(_) => v
    case JStr(s) => JInt(SearchInt(s).GetOr(0))
    case _ => JInt(0)
  }

  /** A number written anywhere in a string, after text without digits,
      is read back. */
  lemma ParseIntReadsNumber(prefix: string, n: nat, suffix: string)
    requires forall i | 0 <= i < |prefix| :: !IsDigit(prefix[i])
    requires |suffix| == 0 || !IsDigit(suffix[0])
    ensures ParseInt(JStr(prefix + NatToString(n) + suffix)) == JInt(n)
  {
    SearchIntFinds(prefix, n, suffix);
  }

  /** Leading zeros of the run read are ignored: "x007" gives 7, "00" gives 0. */
  lemma ParseIntLeadingZeros(prefix: string, k: nat, n: nat, suffix: string)
    requires forall i | 0 <= i < |prefix| :: !IsDigit(prefix[i])
    requires |suffix| == 0 || !IsDigit(suffix[0])
    ensures ParseInt(JStr(prefix + Repeat('0', k) + NatToString(n) + suffix)) == JInt(n)
  {
    var digits := Repeat('0', k) + NatToString(n);
    var t := prefix + Repeat('0', k) + NatToString(n) + suffix;
    assert t == prefix + digits + suffix;
    LeadingZerosIgnored(k, NatToString(n));
    NatToStringRoundTrip(n);
    SearchIntReadsRun(prefix, digits, suffix);
    assert SearchInt(t) == Some(n);
  }

  /** Written-out integers come back without their sign. */
  lemma ParseIntDropsSign(i: int)
    ensures ParseInt(JStr(IntToString(i))) == JInt(if i < 0 then -i else i)
  {
    if i < 0 {
      ParseIntNegative(i);
    } else {
      ParseIntNonNegative(i);
    }
  }

  lemma ParseIntNonNegative(n: nat)
    ensures ParseInt(JStr(IntToString(n))) == JInt(n)
  {
    var t := IntToString(n);
    assert t == "" + NatToString(n) + "";
    SearchIntFinds("", n, "");
    ParseIntOfString(t, n);
  }

  lemma ParseIntNegative(i: int)
    requires i < 0
    ensures ParseInt(JStr(IntToString(i))) == JInt(-i)
  {
    NegativeSearch(i);
    ParseIntOfString(IntToString(i), -i);
  }

  lemma NegativeSearch(i: int)
    requires i < 0
    ensures SearchInt(IntToString(i)) == Some(-i)
  {
    assert IntToString(i) == "-" + NatToString(-i) + "";
    assert !IsDigit("-"[0]);
    SearchIntFinds("-", -i, "");
  }

  lemma ParseIntOfString(s: string, n: nat)
    requires SearchInt(s) == Some(n)
    ensures ParseInt(JStr(s)) == JInt(n)
  {
  }

  /** `kwargs.get(k, dflt)` */
  function Arg(args: Fields, k: string, dflt: Json): (r: Json)
    ensures HasKey(args, k) ==> Get(args, k) == Some(r)
    ensures !HasKey(args, k) ==> r == dflt
  {
    Get(args, k).GetOr(dflt)
  }

  /** `kwargs.get("short_name") or kwargs.get("name")`: the `name` argument
      (or `None`) stands in whenever `short_name` is missing or falsy. */
  function ShortNameArg(args: Fields): (r: Json)
    ensures Truthy(Arg(args, "short_name", JNull)) ==> r == Arg(args, "short_name", JNull)
    ensures !Truthy(Arg(args, "short_name", JNull)) ==> r == Arg(args, "name", JNull)
  {
    var sn := Arg(args, "short_name", JNull);
    if Truthy(sn) then sn else Arg(args, "name", JNull)
  }

  /** `create_cpu_cluster` */
  function CreateCpuCluster(args: Fields): (r: Fields)
    ensures Keys(r) == ["short_name", "frequency", "cores_per_cluster"]
    ensures Get(r, "short_name") == Some(JObj([("name", ShortNameArg(args))]))
    ensures Get(r, "frequency") == Some(JObj([("value", ParseInt(Arg(args, "frequency", JInt(0))))]))
    ensures Get(r, "cores_per_cluster") == Some(ParseInt(Arg(args, "cores_per_cluster", JInt(0))))
    ensures !HasKey(args, "frequency") ==> Get(r, "frequency") == Some(JObj([("value", JInt(0))]))
  {
    var a := ("short_name", JObj([("name", ShortNameArg(args))]));
    var b := ("frequency", JObj([("value", ParseInt(Arg(args, "frequency", JInt(0))))]));
    var c := ("cores_per_cluster", ParseInt(Arg(args, "cores_per_cluster", JInt(0))));
    assert [a, b, c] == [a] + ([b] + [c]);
    GetPast(a, [b] + [c], "frequency");
    GetPast(a, [b] + [c], "cores_per_cluster");
    GetPast(b, [c], "cores_per_cluster");
    KeysSingle(c);
    KeysCons(b, [c]);
    KeysCons(a, [b] + [c]);
    [a, b, c]
  }

  /** The cluster object the tool builds is a valid CPU cluster exactly
      when the name is a string and the frequency reads as an integer in
      the frequency bounds; the core count is never checked. */
  lemma CreatedClusterValid(args: Fields)
    ensures ValidCpuCluster(AnyCores, JObj(CreateCpuCluster(args))) <==>
      && ShortNameArg(args).JStr?
      && var f := ParseInt(Arg(args, "frequency", JInt(0))); f.JInt? && 1000 <= f.i <= 1000000000
  {
  }

  /** A frequency argument such as "2000000 Hz" gives a valid cluster;
      leaving the frequency out never does. */
  lemma CreatedClusterFrequency(args: Fields, name: string, n: nat, unit: string)
    requires Arg(args, "short_name", JNull) == JStr(name) && name != ""
    requires Arg(args, "frequency", JInt(0)) == JStr(NatToString(n) + unit)
    requires |unit| == 0 || !IsDigit(unit[0])
    ensures ValidCpuCluster(AnyCores, JObj(CreateCpuCluster(args))) <==> 1000 <= n <= 1000000000
  {
    ParseIntLeading(n, unit);
    CreatedClusterValid(args);
  }

  lemma ParseIntLeading(n: nat, unit: string)
    requires |unit| == 0 || !IsDigit(unit[0])
    ensures ParseInt(JStr(NatToString(n) + unit)) == JInt(n)
  {
    var s := NatToString(n) + unit;
    assert s[0] == NatToString(n)[0];
    assert FirstDigit(s) == 0;
    assert s[0..] == s;
    LeadingDigitsOfNumber(NatToString(n), unit);
    NatToStringRoundTrip(n);
  }

  /** The ethernet argument of `add_chiplet`: `native` by default, the
      `mode` of an object that has one, `native` for `true` and
      `simulated` for `false` (after unwrapping), otherwise as given. */
  function EthernetArg(args: Fields): (r: Json)
    ensures !HasKey(args, "ethernet_interface") ==> r == JStr("native")
    ensures r.JBool? ==> false
    ensures forall s :: Arg(args, "ethernet_interface", JNull) == JStr(s) ==> r == JStr(s)
    ensures Arg(args, "ethernet_interface", JNull) == JBool(true) ==> r == JStr("native")
    ensures Arg(args, "ethernet_interface", JNull) == JBool(false) ==> r == JStr("simulated")
    ensures forall e :: Arg(args, "ethernet_interface", JNull) == JObj(e) && HasKey(e, "mode") && !Get(e, "mode").value.JBool? ==>
      Get(e, "mode") == Some(r)
    ensures forall e :: Arg(args, "ethernet_interface", JNull) == JObj(e) && Get(e, "mode") == Some(JBool(true)) ==>
      r == JStr("native")
    ensures forall e :: Arg(args, "ethernet_interface", JNull) == JObj(e) && Get(e, "mode") == Some(JBool(false)) ==>
      r == JStr("simulated")
    ensures forall e :: Arg(args, "ethernet_interface", JNull) == JObj(e) && !HasKey(e, "mode") ==> r == JObj(e)
    ensures var e := Arg(args, "ethernet_interface", JNull);
      HasKey(args, "ethernet_interface") && !e.JObj? && !e.JBool? ==> r == e
  {
    var e := Arg(args, "ethernet_interface", JStr("native"));
    var m := if e.JObj? && HasKey(e.fields, "mode") then Get(e.fields, "mode").value else e;
    if m.JBool? then JStr(if m.b then "native" else "simulated") else m
  }

  /** The UCIe argument of `add_chiplet`: `endpoint` by default, the `mode`
      of an object that has one, otherwise as given. */
  function UcieArg(args: Fields): (r: Json)
    ensures !HasKey(args, "ucie_interface") ==> r == JStr("endpoint")
    ensures forall u :: Arg(args, "ucie_interface", JNull) == JObj(u) && HasKey(u, "mode") ==> Get(u, "mode") == Some(r)
    ensures forall u :: Arg(args, "ucie_interface", JNull) == JObj(u) && !HasKey(u, "mode") ==> r == JObj(u)
    ensures !Arg(args, "ucie_interface", JNull).JObj? && HasKey(args, "ucie_interface") ==> r == Get(args, "ucie_interface").value
  {
    var u := Arg(args, "ucie_interface", JStr("endpoint"));
    if u.JObj? && HasKey(u.fields, "mode") then Get(u.fields, "mode").value else u
  }

  /** `add_chiplet` */
  function AddChiplet(args: Fields): (r: Fields)
    ensures Keys(r) == ["short_name", "axi_bus", "frequency", "ethernet_interface", "ucie_interface"]
    ensures Get(r, "short_name") == Some(JObj([("name", ShortNameArg(args))]))
    ensures Get(r, "axi_bus") == Some(JObj([("value", ParseInt(Arg(args, "axi_bus", JInt(0))))]))
    ensures Get(r, "frequency") == Some(JObj([("value", ParseInt(Arg(args, "frequency", JInt(0))))]))
    ensures Get(r, "ethernet_interface") == Some(JObj([("mode", EthernetArg(args))]))
    ensures Get(r, "ucie_interface") == Some(JObj([("mode", UcieArg(args))]))
  {
    ChipletObject(ShortNameArg(args), ParseInt(Arg(args, "axi_bus", JInt(0))), ParseInt(Arg(args, "frequency", JInt(0))),
                  EthernetArg(args), UcieArg(args))
  }

  /** The object `add_chiplet` returns, from its five computed parts. */
  function ChipletObject(name: Json, axi: Json, freq: Json, eth: Json, ucie: Json): (r: Fields)
    ensures Keys(r) == ["short_name", "axi_bus", "frequency", "ethernet_interface", "ucie_interface"]
    ensures Get(r, "short_name") == Some(JObj([("name", name)]))
    ensures Get(r, "axi_bus") == Some(JObj([("value", axi)]))
    ensures Get(r, "frequency") == Some(JObj([("value", freq)]))
    ensures Get(r, "ethernet_interface") == Some(JObj([("mode", eth)]))
    ensures Get(r, "ucie_interface") == Some(JObj([("mode", ucie)]))
  {
    var a := ("short_name", JObj([("name", name)]));
    var b := ("axi_bus", JObj([("value", axi)]));
    var c := ("frequency", JObj([("value", freq)]));
    var d := ("ethernet_interface", JObj([("mode", eth)]));
    var e := ("ucie_interface", JObj([("mode", ucie)]));
    var r := [a] + ([b] + ([c] + ([d] + [e])));
    GetPast(a, [b] + ([c] + ([d] + [e])), "axi_bus");
    GetPast(a, [b] + ([c] + ([d] + [e])), "frequency");
    GetPast(b, [c] + ([d] + [e]), "frequency");
    ChipletArgsTail(c, d, e);
    GetPast(a, [b] + ([c] + ([d] + [e])), "ethernet_interface");
    GetPast(b, [c] + ([d] + [e]), "ethernet_interface");
    GetPast(a, [b] + ([c] + ([d] + [e])), "ucie_interface");
    GetPast(b, [c] + ([d] + [e]), "ucie_interface");
    KeysOfFive(a, b, c, d, e);
    r
  }

  lemma KeysOfFive(a: (string, Json), b: (string, Json), c: (string, Json), d: (string, Json), e: (string, Json))
    ensures Keys([a] + ([b] + ([c] + ([d] + [e])))) == [a.0, b.0, c.0, d.0, e.0]
  {
    KeysSingle(e);
    KeysCons(d, [e]);
    KeysCons(c, [d] + [e]);
    KeysCons(b, [c] + ([d] + [e]));
    KeysCons(a, [b] + ([c] + ([d] + [e])));
  }

  lemma ChipletArgsTail(c: (string, Json), d: (string, Json), e: (string, Json))
    requires c.0 == "frequency" && d.0 == "ethernet_interface" && e.0 == "ucie_interface"
    ensures Get([c] + ([d] + [e]), "ethernet_interface") == Some(d.1)
    ensures Get([c] + ([d] + [e]), "ucie_interface") == Some(e.1)
  {
    GetPast(c, [d] + [e], "ethernet_interface");
    GetPast(c, [d] + [e], "ucie_interface");
    GetPast(d, [e], "ucie_interface");
  }

  /** Whatever AXI width the model asked for, the chiplet built from the
      tool's object has the default bus: the width is written under
      `value`, a key the AXI record does not declare. The chiplet is valid
      exactly when the name is a string and both modes are members. */
  lemma AddChipletAxiIgnored(args: Fields)
    ensures ValidChiplet(JObj(AddChiplet(args))) <==>
      && ShortNameArg(args).JStr?
      && EthernetArg(args) in [JStr("simulated"), JStr("native")]
      && UcieArg(args) in [JStr("host"), JStr("endpoint")]
    ensures BuildChiplet(JObj(AddChiplet(args))).Some? ==>
      BuildChiplet(JObj(AddChiplet(args))).value.axiBus == AxiBus(AxiWidthDefault, AxiFrequencyDefault)
  {
    AddChipletOmits(args);
    ChipletFromModes(AddChiplet(args), ShortNameArg(args), ParseInt(Arg(args, "axi_bus", JInt(0))), EthernetArg(args), UcieArg(args));
  }

  lemma ChipletFromModes(o: Fields, name: Json, axi: Json, eth: Json, ucie: Json)
    requires Get(o, "short_name") == Some(JObj([("name", name)]))
    requires Get(o, "axi_bus") == Some(JObj([("value", axi)]))
    requires Get(o, "ethernet_interface") == Some(JObj([("mode", eth)]))
    requires Get(o, "ucie_interface") == Some(JObj([("mode", ucie)]))
    requires !HasKey(o, "cpu_cluster") && !HasKey(o, "generic_hardware")
    ensures ValidChiplet(JObj(o)) <==>
      name.JStr? && eth in [JStr("simulated"), JStr("native")] && ucie in [JStr("host"), JStr("endpoint")]
    ensures BuildChiplet(JObj(o)).Some? ==> BuildChiplet(JObj(o)).value.axiBus == AxiBus(AxiWidthDefault, AxiFrequencyDefault)
  {
    AxiBusDefaults(axi);
    IdentityRecord(name);
    EthernetRecord(eth);
    UcieRecord(ucie);
    assert Items(o, "generic_hardware") == Some([]);
  }

  lemma IdentityRecord(name: Json)
    ensures ValidIdentity(JObj([("name", name)])) <==> name.JStr?
  {
  }

  lemma EthernetRecord(eth: Json)
    ensures ValidEthernet(JObj([("mode", eth)])) <==> eth in [JStr("simulated"), JStr("native")]
  {
    EthernetModes(if eth.JStr? then eth.s else "");
  }

  lemma UcieRecord(ucie: Json)
    ensures ValidUcie(JObj([("mode", ucie)])) <==> ucie in [JStr("host"), JStr("endpoint")]
  {
    UcieModeChoices(if ucie.JStr? then ucie.s else "");
  }

  /** The keys the chiplet tool never writes. */
  lemma AddChipletOmits(args: Fields)
    ensures !HasKey(AddChiplet(args), "cpu_cluster") && !HasKey(AddChiplet(args), "generic_hardware")
  {
    ChipletKeysOmit();
    AbsentKey(AddChiplet(args), "cpu_cluster");
    AbsentKey(AddChiplet(args), "generic_hardware");
  }

  lemma ChipletKeysOmit()
    ensures var ks := ["short_name", "axi_bus", "frequency", "ethernet_interface", "ucie_interface"];
      "cpu_cluster" !in ks && "generic_hardware" !in ks
  {
  }

  /** The tools the registry holds. */
  datatype Tool = CreateCpuClusterTool | AddChipletTool

  const Registry: seq<(string, Tool)> := [("create_cpu_cluster", CreateCpuClusterTool), ("add_chiplet", AddChipletTool)]

  /** `select_tool`: a registered name or nothing. */
  function SelectTool(name: string): (r: Option<Tool>)
    ensures r.Some? <==> name == "create_cpu_cluster" || name == "add_chiplet"
    ensures r == Some(CreateCpuClusterTool) <==> name == "create_cpu_cluster"
  {
    Lookup(Registry, name)
  }

  /** The keys of the object each tool returns, in order. */
  function ResultKeys(t: Tool): seq<string> {
    match t
    case CreateCpuClusterTool => ["short_name", "frequency", "cores_per_cluster"]
    case AddChipletTool => ["short_name", "axi_bus", "frequency", "ethernet_interface", "ucie_interface"]
  }

  /** `tool_func(**args)`: whatever the arguments, the result holds exactly
      the tool's own keys. */
  function RunTool(t: Tool, args: Fields): (r: Fields)
    ensures Keys(r) == ResultKeys(t)
  {
    match t
    case CreateCpuClusterTool => CreateCpuCluster(args)
    case AddChipletTool => AddChiplet(args)
  }
}
