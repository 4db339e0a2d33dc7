/** The field normalizers the first assistant applies to a parsed model
    answer before constructing a CPU cluster or chiplet record. They
    rewrite the loose shapes a language model tends to produce (a bare
    string for a name, a number or "2000 MHz" for a frequency, "on" for an
    ethernet mode, a misspelt UCIe key) toward the record shapes. Objects
    are changed by assignment, so replaced keys keep their position and new
    keys are appended. A normalizer step that raises in the source (and so
    makes the whole parse answer `None`) returns `None` here. */
module Normalize {
  import opened Options
  import opened JsonValue
  import opened Text
  import opened Pydantic
  import opened AeSchema

  // ---------------------------------------------------------------------
  // short_name

  /** The value the last entry whose key strips to `k` holds, if any. */
  function LastStripped(d: Fields, k: string): (r: Option<Json>)
    ensures r.None? <==> forall i | 0 <= i < |d| :: Strip(d[i].0) != k
  {
    if |d| == 0 then None
    else if Strip(d[|d| - 1].0) == k then Some(d[|d| - 1].1)
    else LastStripped(d[..|d| - 1], k)
  }

  /** `{k.strip(): v for k, v in d.items()}`: keys are stripped; when two
      keys strip to the same text the later value wins, in the position of
      the first. */
  function StripKeys(d: Fields): (r: Fields)
    ensures forall k :: Get(r, k) == LastStripped(d, k)
  {
    if |d| == 0 then []
    else Set(StripKeys(d[..|d| - 1]), Strip(d[|d| - 1].0), d[|d| - 1].1)
  }

  /** The record shape of a name: `{"name": v}`. */
  function NameRecord(v: Json): Json {
    JObj([("name", v)])
  }

  /** The value the normalizer assigns to `short_name`, if it assigns one:
      a string is wrapped; an object whose stripped keys include `value`
      (preferred) or `name` is rebuilt around that entry. */
  function NormalizedName(sn: Option<Json>): Option<Json> {
    match sn
    case Some(JStr(s)) => Some(NameRecord(JStr(s)))
    case Some(JObj(f)) =>
      var g := StripKeys(f);
      if HasKey(g, "value") then Some(NameRecord(Get(g, "value").value))
      else if HasKey(g, "name") then Some(NameRecord(Get(g, "name").value))
      else None
    case _ => None
  }

  function FixShortName(d: Fields): (r: Fields)
    ensures Keys(r) == Keys(d)
    ensures forall k | k != "short_name" :: Get(r, k) == Get(d, k)
    ensures NormalizedName(Get(d, "short_name")).Some? ==> Get(r, "short_name") == NormalizedName(Get(d, "short_name"))
    ensures NormalizedName(Get(d, "short_name")).None? ==> r == d
  {
    match NormalizedName(Get(d, "short_name"))
    case Some(v) => Set(d, "short_name", v)
    case None => d
  }

  lemma StripKeysSingle(k: string, v: Json)
    requires Strip(k) == k
    ensures StripKeys([(k, v)]) == [(k, v)]
  {
    assert [(k, v)][..0] == [];
  }

  /** A name record is already normal: normalizing it rebuilds the same value. */
  lemma NameRecordNormal(v: Json)
    ensures NormalizedName(Some(NameRecord(v))) == Some(NameRecord(v))
  {
    StripUnpadded("name");
    StripKeysSingle("name", v);
  }

  /** Normalizing the short name twice is the same as once. */
  lemma FixShortNameIdempotent(d: Fields)
    ensures FixShortName(FixShortName(d)) == FixShortName(d)
  {
    var d1 := FixShortName(d);
    match NormalizedName(Get(d, "short_name"))
    case Some(v) =>
      var x :| v == NameRecord(x) by {
        match Get(d, "short_name").value
        case JStr(s) =>
        case JObj(f) =>
      }
      NameRecordNormal(x);
      SetUnchanged(d1, "short_name", v);
    case None =>
  }

  /** A string name is wrapped as a name record. */
  lemma ShortNameFromString(d: Fields, s: string)
    requires Get(d, "short_name") == Some(JStr(s))
    ensures Get(FixShortName(d), "short_name") == Some(JObj([("name", JStr(s))]))
    ensures Keys(FixShortName(d)) == Keys(d)
  {
  }

  /** An object name is rebuilt around the entry whose stripped key is
      `value`, failing that `name` (the last such entry wins); an object
      with neither is left as it was. */
  lemma ShortNameFromObject(d: Fields, f: Fields)
    requires Get(d, "short_name") == Some(JObj(f))
    ensures LastStripped(f, "value").Some? ==>
      Get(FixShortName(d), "short_name") == Some(JObj([("name", LastStripped(f, "value").value)]))
    ensures LastStripped(f, "value").None? && LastStripped(f, "name").Some? ==>
      Get(FixShortName(d), "short_name") == Some(JObj([("name", LastStripped(f, "name").value)]))
    ensures LastStripped(f, "value").None? && LastStripped(f, "name").None? ==> FixShortName(d) == d
  {
    var g := StripKeys(f);
    var lv, ln := LastStripped(f, "value"), LastStripped(f, "name");
    assert Get(g, "value") == lv && Get(g, "name") == ln;
    var n := NormalizedName(Get(d, "short_name"));
    if lv.Some? {
      assert n == Some(NameRecord(lv.value));
    } else if ln.Some? {
      assert n == Some(NameRecord(ln.value));
    } else {
      assert n.None?;
    }
  }

  /** A name that is neither a string nor an object, or no name at all, is
      left alone. */
  lemma ShortNameOtherKept(d: Fields)
    requires Get(d, "short_name").None? || !(Get(d, "short_name").value.JStr? || Get(d, "short_name").value.JObj?)
    ensures FixShortName(d) == d
  {
  }

  // ---------------------------------------------------------------------
  // frequency

  /** The record shape of a frequency in MHz. */
  function MHz(v: Json): Json {
    JObj([("value", v), ("unit", JStr("MHz"))])
  }

  /** The value the normalizer assigns to `frequency`, if it assigns one:
      missing or `null` becomes 0 MHz, a number (a `bool` included) is
      wrapped, and a string starting with digits becomes its leading digit
      run in MHz. Other strings, objects and lists are left alone. */
  function NormalizedFrequency(f: Option<Json>): (r: Option<Json>)
    ensures r.Some? ==> r.value.JObj? && Get(r.value.fields, "unit") == Some(JStr("MHz"))
  {
    match f
    case None => Some(MHz(JInt(0)))
    case Some(JNull) => Some(MHz(JInt(0)))
    case Some(JInt(n)) => Some(MHz(JInt(n)))
    case Some(JBool(b)) => Some(MHz(JBool(b)))
    case Some(JStr(s)) =>
      (match MatchLeadingInt(s)
       case Some(n) => Some(MHz(JInt(n)))
       case None => None)
    case Some(_) => None
  }

  function FixFrequency(d: Fields): (r: Fields)
    ensures forall k | k != "frequency" :: Get(r, k) == Get(d, k)
    ensures HasKey(d, "frequency") ==> Keys(r) == Keys(d)
    ensures !HasKey(d, "frequency") ==> Keys(r) == Keys(d) + ["frequency"]
    ensures Get(r, "frequency").Some? && Get(r, "frequency") != Some(JNull)
  {
    match NormalizedFrequency(Get(d, "frequency"))
    case Some(v) => Set(d, "frequency", v)
    case None => d
  }

  /** Normalizing the frequency twice is the same as once. */
  lemma FixFrequencyIdempotent(d: Fields)
    ensures FixFrequency(FixFrequency(d)) == FixFrequency(d)
  {
    var d1 := FixFrequency(d);
    match NormalizedFrequency(Get(d, "frequency"))
    case Some(v) =>
      assert v.JObj?;
      assert Get(d1, "frequency") == Some(v);
      assert NormalizedFrequency(Some(v)) == None;
    case None =>
  }

  /** A missing or `null` frequency becomes 0 MHz, a whole number is
      wrapped in MHz as it is, and a string that does not start with a
      digit, an object or a list is left alone. */
  lemma FixFrequencyCases(d: Fields)
    ensures Unset(d, "frequency") ==> Get(FixFrequency(d), "frequency") == Some(MHz(JInt(0)))
    ensures Get(d, "frequency").Some? && Get(d, "frequency").value.JInt? ==>
      Get(FixFrequency(d), "frequency") == Some(MHz(Get(d, "frequency").value))
    ensures Get(d, "frequency").Some? && Get(d, "frequency").value.JStr? ==>
      var s := Get(d, "frequency").value.s;
      |s| == 0 || !IsDigit(s[0]) ==> FixFrequency(d) == d
    ensures Get(d, "frequency").Some? && (Get(d, "frequency").value.JObj? || Get(d, "frequency").value.JArr?) ==>
      FixFrequency(d) == d
  {
  }

  /** A frequency written as a number followed by anything that does not
      start with a digit ("2000 MHz") becomes that number, in MHz. */
  lemma FrequencyFromText(n: nat, rest: string)
    requires |rest| == 0 || !IsDigit(rest[0])
    ensures NormalizedFrequency(Some(JStr(NatToString(n) + rest))) == Some(MHz(JInt(n)))
  {
    var s := NatToString(n) + rest;
    LeadingDigitsOfNumber(NatToString(n), rest);
    NatToStringRoundTrip(n);
    assert s[0] == NatToString(n)[0];
  }

  // ---------------------------------------------------------------------
  // normalize_cpu_cluster

  function NormalizeCpuCluster(d: Fields): (r: Fields)
    ensures forall k | k != "short_name" && k != "frequency" :: Get(r, k) == Get(d, k)
    ensures Get(r, "frequency").Some? && Get(r, "frequency") != Some(JNull)
    ensures Keys(r) == Keys(d) || Keys(r) == Keys(d) + ["frequency"]
  {
    FixFrequency(FixShortName(d))
  }

  /** Normalizing a CPU cluster twice is the same as once. */
  lemma NormalizeCpuClusterIdempotent(d: Fields)
    ensures NormalizeCpuCluster(NormalizeCpuCluster(d)) == NormalizeCpuCluster(d)
  {
    var d1 := FixShortName(d);
    var d2 := FixFrequency(d1);
    FixShortNameIdempotent(d);
    assert Get(d2, "short_name") == Get(d1, "short_name");
    assert FixShortName(d2) == d2 by {
      match NormalizedName(Get(d1, "short_name"))
      case Some(v) =>
        assert Get(FixShortName(d1), "short_name") == Some(v);
        SetUnchanged(d2, "short_name", v);
      case None =>
    }
    FixFrequencyIdempotent(d1);
  }

  // ---------------------------------------------------------------------
  // normalize_chiplet, step by step

  /** `d["ucie_interface"] = d.pop("ucei_interface")` when the misspelt key
      is present: any existing `ucie_interface` entry is overwritten. */
  function RenameUcie(d: Fields): (r: Fields)
    ensures !HasKey(r, "ucei_interface")
    ensures HasKey(d, "ucei_interface") ==> Get(r, "ucie_interface") == Get(d, "ucei_interface")
    ensures !HasKey(d, "ucei_interface") ==> r == d
    ensures forall k | k != "ucei_interface" && k != "ucie_interface" :: Get(r, k) == Get(d, k)
  {
    if HasKey(d, "ucei_interface") then Set(Remove(d, "ucei_interface"), "ucie_interface", Get(d, "ucei_interface").value)
    else d
  }

  /** The fixes applied to an object-valued `cpu_cluster`: its short name,
      a `null` operating system when it has none, and a numeric frequency
      wrapped in MHz. */
  function FixClusterFields(cc: Fields): (r: Fields)
    ensures HasKey(r, "operating_system")
    ensures HasKey(cc, "operating_system") ==> Get(r, "operating_system") == Get(cc, "operating_system")
    ensures !HasKey(cc, "operating_system") ==> Get(r, "operating_system") == Some(JNull)
    ensures Get(r, "short_name") == Get(FixShortName(cc), "short_name")
    ensures Get(cc, "frequency").Some? && IsNumber(Get(cc, "frequency").value) ==>
      Get(r, "frequency") == Some(MHz(Get(cc, "frequency").value))
    ensures !(Get(cc, "frequency").Some? && IsNumber(Get(cc, "frequency").value)) ==>
      Get(r, "frequency") == Get(cc, "frequency")
    ensures forall k | k != "short_name" && k != "operating_system" && k != "frequency" :: Get(r, k) == Get(cc, k)
  {
    ClusterFieldsOs(cc);
    ClusterFieldsFrequency(cc);
    ClusterFieldsOthers(cc);
    WrapFrequency(DefaultOs(FixShortName(cc)))
  }

  /** The operating system step is the only one touching that key. */
  lemma ClusterFieldsOs(cc: Fields)
    ensures var r := WrapFrequency(DefaultOs(FixShortName(cc)));
      && HasKey(r, "operating_system")
      && (HasKey(cc, "operating_system") ==> Get(r, "operating_system") == Get(cc, "operating_system"))
      && (!HasKey(cc, "operating_system") ==> Get(r, "operating_system") == Some(JNull))
  {
    var c1 := FixShortName(cc);
    assert Get(c1, "operating_system") == Get(cc, "operating_system");
  }

  /** The frequency step sees the frequency the cluster came with. */
  lemma ClusterFieldsFrequency(cc: Fields)
    ensures Get(DefaultOs(FixShortName(cc)), "frequency") == Get(cc, "frequency")
  {
    var c1 := FixShortName(cc);
    assert Get(c1, "frequency") == Get(cc, "frequency");
  }

  /** The short name is the rewritten one, and no other key changes. */
  lemma ClusterFieldsOthers(cc: Fields)
    ensures var r := WrapFrequency(DefaultOs(FixShortName(cc)));
      && Get(r, "short_name") == Get(FixShortName(cc), "short_name")
      && forall k | k != "short_name" && k != "operating_system" && k != "frequency" :: Get(r, k) == Get(cc, k)
  {
  }

  /** `if "operating_system" not in cc: cc["operating_system"] = None` */
  function DefaultOs(c: Fields): (r: Fields)
    ensures HasKey(c, "operating_system") ==> r == c
    ensures !HasKey(c, "operating_system") ==> Get(r, "operating_system") == Some(JNull)
    ensures forall k | k != "operating_system" :: Get(r, k) == Get(c, k)
  {
    if HasKey(c, "operating_system") then c else Set(c, "operating_system", JNull)
  }

  /** A frequency that Python sees as an `int` (a bool included) is
      wrapped as MHz; anything else is left alone. */
  function WrapFrequency(c: Fields): (r: Fields)
    ensures Get(c, "frequency").Some? && IsNumber(Get(c, "frequency").value) ==>
      Get(r, "frequency") == Some(MHz(Get(c, "frequency").value))
    ensures !(Get(c, "frequency").Some? && IsNumber(Get(c, "frequency").value)) ==> r == c
    ensures forall k | k != "frequency" :: Get(r, k) == Get(c, k)
  {
    match Get(c, "frequency")
    case Some(f) => if IsNumber(f) then Set(c, "frequency", MHz(f)) else c
    case None => c
  }

  function FixNestedCluster(d: Fields): (r: Fields)
    ensures forall k | k != "cpu_cluster" :: Get(r, k) == Get(d, k)
    ensures forall cc :: Get(d, "cpu_cluster") == Some(JObj(cc)) ==> Get(r, "cpu_cluster") == Some(JObj(FixClusterFields(cc)))
    ensures (forall cc :: Get(d, "cpu_cluster") != Some(JObj(cc))) ==> r == d
  {
    match Get(d, "cpu_cluster")
    case Some(JObj(cc)) => Set(d, "cpu_cluster", JObj(FixClusterFields(cc)))
    case _ => d
  }

  /** Python's `item in container` for a string item: key membership for
      a dict, substring for a string, element equality for a list, and a
      `TypeError` (here `None`) for anything else. */
  function PyContains(container: Json, item: string): (r: Option<bool>)
    ensures r.None? <==> !(container.JObj? || container.JStr? || container.JArr?)
  {
    match container
    case JObj(f) => Some(HasKey(f, item))
    case JStr(s) => Some(IsSubstring(item, s))
    case JArr(xs) => Some(JStr(item) in xs)
    case _ => None
  }

  /** An AXI bus given as `{value, unit}` is rewritten by its unit: a
      byte unit gives a width, hz or mhz a frequency, both carrying the
      value unchanged. `"value" in axi and "unit" in axi` is evaluated as
      Python would: on anything but a dict, string or list it raises, and
      a string or list holding both words raises at the subscript that
      follows. A non-string unit raises at `.lower()`. */
  function FixAxiBus(d: Fields): (r: Option<Fields>)
    ensures r.Some? ==> forall k | k != "axi_bus" :: Get(r.value, k) == Get(d, k)
    ensures r.Some? ==> Keys(r.value) == Keys(d)
    ensures !HasKey(d, "axi_bus") ==> r == Some(d)
  {
    match Get(d, "axi_bus")
    case None => Some(d)
    case Some(JObj(axi)) => FixAxiObject(d, axi)
    case Some(JStr(t)) => if IsSubstring("value", t) && IsSubstring("unit", t) then None else Some(d)
    case Some(JArr(xs)) => if JStr("value") in xs && JStr("unit") in xs then None else Some(d)
    case Some(_) => None
  }

  /** The dictionary case: only a bus holding both `value` and `unit` is
      rewritten, and its unit must be a string. */
  function FixAxiObject(d: Fields, axi: Fields): Option<Fields> {
    if !(HasKey(axi, "value") && HasKey(axi, "unit")) then Some(d)
    else
      match Get(axi, "unit").value
      case JStr(u) => Some(RewriteAxi(d, Lower(u), Get(axi, "value").value))
      case _ => None
  }

  function RewriteAxi(d: Fields, unit: string, value: Json): Fields {
    if StartsWith(unit, "byte") then Set(d, "axi_bus", JObj([("width", value)]))
    else if unit == "hz" || unit == "mhz" then Set(d, "axi_bus", JObj([("frequency", value)]))
    else d
  }

  /** The AXI step raises on this bus: `in` on a value that is not a
      container, the subscript on a string or list holding both words, or
      `.lower()` on a unit that is not a string. */
  predicate AxiRaises(axi: Json) {
    || PyContains(axi, "value").None?
    || (&& PyContains(axi, "value") == Some(true)
        && PyContains(axi, "unit") == Some(true)
        && (!axi.JObj? || !Get(axi.fields, "unit").value.JStr?))
  }

  /** The AXI step fails exactly where Python raises. */
  lemma FixAxiBusRaises(d: Fields)
    ensures FixAxiBus(d).None? <==> HasKey(d, "axi_bus") && AxiRaises(Get(d, "axi_bus").value)
  {
  }

  /** A bus lacking `value` or `unit`, or whose string unit names neither
      bytes nor hz/mhz, is left alone. */
  lemma AxiOtherUnitKept(d: Fields, axi: Fields)
    requires Get(d, "axi_bus") == Some(JObj(axi))
    requires HasKey(axi, "value") && HasKey(axi, "unit") ==>
      && Get(axi, "unit").value.JStr?
      && var u := Lower(Get(axi, "unit").value.s);
         !StartsWith(u, "byte") && u != "hz" && u != "mhz"
    ensures FixAxiBus(d) == Some(d)
  {
  }

  /** A width given with a byte unit becomes the bus width, and the bus
      is then valid exactly when that width is positive. */
  lemma AxiByteUnit(d: Fields, axi: Fields, n: int, u: string)
    requires Get(d, "axi_bus") == Some(JObj(axi))
    requires Get(axi, "value") == Some(JInt(n)) && Get(axi, "unit") == Some(JStr(u))
    requires StartsWith(Lower(u), "byte")
    ensures FixAxiBus(d).Some?
    ensures ValidAxiBus(Get(FixAxiBus(d).value, "axi_bus").value) <==> n >= 1
  {
    var bus := JObj([("width", JInt(n))]);
    FixAxiBusByte(d, axi, JInt(n), u);
    assert Get(Set(d, "axi_bus", bus), "axi_bus") == Some(bus);
    WidthOnlyBus(n);
  }

  lemma FixAxiBusByte(d: Fields, axi: Fields, v: Json, u: string)
    requires Get(d, "axi_bus") == Some(JObj(axi))
    requires Get(axi, "value") == Some(v) && Get(axi, "unit") == Some(JStr(u))
    requires StartsWith(Lower(u), "byte")
    ensures FixAxiBus(d) == Some(Set(d, "axi_bus", JObj([("width", v)])))
  {
    assert FixAxiBus(d) == FixAxiObject(d, axi);
    assert FixAxiObject(d, axi) == Some(RewriteAxi(d, Lower(u), v));
  }

  lemma WidthOnlyBus(n: int)
    ensures ValidAxiBus(JObj([("width", JInt(n))])) <==> n >= 1
  {
  }

  /** A frequency given in hz or MHz is carried over without scaling, so
      the bus, which counts in Hz, rejects any value below one million
      whatever the unit said. */
  lemma AxiFrequencyUnscaled(d: Fields, axi: Fields, n: int, u: string)
    requires Get(d, "axi_bus") == Some(JObj(axi))
    requires Get(axi, "value") == Some(JInt(n)) && Get(axi, "unit") == Some(JStr(u))
    requires Lower(u) == "hz" || Lower(u) == "mhz"
    ensures FixAxiBus(d).Some?
    ensures Get(FixAxiBus(d).value, "axi_bus") == Some(JObj([("frequency", JInt(n))]))
    ensures ValidAxiBus(Get(FixAxiBus(d).value, "axi_bus").value) <==> n >= 1000000
  {
    var bus := JObj([("frequency", JInt(n))]);
    assert FixAxiBus(d) == FixAxiObject(d, axi);
    assert !StartsWith(Lower(u), "byte");
    assert FixAxiObject(d, axi) == Some(RewriteAxi(d, Lower(u), JInt(n)));
    assert RewriteAxi(d, Lower(u), JInt(n)) == Set(d, "axi_bus", bus);
    assert Get(Set(d, "axi_bus", bus), "axi_bus") == Some(bus);
    FrequencyOnlyBus(n);
  }

  lemma FrequencyOnlyBus(n: int)
    ensures ValidAxiBus(JObj([("frequency", JInt(n))])) <==> n >= 1000000
  {
  }

  const EnableWords: seq<string> := ["enabled", "on", "true"]
  const DisableWords: seq<string> := ["disabled", "off", "false"]

  /** A bare string is wrapped as the mode; in an object, an enabling word
      becomes `simulated` and a disabling word `native`, compared exactly. */
  function FixEthernet(d: Fields): (r: Fields)
    ensures forall k | k != "ethernet_interface" :: Get(r, k) == Get(d, k)
    ensures Keys(r) == Keys(d)
    ensures var v := Get(d, "ethernet_interface"); !(v.Some? && (v.value.JStr? || v.value.JObj?)) ==> r == d
  {
    var v := Get(d, "ethernet_interface");
    if v.Some? && v.value.JStr? then Set(d, "ethernet_interface", JObj([("mode", v.value)]))
    else if v.Some? && v.value.JObj? then TranslateEthernetObject(d, v.value.fields)
    else d
  }

  /** The object branch: only a string mode is looked at. */
  function TranslateEthernetObject(d: Fields, e: Fields): Fields {
    var mode := Get(e, "mode");
    if mode.Some? && mode.value.JStr? then TranslateEthernet(d, e, mode.value.s) else d
  }

  /** The object case with a string mode. */
  function TranslateEthernet(d: Fields, e: Fields, m: string): Fields {
    match EthernetWord(m)
    case Some(mode) => Set(d, "ethernet_interface", JObj(Set(e, "mode", JStr(EthModeName(mode)))))
    case None => d
  }

  /** The mode an enabling or disabling word stands for. */
  function EthernetWord(m: string): (r: Option<EthMode>)
    ensures r == Some(Simulated) <==> m in EnableWords
    ensures r == Some(Native) <==> m in DisableWords
    ensures r.None? <==> m !in EnableWords && m !in DisableWords
  {
    if m in EnableWords then Some(Simulated)
    else if m in DisableWords then Some(Native)
    else None
  }

  /** The UCIe mode a lowercased word maps to in the string branch. */
  function UcieWord(m: string): (r: string)
    ensures r == "host" || r == "endpoint"
    ensures m == "host" || m == "endpoint" ==> r == m
    ensures r == "endpoint" <==> m == "device" || m == "endpoint"
  {
    if m == "device" then "endpoint"
    else if m == "host" || m == "endpoint" then m
    else "host"
  }

  /** A string is lowercased and mapped to a mode; in an object, a mode
      reading `device` in any case becomes `endpoint`, any other word that
      does not lowercase to host or endpoint becomes `host`, and a missing
      mode is added as `host`. A non-string mode raises. */
  function FixUcie(d: Fields): (r: Option<Fields>)
    ensures r.Some? ==> forall k | k != "ucie_interface" :: Get(r.value, k) == Get(d, k)
    ensures r.Some? ==> Keys(r.value) == Keys(d)
  {
    match Get(d, "ucie_interface")
    case Some(JStr(s)) => Some(Set(d, "ucie_interface", JObj([("mode", JStr(UcieWord(Lower(s))))])))
    case Some(JObj(u)) =>
      var mode := Get(u, "mode").GetOr(JStr(""));
      if !mode.JStr? then None
      else
        var m := Lower(mode.s);
        if m == "device" then Some(Set(d, "ucie_interface", JObj(Set(u, "mode", JStr("endpoint")))))
        else if m != "host" && m != "endpoint" then Some(Set(d, "ucie_interface", JObj(Set(u, "mode", JStr("host")))))
        else Some(d)
    case _ => Some(d)
  }

  /** The keys `normalize_chiplet` may rewrite. */
  predicate ChipletKey(k: string) {
    k in ["ucei_interface", "ucie_interface", "short_name", "cpu_cluster", "axi_bus", "ethernet_interface"]
  }

  /** The UCIe step raises on this interface: `.lower()` on a dictionary's
      mode that is present but not a string. */
  predicate UcieRaises(u: Option<Json>) {
    u.Some? && u.value.JObj? && HasKey(u.value.fields, "mode") && !Get(u.value.fields, "mode").value.JStr?
  }

  /** The UCIe interface the UCIe step sees: the misspelt key's value when
      there is one. */
  function UcieSeen(d: Fields): Option<Json> {
    if HasKey(d, "ucei_interface") then Get(d, "ucei_interface") else Get(d, "ucie_interface")
  }

  function NormalizeChiplet(d: Fields): (r: Option<Fields>)
    ensures r.Some? ==> forall k | !ChipletKey(k) :: Get(r.value, k) == Get(d, k)
    ensures r.Some? ==> !HasKey(r.value, "ucei_interface")
    ensures r.None? <==> (HasKey(d, "axi_bus") && AxiRaises(Get(d, "axi_bus").value)) || UcieRaises(UcieSeen(d))
  {
    var d1 := FixNestedCluster(FixShortName(RenameUcie(d)));
    ChipletStepsSee(d, d1);
    match FixAxiBus(d1)
    case None => None
    case Some(d2) =>
      var d3 := FixEthernet(d2);
      ChipletStepsKeep(d, d1, d2, d3);
      FixUcieRaises(d3);
      FixUcie(d3)
  }

  /** Up to the UCIe step, only the chiplet's own keys change, the
      misspelt key is gone, and the UCIe interface is the one seen. */
  lemma ChipletStepsKeep(d: Fields, d1: Fields, d2: Fields, d3: Fields)
    requires d1 == FixNestedCluster(FixShortName(RenameUcie(d)))
    requires FixAxiBus(d1) == Some(d2) && d3 == FixEthernet(d2)
    ensures forall k | !ChipletKey(k) :: Get(d3, k) == Get(d, k)
    ensures !HasKey(d3, "ucei_interface")
    ensures Get(d3, "ucie_interface") == UcieSeen(d)
  {
    var a := RenameUcie(d);
    var b := FixShortName(a);
    forall k | !ChipletKey(k) ensures Get(d3, k) == Get(d, k) {
      assert k != "ucei_interface" && k != "ucie_interface" && k != "short_name";
      assert k != "cpu_cluster" && k != "axi_bus" && k != "ethernet_interface";
    }
    ChipletStepsRenameUcie(d);
  }

  /** The steps before the AXI step leave the bus and the renamed UCIe
      interface as they found them, and the AXI step raises exactly where
      the bus says it does. */
  lemma ChipletStepsSee(d: Fields, d1: Fields)
    requires d1 == FixNestedCluster(FixShortName(RenameUcie(d)))
    ensures Get(d1, "axi_bus") == Get(d, "axi_bus")
    ensures Get(d1, "ucie_interface") == UcieSeen(d)
    ensures FixAxiBus(d1).None? <==> HasKey(d, "axi_bus") && AxiRaises(Get(d, "axi_bus").value)
  {
    ChipletStepsKeepBus(d);
    ChipletStepsRenameUcie(d);
    FixAxiBusRaises(d1);
  }

  /** The steps before the AXI step do not touch the bus. */
  lemma ChipletStepsKeepBus(d: Fields)
    ensures Get(FixNestedCluster(FixShortName(RenameUcie(d))), "axi_bus") == Get(d, "axi_bus")
  {
    var a := RenameUcie(d);
    var b := FixShortName(a);
    assert Get(a, "axi_bus") == Get(d, "axi_bus");
    assert Get(b, "axi_bus") == Get(a, "axi_bus");
  }

  /** After the steps before the AXI step, the UCIe key holds the
      interface the rename put there. */
  lemma ChipletStepsRenameUcie(d: Fields)
    ensures Get(FixNestedCluster(FixShortName(RenameUcie(d))), "ucie_interface") == UcieSeen(d)
  {
    var a := RenameUcie(d);
    var b := FixShortName(a);
    assert Get(a, "ucie_interface") == UcieSeen(d);
    assert Get(b, "ucie_interface") == Get(a, "ucie_interface");
  }

  /** The UCIe step fails exactly where the interface says it raises. */
  lemma FixUcieRaises(d: Fields)
    ensures FixUcie(d).None? <==> UcieRaises(Get(d, "ucie_interface"))
  {
  }

  // ---------------------------------------------------------------------
  // What the normalizers leave for validation

  /** An enabling or disabling word in an ethernet object becomes a valid
      ethernet mode. */
  lemma EthernetWordsMapped(d: Fields, e: Fields, m: string)
    requires Get(d, "ethernet_interface") == Some(JObj(e)) && Get(e, "mode") == Some(JStr(m))
    requires m in EnableWords || m in DisableWords
    ensures ValidEthernet(Get(FixEthernet(d), "ethernet_interface").value)
    ensures BuildEthernet(Get(FixEthernet(d), "ethernet_interface").value) == Some(if m in EnableWords then Simulated else Native)
  {
    var mode := EthernetWord(m).value;
    var e2 := Set(e, "mode", JStr(EthModeName(mode)));
    FixEthernetObject(d, e, m);
    SetThenGet(d, "ethernet_interface", JObj(e2));
    SetThenGet(e, "mode", JStr(EthModeName(mode)));
    EthernetModeRead(e2, mode);
  }

  /** An object whose mode is missing, not a string, or a string other
      than the six words (compared exactly, so `"ON"` included) is left
      unchanged. */
  lemma FixEthernetOtherModeKept(d: Fields, e: Fields)
    requires Get(d, "ethernet_interface") == Some(JObj(e))
    requires var m := Get(e, "mode");
      m.None? || !m.value.JStr? || (m.value.s !in EnableWords && m.value.s !in DisableWords)
    ensures FixEthernet(d) == d
  {
    assert FixEthernet(d) == TranslateEthernetObject(d, e);
  }

  lemma FixEthernetObject(d: Fields, e: Fields, m: string)
    requires Get(d, "ethernet_interface") == Some(JObj(e)) && Get(e, "mode") == Some(JStr(m))
    ensures FixEthernet(d) == TranslateEthernet(d, e, m)
  {
    assert FixEthernet(d) == TranslateEthernetObject(d, e);
    assert TranslateEthernetObject(d, e) == TranslateEthernet(d, e, m);
  }

  lemma EthernetModeRead(e: Fields, mode: EthMode)
    requires Get(e, "mode") == Some(JStr(EthModeName(mode)))
    ensures ValidEthernet(JObj(e)) && BuildEthernet(JObj(e)) == Some(mode)
  {
    assert EthModes[0].0 == "simulated" && EthModes[1].0 == "native";
  }

  /** A bare string is only wrapped, not translated: `"on"` becomes the
      mode `on`, which the ethernet record rejects, and only a second
      pass would translate it, so the step is not idempotent. */
  lemma EthernetStringNotMapped(s: string)
    ensures Get(FixEthernet([("ethernet_interface", JStr(s))]), "ethernet_interface") == Some(JObj([("mode", JStr(s))]))
    ensures ValidEthernet(JObj([("mode", JStr(s))])) <==> s == "simulated" || s == "native"
    ensures var once := FixEthernet([("ethernet_interface", JStr("on"))]);
            FixEthernet(once) != once
  {
    EthernetModes(s);
    var once := FixEthernet([("ethernet_interface", JStr("on"))]);
    assert once == [("ethernet_interface", JObj([("mode", JStr("on"))]))];
    var e := [("mode", JStr("on"))];
    assert Get(once, "ethernet_interface") == Some(JObj(e));
    assert Get(e, "mode") == Some(JStr("on"));
    assert "on" in EnableWords;
    assert FixEthernet(once) == Set(once, "ethernet_interface", JObj(Set(e, "mode", JStr("simulated"))));
    assert Get(Set(e, "mode", JStr("simulated")), "mode") == Some(JStr("simulated"));
  }

  lemma LowerModeWords()
    ensures Lower("host") == "host" && Lower("endpoint") == "endpoint"
  {
  }

  /** The interface holds a string mode that lowercases to `host` or
      `endpoint`. */
  predicate ModeWordSettled(v: Json) {
    && v.JObj?
    && Get(v.fields, "mode").Some?
    && Get(v.fields, "mode").value.JStr?
    && var m := Lower(Get(v.fields, "mode").value.s); m == "host" || m == "endpoint"
  }

  /** After the UCIe step, an interface given as a string or an object
      holds a mode word the UCIe record can name, up to case. */
  lemma FixUcieModeWord(d: Fields)
    requires Get(d, "ucie_interface").Some?
    requires Get(d, "ucie_interface").value.JStr? || Get(d, "ucie_interface").value.JObj?
    requires FixUcie(d).Some?
    ensures ModeWordSettled(Get(FixUcie(d).value, "ucie_interface").value)
  {
    LowerModeWords();
    var r := FixUcie(d).value;
    match Get(d, "ucie_interface").value
    case JStr(s) =>
      var m := UcieWord(Lower(s));
      assert Get(r, "ucie_interface") == Some(JObj([("mode", JStr(m))]));
    case JObj(u0) =>
      var m := Lower(Get(u0, "mode").GetOr(JStr("")).s);
      if m == "device" {
        SettledAfterSet(u0, "endpoint");
        assert Get(r, "ucie_interface") == Some(JObj(Set(u0, "mode", JStr("endpoint"))));
      } else if m != "host" && m != "endpoint" {
        SettledAfterSet(u0, "host");
        assert Get(r, "ucie_interface") == Some(JObj(Set(u0, "mode", JStr("host"))));
      } else {
        assert Get(u0, "mode").Some?;
        assert Get(r, "ucie_interface") == Some(JObj(u0));
      }
  }

  lemma SettledAfterSet(u: Fields, m: string)
    requires m == "host" || m == "endpoint"
    ensures ModeWordSettled(JObj(Set(u, "mode", JStr(m))))
  {
    LowerModeWords();
  }

  /** In an object, a string mode that lowercases to `device` becomes
      `endpoint`, one that lowercases to host or endpoint is kept exactly
      as written, and any other becomes `host`; the object's other entries
      are kept. */
  lemma FixUcieObjectMode(d: Fields, u: Fields, m: string)
    requires Get(d, "ucie_interface") == Some(JObj(u)) && Get(u, "mode") == Some(JStr(m))
    ensures FixUcie(d).Some?
    ensures var v := Get(FixUcie(d).value, "ucie_interface").value;
      && v.JObj?
      && Get(v.fields, "mode") == Some(JStr(
           if Lower(m) == "device" then "endpoint"
           else if Lower(m) == "host" || Lower(m) == "endpoint" then m
           else "host"))
      && forall k | k != "mode" :: Get(v.fields, k) == Get(u, k)
  {
  }

  /** An object without a mode is given the mode `host`. */
  lemma FixUcieMissingMode(d: Fields, u: Fields)
    requires Get(d, "ucie_interface") == Some(JObj(u)) && !HasKey(u, "mode")
    ensures FixUcie(d).Some?
    ensures Get(FixUcie(d).value, "ucie_interface") == Some(JObj(Set(u, "mode", JStr("host"))))
  {
    MissingModeSetsHost(d, u);
    SetThenGet(d, "ucie_interface", JObj(Set(u, "mode", JStr("host"))));
  }

  /** A missing mode reads as `""`, which is neither `device`, `host`
      nor `endpoint`, so the mode becomes `host`. */
  lemma MissingModeSetsHost(d: Fields, u: Fields)
    requires Get(d, "ucie_interface") == Some(JObj(u)) && !HasKey(u, "mode")
    ensures FixUcie(d) == Some(Set(d, "ucie_interface", JObj(Set(u, "mode", JStr("host")))))
  {
    var m := Lower(Get(u, "mode").GetOr(JStr("")).s);
    assert |m| == 0;
    assert m != "device" && m != "host" && m != "endpoint";
  }

  /** A string interface becomes an object holding just the mode its
      lowercased text maps to. */
  lemma FixUcieFromString(d: Fields, s: string)
    requires Get(d, "ucie_interface") == Some(JStr(s))
    ensures FixUcie(d).Some?
    ensures Get(FixUcie(d).value, "ucie_interface") == Some(JObj([("mode", JStr(UcieWord(Lower(s))))]))
  {
    SetThenGet(d, "ucie_interface", JObj([("mode", JStr(UcieWord(Lower(s))))]));
  }

  /** A UCIe interface given as a string always normalizes to a valid
      interface. */
  lemma UcieStringValid(d: Fields, s: string)
    requires Get(d, "ucie_interface") == Some(JStr(s))
    ensures FixUcie(d).Some?
    ensures ValidUcie(Get(FixUcie(d).value, "ucie_interface").value)
  {
    UcieModeChoices(UcieWord(Lower(s)));
  }

  /** A mode that only lowercases to `host` (say `HOST`) is kept as
      written, and the UCIe record, which compares exactly, rejects it. */
  lemma UcieCaseVariantKept(d: Fields, u: Fields, m: string)
    requires Get(d, "ucie_interface") == Some(JObj(u)) && Get(u, "mode") == Some(JStr(m))
    requires Lower(m) == "host" && m != "host"
    ensures FixUcie(d) == Some(d)
    ensures !ValidUcie(JObj(u))
  {
    assert m != "endpoint" by {
      assert |Lower(m)| == |m|;
    }
    assert UcieModes[0].0 == "host" && UcieModes[1].0 == "endpoint";
  }

  /** Normalizing the UCIe interface twice is the same as once. */
  lemma FixUcieIdempotent(d: Fields)
    requires FixUcie(d).Some?
    ensures FixUcie(FixUcie(d).value) == FixUcie(d)
  {
    LowerModeWords();
    var r := FixUcie(d).value;
    match Get(d, "ucie_interface")
    case Some(JStr(s)) =>
      var v := JObj([("mode", JStr(UcieWord(Lower(s))))]);
      assert Get(r, "ucie_interface") == Some(v);
      assert FixUcie(r) == Some(r);
    case Some(JObj(u0)) =>
      var m := Lower(Get(u0, "mode").GetOr(JStr("")).s);
      if m == "device" {
        var v := JObj(Set(u0, "mode", JStr("endpoint")));
        assert Get(r, "ucie_interface") == Some(v);
        assert FixUcie(r) == Some(r);
      } else if m != "host" && m != "endpoint" {
        var v := JObj(Set(u0, "mode", JStr("host")));
        assert Get(r, "ucie_interface") == Some(v);
        assert FixUcie(r) == Some(r);
      }
    case _ =>
  }

  /** A chiplet whose `cpu_cluster` object names no operating system is
      still rejected after normalization: the normalizer fills the gap
      with `null`, which the CPU cluster record does not accept. */
  lemma NestedClusterWithoutOsRejected(d: Fields, cc: Fields)
    requires Get(d, "cpu_cluster") == Some(JObj(cc)) && !HasKey(cc, "operating_system")
    ensures NormalizeChiplet(d).Some? ==> !ValidChiplet(JObj(NormalizeChiplet(d).value))
  {
    if NormalizeChiplet(d).Some? {
      var r := NormalizeChiplet(d).value;
      var d1 := FixNestedCluster(FixShortName(RenameUcie(d)));
      assert Get(d1, "cpu_cluster") == Some(JObj(FixClusterFields(cc)));
      var d2 := FixAxiBus(d1).value;
      assert Get(d2, "cpu_cluster") == Get(d1, "cpu_cluster");
      assert Get(r, "cpu_cluster") == Get(d2, "cpu_cluster");
      ChipletClusterNeedsOs(r, FixClusterFields(cc));
    }
  }

  lemma NameRecordValid(s: string)
    ensures ValidIdentity(NameRecord(JStr(s)))
  {
  }

  lemma MHzValid(n: int)
    ensures ValidFrequency(MHz(JInt(n))) <==> 1000 <= n <= 1000000000
  {
  }

  /** A cluster whose frequency is written as digits followed by a unit
      ("2000 MHz") normalizes to a valid cluster exactly when the digits
      lie within the frequency bounds, which count in Hz. */
  lemma ClusterFromText(o: Fields, name: string, n: nat, rest: string)
    requires Get(o, "short_name") == Some(JStr(name))
    requires Get(o, "frequency") == Some(JStr(NatToString(n) + rest))
    requires |rest| == 0 || !IsDigit(rest[0])
    requires HasKey(o, "cores_per_cluster")
    ensures ValidCpuCluster(AnyCores, JObj(NormalizeCpuCluster(o))) <==> 1000 <= n <= 1000000000
  {
    FrequencyFromText(n, rest);
    var d1 := FixShortName(o);
    assert Get(d1, "short_name") == Some(NameRecord(JStr(name)));
    assert Get(d1, "frequency") == Get(o, "frequency");
    var r := NormalizeCpuCluster(o);
    assert Get(r, "frequency") == Some(MHz(JInt(n)));
    assert Get(r, "short_name") == Some(NameRecord(JStr(name)));
    assert Get(r, "cores_per_cluster") == Get(o, "cores_per_cluster");
    ClusterFieldsValid(r, name, n);
  }

  lemma ClusterFieldsValid(r: Fields, name: string, n: int)
    requires Get(r, "short_name") == Some(NameRecord(JStr(name)))
    requires Get(r, "frequency") == Some(MHz(JInt(n)))
    requires HasKey(r, "cores_per_cluster")
    ensures ValidCpuCluster(AnyCores, JObj(r)) <==> 1000 <= n <= 1000000000
  {
    NameRecordValid(name);
    MHzValid(n);
  }

  /** A cluster with no frequency is given 0 MHz, which no cluster record
      accepts. */
  lemma MissingFrequencyRejected(o: Fields, k: ClusterKind)
    requires Unset(o, "frequency")
    ensures Get(NormalizeCpuCluster(o), "frequency") == Some(MHz(JInt(0)))
    ensures !ValidCpuCluster(k, JObj(NormalizeCpuCluster(o)))
  {
    assert Get(FixShortName(o), "frequency") == Get(o, "frequency");
  }
}
