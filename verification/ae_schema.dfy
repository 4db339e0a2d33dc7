/** The configuration records of the AE schema that the pipeline builds
    and checks: identity, frequencies, AXI bus, ethernet and UCIe
    interfaces, CPU clusters and their core-count variants, operating
    system, CPU architecture families, generic hardware and chiplets.
    Each record type has a declarative `Valid...` predicate (which inputs
    the record type accepts) and a `Build...` function (the typed record
    it holds, defaults filled in), and the two agree on every input. */
module AeSchema {
  import opened Options
  import opened JsonValue
  import opened Pydantic

  // ---------------------------------------------------------------------
  // AeIdentity: a required `name` string

  predicate ValidIdentity(j: Json) {
    j.JObj? && StrField(j.fields, "name")
  }

  function BuildIdentity(j: Json): (r: Option<string>)
    ensures r.Some? <==> ValidIdentity(j)
    ensures r.Some? ==> Get(j.fields, "name") == Some(JStr(r.value))
  {
    if j.JObj? then ReadStr(j.fields, "name") else None
  }

  // ---------------------------------------------------------------------
  // Records holding one `int` field called `value`

  predicate ValueRecord(j: Json, dflt: Option<int>, b: Bounds) {
    j.JObj? && IntField(j.fields, "value", dflt, b)
  }

  function BuildValueRecord(j: Json, dflt: Option<int>, b: Bounds): (r: Option<int>)
    ensures r.Some? <==> ValueRecord(j, dflt, b)
    ensures r.Some? ==> HoldsInt(j.fields, "value", dflt, r.value)
    ensures r.Some? && (dflt.Some? ==> b.Admits(dflt.value)) ==> b.Admits(r.value)
  {
    if j.JObj? then ReadInt(j.fields, "value", dflt, b) else None
  }

  /** AeCpuFrequency and AeGenericHWFrequency: a required value in Hz. */
  const FrequencyHz: Bounds := Within(1000, 1000000000)

  predicate ValidFrequency(j: Json) {
    ValueRecord(j, None, FrequencyHz)
  }

  function BuildFrequency(j: Json): (r: Option<int>)
    ensures r.Some? <==> ValidFrequency(j)
    ensures r.Some? ==> 1000 <= r.value <= 1000000000 && Get(j.fields, "value") == Some(JInt(r.value))
  {
    BuildValueRecord(j, None, FrequencyHz)
  }

  /** The frequency bounds are inclusive at both ends. */
  lemma FrequencyBoundaries()
    ensures ValidFrequency(JObj([("value", JInt(1000))]))
    ensures ValidFrequency(JObj([("value", JInt(1000000000))]))
    ensures !ValidFrequency(JObj([("value", JInt(999))]))
    ensures !ValidFrequency(JObj([("value", JInt(1000000001))]))
    ensures !ValidFrequency(JObj([]))
  {
  }

  // ---------------------------------------------------------------------
  // AeAxiBusType

  datatype AxiBus = AxiBus(width: int, frequency: int)

  const AxiWidthDefault := 4
  const AxiFrequencyDefault := 100000000

  predicate ValidAxiBus(j: Json) {
    && j.JObj?
    && IntField(j.fields, "width", Some(AxiWidthDefault), AtLeast(1))
    && IntField(j.fields, "frequency", Some(AxiFrequencyDefault), AtLeast(1000000))
  }

  function BuildAxiBus(j: Json): (r: Option<AxiBus>)
    ensures r.Some? <==> ValidAxiBus(j)
    ensures r.Some? ==> r.value.width >= 1 && r.value.frequency >= 1000000
    ensures r.Some? ==> HoldsInt(j.fields, "width", Some(AxiWidthDefault), r.value.width)
    ensures r.Some? ==> HoldsInt(j.fields, "frequency", Some(AxiFrequencyDefault), r.value.frequency)
  {
    if !j.JObj? then None
    else
      var w :- ReadInt(j.fields, "width", Some(AxiWidthDefault), AtLeast(1));
      var f :- ReadInt(j.fields, "frequency", Some(AxiFrequencyDefault), AtLeast(1000000));
      Some(AxiBus(w, f))
  }

  /** An AXI bus given no fields, or only keys it does not declare, holds
      the declared defaults. */
  lemma AxiBusDefaults(extra: Json)
    ensures BuildAxiBus(JObj([])) == Some(AxiBus(4, 100000000))
    ensures BuildAxiBus(JObj([("value", extra)])) == Some(AxiBus(4, 100000000))
  {
  }

  lemma AxiBusBounds(w: int, f: int)
    ensures ValidAxiBus(JObj([("width", JInt(w)), ("frequency", JInt(f))])) <==> w >= 1 && f >= 1000000
  {
    var o := [("width", JInt(w)), ("frequency", JInt(f))];
    assert Get(o, "frequency") == Some(JInt(f)) by {
      assert o[1..] == [("frequency", JInt(f))];
    }
  }

  // ---------------------------------------------------------------------
  // AeEthernetInterfaceType

  datatype EthMode = Simulated | Native

  const EthModes: seq<(string, EthMode)> := [("simulated", Simulated), ("native", Native)]

  function EthModeName(m: EthMode): string {
    match m
    case Simulated => "simulated"
    case Native => "native"
  }

  predicate ValidEthernet(j: Json) {
    j.JObj? && ChoiceField(j.fields, "mode", EthModes, true)
  }

  function BuildEthernet(j: Json): (r: Option<EthMode>)
    ensures r.Some? <==> ValidEthernet(j)
    ensures r.Some? && Get(j.fields, "mode").None? ==> r.value == Simulated
    ensures r.Some? && Get(j.fields, "mode").Some? ==> Get(j.fields, "mode") == Some(JStr(EthModeName(r.value)))
  {
    if j.JObj? then ReadChoice(j.fields, "mode", EthModes, Some(Simulated)) else None
  }

  lemma EthernetModes(s: string)
    ensures ValidEthernet(JObj([("mode", JStr(s))])) <==> s == "simulated" || s == "native"
    ensures BuildEthernet(JObj([])) == Some(Simulated)
  {
    assert EthModes[0].0 == "simulated" && EthModes[1].0 == "native";
  }

  // ---------------------------------------------------------------------
  // AeUcieInterfaceType and its parts

  datatype UcieMode = Host | Endpoint

  const UcieModes: seq<(string, UcieMode)> := [("host", Host), ("endpoint", Endpoint)]

  function UcieModeName(m: UcieMode): string {
    match m
    case Host => "host"
    case Endpoint => "endpoint"
  }

  datatype TimeUnit = Seconds | Millis | Micros | Nanos

  const TimeUnits: seq<(string, TimeUnit)> := [("s", Seconds), ("ms", Millis), ("us", Micros), ("ns", Nanos)]

  /** A latency or delay record: `value` with a default, `unit` defaulting to ns. */
  datatype Latency = Latency(value: int, unit: TimeUnit)

  predicate ValidLatency(dflt: int, j: Json) {
    && j.JObj?
    && IntField(j.fields, "value", Some(dflt), Unbounded)
    && ChoiceField(j.fields, "unit", TimeUnits, true)
  }

  function BuildLatency(dflt: int, j: Json): (r: Option<Latency>)
    ensures r.Some? <==> ValidLatency(dflt, j)
    ensures r.Some? ==> HoldsInt(j.fields, "value", Some(dflt), r.value.value)
    ensures r.Some? && Get(j.fields, "unit").None? ==> r.value.unit == Nanos
  {
    if !j.JObj? then None
    else
      var v :- ReadInt(j.fields, "value", Some(dflt), Unbounded);
      var u :- ReadChoice(j.fields, "unit", TimeUnits, Some(Nanos));
      Some(Latency(v, u))
  }

  /** AeD2DConfigType */
  datatype D2DConfig = D2DConfig(
    linkWidth: int,
    linkFrequency: int,
    protocolConvLatency: Latency,
    chipletLinkLatency: Latency,
    logicalIfDelay: Latency,
    physicalIfDelay: Latency,
    destChipletRef: string)

  predicate ValidD2D(j: Json) {
    && j.JObj?
    && Required(j.fields, "link_width", x => ValueRecord(x, Some(256), AtLeast(1)))
    && Required(j.fields, "link_frequency", x => ValueRecord(x, Some(250000000), AtLeast(1)))
    && Required(j.fields, "protocol_conv_latency", x => ValidLatency(6, x))
    && Required(j.fields, "chiplet_link_latency", x => ValidLatency(2, x))
    && Required(j.fields, "logical_if_delay", x => ValidLatency(6, x))
    && Required(j.fields, "physical_if_delay", x => ValidLatency(5, x))
    && StrField(j.fields, "dest_chiplet_ref")
  }

  function BuildD2D(j: Json): (r: Option<D2DConfig>)
    ensures r.Some? <==> ValidD2D(j)
    ensures r.Some? ==> r.value.linkWidth >= 1 && r.value.linkFrequency >= 1
    ensures r.Some? ==> Get(j.fields, "dest_chiplet_ref") == Some(JStr(r.value.destChipletRef))
  {
    if !j.JObj? then None
    else
      var o := j.fields;
      var w :- ReadRequired(o, "link_width", x => BuildValueRecord(x, Some(256), AtLeast(1)));
      var f :- ReadRequired(o, "link_frequency", x => BuildValueRecord(x, Some(250000000), AtLeast(1)));
      var lat :- ReadD2DLatencies(o);
      var dest :- ReadStr(o, "dest_chiplet_ref");
      Some(D2DConfig(w, f, lat.0, lat.1, lat.2, lat.3, dest))
  }

  /** The four latency records of a die-to-die link, each with its own
      default value. */
  function ReadD2DLatencies(o: Fields): (r: Option<(Latency, Latency, Latency, Latency)>)
    ensures r.Some? <==>
      && Required(o, "protocol_conv_latency", x => ValidLatency(6, x))
      && Required(o, "chiplet_link_latency", x => ValidLatency(2, x))
      && Required(o, "logical_if_delay", x => ValidLatency(6, x))
      && Required(o, "physical_if_delay", x => ValidLatency(5, x))
  {
    var pc :- ReadRequired(o, "protocol_conv_latency", x => BuildLatency(6, x));
    var cl :- ReadRequired(o, "chiplet_link_latency", x => BuildLatency(2, x));
    var li :- ReadRequired(o, "logical_if_delay", x => BuildLatency(6, x));
    var pi :- ReadRequired(o, "physical_if_delay", x => BuildLatency(5, x));
    Some((pc, cl, li, pi))
  }

  /** AeEndpointDMAConfigType: a required frequency of at least 1. */
  predicate ValidEndpointDma(j: Json) {
    j.JObj? && IntField(j.fields, "frequency", None, AtLeast(1))
  }

  function BuildEndpointDma(j: Json): (r: Option<int>)
    ensures r.Some? <==> ValidEndpointDma(j)
    ensures r.Some? ==> r.value >= 1 && Get(j.fields, "frequency") == Some(JInt(r.value))
  {
    if j.JObj? then ReadInt(j.fields, "frequency", None, AtLeast(1)) else None
  }

  datatype UcieInterface = UcieInterface(endpointDma: Option<int>, d2d: seq<D2DConfig>, mode: UcieMode)

  predicate ValidUcie(j: Json) {
    && j.JObj?
    && Optional(j.fields, "endpoint_dma_configuration", ValidEndpointDma)
    && ListOf(j.fields, "d2_d_configuration", ValidD2D, 0, Some(3))
    && ChoiceField(j.fields, "mode", UcieModes, false)
  }

  function BuildUcie(j: Json): (r: Option<UcieInterface>)
    ensures r.Some? <==> ValidUcie(j)
    ensures r.Some? ==> |r.value.d2d| <= 3
    ensures r.Some? ==> Get(j.fields, "mode") == Some(JStr(UcieModeName(r.value.mode)))
    ensures r.Some? ==> (r.value.endpointDma.None? <==> Unset(j.fields, "endpoint_dma_configuration"))
  {
    if !j.JObj? then None
    else
      var o := j.fields;
      ReadOptionalMatches(o, "endpoint_dma_configuration", BuildEndpointDma, ValidEndpointDma);
      var dma :- ReadOptional(o, "endpoint_dma_configuration", BuildEndpointDma);
      ReadListMatches(o, "d2_d_configuration", BuildD2D, ValidD2D, 0, Some(3));
      var d2d :- ReadList(o, "d2_d_configuration", BuildD2D, 0, Some(3));
      var m :- ReadChoice(o, "mode", UcieModes, None);
      UcieModeRead(o, m);
      Some(UcieInterface(dma, d2d, m))
  }

  /** A mode read from the table is held under its own name. */
  lemma UcieModeRead(o: Fields, m: UcieMode)
    requires ReadChoice(o, "mode", UcieModes, None) == Some(m)
    ensures Get(o, "mode") == Some(JStr(UcieModeName(m)))
  {
    var s :| Get(o, "mode") == Some(JStr(s)) && (s, m) in UcieModes;
  }

  /** The UCIe mode has no default and only two members. */
  lemma UcieModeChoices(s: string)
    ensures !ValidUcie(JObj([]))
    ensures ValidUcie(JObj([("mode", JStr(s))])) <==> s == "host" || s == "endpoint"
  {
    assert UcieModes[0].0 == "host" && UcieModes[1].0 == "endpoint";
  }

  // ---------------------------------------------------------------------
  // AeCpuCluster and its core-count variants

  /** The base cluster and the variants that narrow `cores_per_cluster`. */
  datatype ClusterKind = AnyCores | SingleCore | DualCore | QuadCore | OctaCore | HexaCore

  /** The members of a variant's core-count enumeration. */
  function CoreChoices(k: ClusterKind): seq<int> {
    match k
    case AnyCores => []
    case SingleCore => [1]
    case DualCore => [1, 2]
    case QuadCore => [1, 2, 4]
    case OctaCore => [1, 2, 4, 8]
    case HexaCore => [1, 2, 4, 8, 16]
  }

  /** The base class declares `cores_per_cluster: object`: any value. */
  predicate CoresOk(k: ClusterKind, v: Json) {
    k == AnyCores || (v.JInt? && v.i in CoreChoices(k))
  }

  datatype CpuCluster = CpuCluster(shortName: string, frequency: int, cores: Json)

  predicate ValidCpuCluster(k: ClusterKind, j: Json) {
    && j.JObj?
    && Required(j.fields, "short_name", ValidIdentity)
    && Required(j.fields, "frequency", ValidFrequency)
    && Required(j.fields, "cores_per_cluster", v => CoresOk(k, v))
  }

  function BuildCpuCluster(k: ClusterKind, j: Json): (r: Option<CpuCluster>)
    ensures r.Some? <==> ValidCpuCluster(k, j)
    ensures r.Some? ==> 1000 <= r.value.frequency <= 1000000000
    ensures r.Some? ==> Get(j.fields, "cores_per_cluster") == Some(r.value.cores) && CoresOk(k, r.value.cores)
  {
    if !j.JObj? then None
    else
      var o := j.fields;
      var name :- ReadRequired(o, "short_name", BuildIdentity);
      var freq :- ReadRequired(o, "frequency", BuildFrequency);
      var cores :- Get(o, "cores_per_cluster");
      if CoresOk(k, cores) then Some(CpuCluster(name, freq, cores)) else None
  }

  /** Each variant accepts exactly its enumerated core counts. */
  lemma CoreChoicesExact(n: int)
    ensures CoresOk(SingleCore, JInt(n)) <==> n == 1
    ensures CoresOk(DualCore, JInt(n)) <==> n == 1 || n == 2
    ensures CoresOk(QuadCore, JInt(n)) <==> n == 1 || n == 2 || n == 4
    ensures CoresOk(OctaCore, JInt(n)) <==> n == 1 || n == 2 || n == 4 || n == 8
    ensures CoresOk(HexaCore, JInt(n)) <==> n == 1 || n == 2 || n == 4 || n == 8 || n == 16
    ensures CoresOk(AnyCores, JInt(n))
  {
  }

  /** Position in the chain Single ⊂ Dual ⊂ Quad ⊂ Octa ⊂ Hexa ⊂ base. */
  function Rank(k: ClusterKind): nat {
    match k
    case SingleCore => 0
    case DualCore => 1
    case QuadCore => 2
    case OctaCore => 3
    case HexaCore => 4
    case AnyCores => 5
  }

  /** The core-count sets are nested: a narrower variant's accepted inputs
      are accepted by every wider one, and each step admits a new count. */
  lemma ClusterKindsNested(k1: ClusterKind, k2: ClusterKind, j: Json)
    requires Rank(k1) <= Rank(k2)
    ensures ValidCpuCluster(k1, j) ==> ValidCpuCluster(k2, j)
    ensures Rank(k1) < Rank(k2) ==> exists n :: CoresOk(k2, JInt(n)) && !CoresOk(k1, JInt(n))
  {
    if Rank(k1) < Rank(k2) {
      var n := match k1
        case SingleCore => 2
        case DualCore => 4
        case QuadCore => 8
        case OctaCore => 16
        case _ => 3;
      assert CoresOk(k2, JInt(n)) && !CoresOk(k1, JInt(n));
    }
  }

  // ---------------------------------------------------------------------
  // AeOsType

  datatype NucleusRtos = NucleusRtos(affineTasksByOs: bool, showUartTerminal: bool)

  datatype Linux = Linux(
    buildrootFileSystem: Option<string>,
    ubuntuFileSystem: Option<string>,
    affineTasksByOs: bool,
    showUartTerminal: bool)

  datatype OsType = OsType(nucleusRtos: Option<NucleusRtos>, linux: Option<Linux>)

  predicate ValidNucleus(j: Json) {
    j.JObj? && BoolField(j.fields, "affine_tasks_by_os") && BoolField(j.fields, "show_uart_terminal")
  }

  function BuildNucleus(j: Json): (r: Option<NucleusRtos>)
    ensures r.Some? <==> ValidNucleus(j)
    ensures r.Some? && Get(j.fields, "affine_tasks_by_os").None? ==> !r.value.affineTasksByOs
    ensures r.Some? && Get(j.fields, "show_uart_terminal").None? ==> !r.value.showUartTerminal
  {
    if !j.JObj? then None
    else
      var a :- ReadBool(j.fields, "affine_tasks_by_os", false);
      var u :- ReadBool(j.fields, "show_uart_terminal", false);
      Some(NucleusRtos(a, u))
  }

  predicate ValidLinux(j: Json) {
    && j.JObj?
    && NullableStrField(j.fields, "buildroot_file_system", false)
    && NullableStrField(j.fields, "ubuntu_file_system", false)
    && BoolField(j.fields, "affine_tasks_by_os")
    && BoolField(j.fields, "show_uart_terminal")
  }

  function BuildLinux(j: Json): (r: Option<Linux>)
    ensures r.Some? <==> ValidLinux(j)
    ensures r.Some? ==> (r.value.buildrootFileSystem.None? <==> Unset(j.fields, "buildroot_file_system"))
    ensures r.Some? ==> (r.value.ubuntuFileSystem.None? <==> Unset(j.fields, "ubuntu_file_system"))
  {
    if !j.JObj? then None
    else
      var o := j.fields;
      var b :- ReadNullableStr(o, "buildroot_file_system", false);
      var u :- ReadNullableStr(o, "ubuntu_file_system", false);
      var a :- ReadBool(o, "affine_tasks_by_os", false);
      var t :- ReadBool(o, "show_uart_terminal", false);
      Some(Linux(b, u, a, t))
  }

  predicate ValidOs(j: Json) {
    j.JObj? && Optional(j.fields, "nucleus_rtos", ValidNucleus) && Optional(j.fields, "linux", ValidLinux)
  }

  function BuildOs(j: Json): (r: Option<OsType>)
    ensures r.Some? <==> ValidOs(j)
    ensures r.Some? ==> (r.value.nucleusRtos.None? <==> Unset(j.fields, "nucleus_rtos"))
    ensures r.Some? ==> (r.value.linux.None? <==> Unset(j.fields, "linux"))
  {
    if !j.JObj? then None
    else
      var n :- ReadOptional(j.fields, "nucleus_rtos", BuildNucleus);
      var l :- ReadOptional(j.fields, "linux", BuildLinux);
      Some(OsType(n, l))
  }

  // ---------------------------------------------------------------------
  // AeCpuArchType

  datatype Armv9Family = Armv9Family(a510: Option<CpuCluster>, a710: Option<CpuCluster>, a720: Option<CpuCluster>)

  datatype Armv8Family = Armv8Family(
    a53: Option<CpuCluster>,
    a57: Option<CpuCluster>,
    a72: Option<CpuCluster>,
    r52: Option<CpuCluster>)

  datatype Armv7Family = Armv7Family(m7: CpuCluster)

  datatype CpuArch = CpuArch(
    operatingSystem: OsType,
    armv9: Option<Armv9Family>,
    armv8: Option<Armv8Family>,
    armv7: Option<Armv7Family>)

  predicate ValidArmv9(j: Json) {
    && j.JObj?
    && Optional(j.fields, "afm_cortex_a510", x => ValidCpuCluster(OctaCore, x))
    && Optional(j.fields, "afm_cortex_a710", x => ValidCpuCluster(OctaCore, x))
    && Optional(j.fields, "afm_cortex_a720", x => ValidCpuCluster(OctaCore, x))
  }

  function BuildArmv9(j: Json): (r: Option<Armv9Family>)
    ensures r.Some? <==> ValidArmv9(j)
  {
    if !j.JObj? then None
    else
      var o := j.fields;
      var a :- ReadOptional(o, "afm_cortex_a510", x => BuildCpuCluster(OctaCore, x));
      var b :- ReadOptional(o, "afm_cortex_a710", x => BuildCpuCluster(OctaCore, x));
      var c :- ReadOptional(o, "afm_cortex_a720", x => BuildCpuCluster(OctaCore, x));
      Some(Armv9Family(a, b, c))
  }

  predicate ValidArmv8(j: Json) {
    && j.JObj?
    && Optional(j.fields, "cortex_a53", x => ValidCpuCluster(OctaCore, x))
    && Optional(j.fields, "cortex_a57", x => ValidCpuCluster(OctaCore, x))
    && Optional(j.fields, "cortex_a72", x => ValidCpuCluster(OctaCore, x))
    && Optional(j.fields, "cortex_r52", x => ValidCpuCluster(QuadCore, x))
  }

  function BuildArmv8(j: Json): (r: Option<Armv8Family>)
    ensures r.Some? <==> ValidArmv8(j)
    ensures r.Some? && r.value.r52.Some? ==> r.value.r52.value.cores in [JInt(1), JInt(2), JInt(4)]
  {
    if !j.JObj? then None
    else
      var o := j.fields;
      var a :- ReadOptional(o, "cortex_a53", x => BuildCpuCluster(OctaCore, x));
      var b :- ReadOptional(o, "cortex_a57", x => BuildCpuCluster(OctaCore, x));
      var c :- ReadOptional(o, "cortex_a72", x => BuildCpuCluster(OctaCore, x));
      var d :- ReadOptional(o, "cortex_r52", x => BuildCpuCluster(QuadCore, x));
      Some(Armv8Family(a, b, c, d))
  }

  predicate ValidArmv7(j: Json) {
    j.JObj? && Required(j.fields, "cortex_m7", x => ValidCpuCluster(SingleCore, x))
  }

  function BuildArmv7(j: Json): (r: Option<Armv7Family>)
    ensures r.Some? <==> ValidArmv7(j)
    ensures r.Some? ==> r.value.m7.cores == JInt(1)
  {
    if !j.JObj? then None
    else
      var m :- ReadRequired(j.fields, "cortex_m7", x => BuildCpuCluster(SingleCore, x));
      Some(Armv7Family(m))
  }

  predicate ValidCpuArch(j: Json) {
    && j.JObj?
    && Required(j.fields, "operating_system", ValidOs)
    && Optional(j.fields, "armv9_family", ValidArmv9)
    && Optional(j.fields, "armv8_family", ValidArmv8)
    && Optional(j.fields, "armv7_family", ValidArmv7)
  }

  function BuildCpuArch(j: Json): (r: Option<CpuArch>)
    ensures r.Some? <==> ValidCpuArch(j)
    ensures r.Some? ==> (r.value.armv7.None? <==> Unset(j.fields, "armv7_family"))
  {
    if !j.JObj? then None
    else
      var o := j.fields;
      var os :- ReadRequired(o, "operating_system", BuildOs);
      var v9 :- ReadOptional(o, "armv9_family", BuildArmv9);
      var v8 :- ReadOptional(o, "armv8_family", BuildArmv8);
      var v7 :- ReadOptional(o, "armv7_family", BuildArmv7);
      Some(CpuArch(os, v9, v8, v7))
  }

  /** The operating system is required and not nullable: a CPU
      architecture whose `operating_system` is missing or `null` fails. */
  lemma CpuArchNeedsOs(o: Fields)
    requires Unset(o, "operating_system")
    ensures !ValidCpuArch(JObj(o))
    ensures BuildCpuArch(JObj(o)).None?
  {
  }

  // ---------------------------------------------------------------------
  // AeGenericHardwareType

  /** `internal_behavior` and `power_parameters` are kept as raw objects. */
  datatype GenericHardware = GenericHardware(
    shortName: string,
    frequency: int,
    axiMasterPriority: int,
    internalMemory: bool,
    internalBehavior: Json,
    powerParameters: Option<Json>)

  predicate IsObject(j: Json) {
    j.JObj?
  }

  function AsObject(j: Json): (r: Option<Json>)
    ensures r.Some? <==> IsObject(j)
    ensures r.Some? ==> r.value == j
  {
    if j.JObj? then Some(j) else None
  }

  predicate ValidAxiMasterPort(j: Json) {
    j.JObj? && IntField(j.fields, "priority", None, Unbounded)
  }

  function BuildAxiMasterPort(j: Json): (r: Option<int>)
    ensures r.Some? <==> ValidAxiMasterPort(j)
    ensures r.Some? ==> Get(j.fields, "priority") == Some(JInt(r.value))
  {
    if j.JObj? then ReadInt(j.fields, "priority", None, Unbounded) else None
  }

  predicate ValidMemoryInterface(j: Json) {
    j.JObj? && BoolField(j.fields, "internal_memory")
  }

  function BuildMemoryInterface(j: Json): (r: Option<bool>)
    ensures r.Some? <==> ValidMemoryInterface(j)
    ensures r.Some? && Get(j.fields, "internal_memory").None? ==> !r.value
  {
    if j.JObj? then ReadBool(j.fields, "internal_memory", false) else None
  }

  predicate ValidGenericHardware(j: Json) {
    && j.JObj?
    && Required(j.fields, "short_name", ValidIdentity)
    && Required(j.fields, "frequency", ValidFrequency)
    && Required(j.fields, "axi_master_port", ValidAxiMasterPort)
    && Required(j.fields, "memory_interface", ValidMemoryInterface)
    && Required(j.fields, "internal_behavior", IsObject)
    && Optional(j.fields, "power_parameters", IsObject)
  }

  function BuildGenericHardware(j: Json): (r: Option<GenericHardware>)
    ensures r.Some? <==> ValidGenericHardware(j)
    ensures r.Some? ==> 1000 <= r.value.frequency <= 1000000000
  {
    if !j.JObj? then None
    else
      var o := j.fields;
      var name :- ReadRequired(o, "short_name", BuildIdentity);
      var freq :- ReadRequired(o, "frequency", BuildFrequency);
      var prio :- ReadRequired(o, "axi_master_port", BuildAxiMasterPort);
      var mem :- ReadRequired(o, "memory_interface", BuildMemoryInterface);
      var beh :- ReadRequired(o, "internal_behavior", AsObject);
      var pow :- ReadOptional(o, "power_parameters", AsObject);
      Some(GenericHardware(name, freq, prio, mem, beh, pow))
  }

  // ---------------------------------------------------------------------
  // AeChipletType

  datatype Chiplet = Chiplet(
    shortName: string,
    axiBus: AxiBus,
    ethernet: EthMode,
    ucie: UcieInterface,
    cpuCluster: Option<CpuArch>,
    genericHardware: seq<GenericHardware>)

  predicate ValidChiplet(j: Json) {
    && j.JObj?
    && Required(j.fields, "short_name", ValidIdentity)
    && Required(j.fields, "axi_bus", ValidAxiBus)
    && Required(j.fields, "ethernet_interface", ValidEthernet)
    && Required(j.fields, "ucie_interface", ValidUcie)
    && Optional(j.fields, "cpu_cluster", ValidCpuArch)
    && ListOf(j.fields, "generic_hardware", ValidGenericHardware, 0, None)
  }

  function BuildChiplet(j: Json): (r: Option<Chiplet>)
    ensures r.Some? <==> ValidChiplet(j)
    ensures r.Some? && Get(j.fields, "generic_hardware").None? ==> r.value.genericHardware == []
    ensures r.Some? ==> (r.value.cpuCluster.None? <==> Unset(j.fields, "cpu_cluster"))
  {
    if !j.JObj? then None
    else
      var o := j.fields;
      ReadRequiredMatches(o, "short_name", BuildIdentity, ValidIdentity);
      ReadRequiredMatches(o, "axi_bus", BuildAxiBus, ValidAxiBus);
      ReadRequiredMatches(o, "ethernet_interface", BuildEthernet, ValidEthernet);
      ReadRequiredMatches(o, "ucie_interface", BuildUcie, ValidUcie);
      ReadOptionalMatches(o, "cpu_cluster", BuildCpuArch, ValidCpuArch);
      var name :- ReadRequired(o, "short_name", BuildIdentity);
      var axi :- ReadRequired(o, "axi_bus", BuildAxiBus);
      var eth :- ReadRequired(o, "ethernet_interface", BuildEthernet);
      var ucie :- ReadRequired(o, "ucie_interface", BuildUcie);
      var cpu :- ReadOptional(o, "cpu_cluster", BuildCpuArch);
      ReadListMatches(o, "generic_hardware", BuildGenericHardware, ValidGenericHardware, 0, None);
      var hw :- ReadList(o, "generic_hardware", BuildGenericHardware, 0, None);
      Some(Chiplet(name, axi, eth, ucie, cpu, hw))
  }

  /** A chiplet whose `cpu_cluster` object lacks an operating system (or
      holds `null` there) is not a valid chiplet. */
  lemma ChipletClusterNeedsOs(o: Fields, c: Fields)
    requires Get(o, "cpu_cluster") == Some(JObj(c))
    requires Unset(c, "operating_system")
    ensures !ValidChiplet(JObj(o))
  {
    CpuArchNeedsOs(c);
  }
}
