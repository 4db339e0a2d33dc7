/** The remaining AE record types the pipeline can validate against: the
    simulation-time window, references, HW/SW mappings, CPU cores, the
    uint8 data generators, the network topology, and the package tree
    (package, elements, ECUs, SoCs). Also the ordered list of every record
    type the schema module defines and the acceptance test by type name. */
module AePackage {
  import opened Options
  import opened JsonValue
  import opened Pydantic
  import opened AeSchema

  // ---------------------------------------------------------------------
  // Small records

  /** AeAnalyseSimtime: two optional strings. */
  predicate ValidAnalyseSimtime(j: Json) {
    j.JObj? && NullableStrField(j.fields, "start_time", false) && NullableStrField(j.fields, "end_time", false)
  }

  /** AeReference: a required `dest` path. */
  predicate ValidReference(j: Json) {
    j.JObj? && StrField(j.fields, "dest")
  }

  /** Any object accepts AeAnalyseSimtime unless it carries a non-string
      start or end time: it has no required field. */
  lemma AnalyseSimtimeAcceptsPlainObjects(o: Fields)
    requires !HasKey(o, "start_time") && !HasKey(o, "end_time")
    ensures ValidAnalyseSimtime(JObj(o))
  {
  }

  // ---------------------------------------------------------------------
  // AeHwSwMappingType

  const CoreIds: Bounds := Within(0, 7)
  const Priorities: Bounds := Within(1, 99)

  predicate ValidClusterPrebuilt(j: Json) {
    j.JObj? && StrField(j.fields, "prebuilt_application_ref")
  }

  predicate ValidCorePrebuilt(j: Json) {
    && j.JObj?
    && IntField(j.fields, "core_id", None, CoreIds)
    && StrField(j.fields, "prebuilt_application_ref")
  }

  predicate ValidCoreRunnable(j: Json) {
    && j.JObj?
    && IntField(j.fields, "core_id", None, CoreIds)
    && StrField(j.fields, "runnable_ref")
    && IntField(j.fields, "load", None, Unbounded)
    && IntField(j.fields, "priority", None, Priorities)
  }

  predicate ValidHwSwMapping(j: Json) {
    && j.JObj?
    && ListOf(j.fields, "cluster_prebuilt_application_mapping", ValidClusterPrebuilt, 0, None)
    && ListOf(j.fields, "core_prebuilt_application_mapping", ValidCorePrebuilt, 0, None)
    && ListOf(j.fields, "core_runnable_mapping", ValidCoreRunnable, 0, None)
    && StrField(j.fields, "cluster_ref")
  }

  /** A core-runnable mapping accepts core ids 0..7 and priorities 1..99
      and nothing outside them. */
  lemma CoreRunnableBounds(o: Fields, coreId: int, ref: string, load: int, priority: int)
    requires Get(o, "core_id") == Some(JInt(coreId))
    requires Get(o, "runnable_ref") == Some(JStr(ref))
    requires Get(o, "load") == Some(JInt(load))
    requires Get(o, "priority") == Some(JInt(priority))
    ensures ValidCoreRunnable(JObj(o)) <==> 0 <= coreId <= 7 && 1 <= priority <= 99
  {
  }

  /** A core-prebuilt mapping accepts core ids 0..7 and nothing outside. */
  lemma CorePrebuiltBounds(o: Fields, coreId: int, ref: string)
    requires Get(o, "core_id") == Some(JInt(coreId))
    requires Get(o, "prebuilt_application_ref") == Some(JStr(ref))
    ensures ValidCorePrebuilt(JObj(o)) <==> 0 <= coreId <= 7
  {
  }

  // ---------------------------------------------------------------------
  // AeCpuCore: at least one core-runnable mapping

  predicate ValidCoreTask(j: Json) {
    && j.JObj?
    && StrField(j.fields, "dest")
    && IntField(j.fields, "load", None, Unbounded)
    && IntField(j.fields, "priority", None, Unbounded)
  }

  predicate ValidCpuCore(j: Json) {
    && j.JObj?
    && Required(j.fields, "short_name", ValidIdentity)
    && ListOf(j.fields, "core_runnable_mapping", ValidCoreTask, 1, None)
  }

  /** The mapping list defaults to empty, which its minimum of one rejects. */
  lemma CpuCoreNeedsMapping(name: Json)
    ensures !ValidCpuCore(JObj([("short_name", name)]))
  {
  }

  // ---------------------------------------------------------------------
  // The uint8 array generator of a sender-receiver data element

  const Uint8: Bounds := Within(0, 255)

  predicate ValidDataRange(j: Json) {
    j.JObj? && IntField(j.fields, "min", None, Uint8) && IntField(j.fields, "max", None, Uint8)
  }

  predicate ValidRandomValues(j: Json) {
    j.JObj? && Optional(j.fields, "data_range", ValidDataRange)
  }

  predicate ValidFixedValues(j: Json) {
    j.JObj? && IntField(j.fields, "default_value", None, Uint8)
  }

  predicate ValidArrayOfUint8(j: Json) {
    && j.JObj?
    && Optional(j.fields, "random_values_generated", ValidRandomValues)
    && Optional(j.fields, "fixed_values_generated", ValidFixedValues)
    && IntField(j.fields, "no_of_bytes", None, Within(1, 130023424))
  }

  /** Range ends and the fixed value are each a byte; nothing relates the
      two ends of a range. */
  lemma DataRangeBounds(o: Fields, lo: int, hi: int)
    requires Get(o, "min") == Some(JInt(lo)) && Get(o, "max") == Some(JInt(hi))
    ensures ValidDataRange(JObj(o)) <==> 0 <= lo <= 255 && 0 <= hi <= 255
  {
  }

  lemma FixedValueBounds(o: Fields, d: int)
    requires Get(o, "default_value") == Some(JInt(d))
    ensures ValidFixedValues(JObj(o)) <==> 0 <= d <= 255
  {
  }

  // ---------------------------------------------------------------------
  // AeNetworkTopologyType

  predicate ValidCanBus(j: Json) {
    && j.JObj?
    && Required(j.fields, "short_name", ValidIdentity)
    && Required(j.fields, "baud_rate", x => ValueRecord(x, Some(500000), Unbounded))
    && ListOf(j.fields, "interface_tref", ValidReference, 1, None)
    && BoolField(j.fields, "can_fd")
  }

  predicate ValidEthSwitch(j: Json) {
    && j.JObj?
    && Required(j.fields, "short_name", ValidIdentity)
    && ListOf(j.fields, "interface_tref", ValidReference, 1, None)
  }

  predicate ValidInterEcu(j: Json) {
    && j.JObj?
    && ListOf(j.fields, "can_bus", ValidCanBus, 0, Some(8))
    && ListOf(j.fields, "eth_switch", ValidEthSwitch, 0, Some(8))
  }

  predicate ValidNetworkTopology(j: Json) {
    j.JObj? && Optional(j.fields, "inter_ecu_communication", ValidInterEcu)
  }

  /** At most eight CAN buses, each valid, are accepted. */
  lemma CanBusCardinality(buses: seq<Json>)
    requires forall i | 0 <= i < |buses| :: ValidCanBus(buses[i])
    ensures ValidInterEcu(JObj([("can_bus", JArr(buses))])) <==> |buses| <= 8
  {
  }

  /** At most eight Ethernet switches, each valid, are accepted. */
  lemma EthSwitchCardinality(switches: seq<Json>)
    requires forall i | 0 <= i < |switches| :: ValidEthSwitch(switches[i])
    ensures ValidInterEcu(JObj([("eth_switch", JArr(switches))])) <==> |switches| <= 8
  {
  }

  // ---------------------------------------------------------------------
  // ArPackage and its nested records

  predicate ValidSimulationTime(j: Json) {
    j.JObj? && IntField(j.fields, "value", None, Unbounded) && ChoiceField(j.fields, "unit", TimeUnits, false)
  }

  /** ArPackage.Elements.Ecus.SoCs */
  predicate ValidSoc(j: Json) {
    && j.JObj?
    && Required(j.fields, "short_name", ValidIdentity)
    && Required(j.fields, "axi_bus", ValidAxiBus)
    && Required(j.fields, "ethernet_interface", ValidEthernet)
    && Required(j.fields, "ucie_interface", ValidUcie)
    && ListOf(j.fields, "chiplet", ValidChiplet, 0, None)
    && Optional(j.fields, "cpu_cluster", ValidCpuArch)
    && ListOf(j.fields, "generic_hardware", ValidGenericHardware, 0, None)
  }

  /** ArPackage.Elements.Ecus */
  predicate ValidEcu(j: Json) {
    && j.JObj?
    && Required(j.fields, "short_name", ValidIdentity)
    && ListOf(j.fields, "so_cs", ValidSoc, 1, Some(100))
  }

  /** ArPackage.Elements; the interface, software-component, custom
      behavior, prebuilt application and analysis parts are only required
      to be objects. */
  predicate ValidElements(j: Json) {
    && j.JObj?
    && Optional(j.fields, "simulation_time", ValidSimulationTime)
    && ListOf(j.fields, "sender_receiver_interface", IsObject, 0, None)
    && ListOf(j.fields, "application_sw_component_type", IsObject, 0, None)
    && ListOf(j.fields, "swc_custom_behavior", IsObject, 0, None)
    && ListOf(j.fields, "pre_built_application", IsObject, 0, None)
    && Optional(j.fields, "network_topology", ValidNetworkTopology)
    && ListOf(j.fields, "ecus", ValidEcu, 1, Some(100))
    && ListOf(j.fields, "hw_sw_mapping", ValidHwSwMapping, 0, None)
    && Optional(j.fields, "analysis", IsObject)
  }

  predicate ValidArPackage(j: Json) {
    j.JObj? && ListOf(j.fields, "elements", ValidElements, 1, None)
  }

  /** Between one and one hundred ECUs, each valid, are accepted. */
  lemma EcuCardinality(ecus: seq<Json>)
    requires forall i | 0 <= i < |ecus| :: ValidEcu(ecus[i])
    ensures ValidElements(JObj([("ecus", JArr(ecus))])) <==> 1 <= |ecus| <= 100
  {
  }

  /** Between one and one hundred SoCs, each valid, are accepted per ECU. */
  lemma SocCardinality(name: string, socs: seq<Json>)
    requires forall i | 0 <= i < |socs| :: ValidSoc(socs[i])
    ensures ValidEcu(JObj([("short_name", JObj([("name", JStr(name))])), ("so_cs", JArr(socs))])) <==> 1 <= |socs| <= 100
  {
    var o := [("short_name", JObj([("name", JStr(name))])), ("so_cs", JArr(socs))];
    assert Get(o, "so_cs") == Some(JArr(socs)) by {
      assert o[1..][0] == ("so_cs", JArr(socs));
    }
  }

  /** A package with no `elements` key fails: the list defaults to empty. */
  lemma PackageNeedsElements()
    ensures !ValidArPackage(JObj([]))
  {
  }

  // ---------------------------------------------------------------------
  // Every record type of the schema module, by class name

  /** The top-level record classes of the schema module in the order a
      reflective listing returns them: sorted by name. */
  const RecordTypes: seq<string> := [
    "AeAnalyseSimtime", "AeAnalysisType", "AeAxiBusType", "AeChipletType",
    "AeCpuArchType", "AeCpuCluster", "AeCpuCore", "AeCpuFrequency",
    "AeD2DconfigType", "AeDataReceivedEventType", "AeDualCoreCluster",
    "AeEndpointDmaconfigType", "AeEthernetInterfaceType", "AeGenericHardwareType",
    "AeGenericHwdataReceivedEventType", "AeGenericHwfrequency",
    "AeGenericHwtimingEventType", "AeGenericHwtriggerEventType",
    "AeHexaCoreCluster", "AeHwSwMappingType", "AeIdentity", "AeInterfaceData",
    "AeInterfaceType", "AeNetworkTopologyType", "AeOctaCoreCluster",
    "AeOperationType", "AeOperationsSequenceType", "AeOsType",
    "AePowerParameterType", "AePreBuiltApplicationType", "AeQuadCoreCluster",
    "AeReference", "AeSingleCoreCluster", "AeSwcCustomBehaviorType", "AeSwcType",
    "AeTimeEventType", "AeUcieInterfaceType", "ArPackage"]

  /** The record types whose rules this model states. */
  predicate Modelled(name: string) {
    name in {
      "AeAnalyseSimtime", "AeAxiBusType", "AeChipletType", "AeCpuArchType",
      "AeCpuCluster", "AeCpuCore", "AeCpuFrequency", "AeD2DconfigType",
      "AeDualCoreCluster", "AeEndpointDmaconfigType", "AeEthernetInterfaceType",
      "AeGenericHardwareType", "AeGenericHwfrequency", "AeHexaCoreCluster",
      "AeHwSwMappingType", "AeIdentity", "AeNetworkTopologyType",
      "AeOctaCoreCluster", "AeOsType", "AeQuadCoreCluster", "AeReference",
      "AeSingleCoreCluster", "AeUcieInterfaceType", "ArPackage"}
  }

  /** `model(**data)` succeeds for the record type called `name`. The rules
      of record types this model does not state come from `unmodelled`. */
  function Accepts(name: string, j: Json, unmodelled: (string, Json) -> bool): (ok: bool)
    ensures ClusterOf(name).Some? ==> (ok <==> ValidCpuCluster(ClusterOf(name).value, j))
    ensures name == "AeAnalyseSimtime" ==> (ok <==> ValidAnalyseSimtime(j))
    ensures name == "AeChipletType" ==> (ok <==> ValidChiplet(j))
    ensures !Modelled(name) ==> (ok <==> unmodelled(name, j))
  {
    if !Modelled(name) then unmodelled(name, j)
    else if ClusterOf(name).Some? then ValidCpuCluster(ClusterOf(name).value, j)
    else if name == "AeAnalyseSimtime" then ValidAnalyseSimtime(j)
    else if name == "AeAxiBusType" then ValidAxiBus(j)
    else if name == "AeChipletType" then ValidChiplet(j)
    else if name == "AeCpuArchType" then ValidCpuArch(j)
    else if name == "AeCpuCore" then ValidCpuCore(j)
    else if name == "AeCpuFrequency" then ValidFrequency(j)
    else if name == "AeD2DconfigType" then ValidD2D(j)
    else if name == "AeEndpointDmaconfigType" then ValidEndpointDma(j)
    else if name == "AeEthernetInterfaceType" then ValidEthernet(j)
    else if name == "AeGenericHardwareType" then ValidGenericHardware(j)
    else if name == "AeGenericHwfrequency" then ValidFrequency(j)
    else if name == "AeHwSwMappingType" then ValidHwSwMapping(j)
    else if name == "AeIdentity" then ValidIdentity(j)
    else if name == "AeNetworkTopologyType" then ValidNetworkTopology(j)
    else if name == "AeOsType" then ValidOs(j)
    else if name == "AeReference" then ValidReference(j)
    else if name == "AeUcieInterfaceType" then ValidUcie(j)
    else if name == "ArPackage" then ValidArPackage(j)
    else unmodelled(name, j)
  }

  /** The record-type name of each cluster variant. */
  function ClusterName(k: ClusterKind): string {
    match k
    case AnyCores => "AeCpuCluster"
    case SingleCore => "AeSingleCoreCluster"
    case DualCore => "AeDualCoreCluster"
    case QuadCore => "AeQuadCoreCluster"
    case OctaCore => "AeOctaCoreCluster"
    case HexaCore => "AeHexaCoreCluster"
  }

  /** The cluster variant a record-type name stands for, if any. */
  function ClusterOf(name: string): (r: Option<ClusterKind>)
    ensures r.Some? ==> ClusterName(r.value) == name
  {
    if name == "AeCpuCluster" then Some(AnyCores)
    else if name == "AeSingleCoreCluster" then Some(SingleCore)
    else if name == "AeDualCoreCluster" then Some(DualCore)
    else if name == "AeQuadCoreCluster" then Some(QuadCore)
    else if name == "AeOctaCoreCluster" then Some(OctaCore)
    else if name == "AeHexaCoreCluster" then Some(HexaCore)
    else None
  }

  /** Every cluster variant's name leads back to the variant. */
  lemma ClusterNameRoundTrip(k: ClusterKind)
    ensures ClusterOf(ClusterName(k)) == Some(k)
  {
  }

  /** Each cluster record type accepts exactly the clusters of its variant. */
  lemma AcceptsCluster(k: ClusterKind, j: Json, unmodelled: (string, Json) -> bool)
    ensures Accepts(ClusterName(k), j, unmodelled) == ValidCpuCluster(k, j)
  {
    ClusterNameRoundTrip(k);
  }
}
