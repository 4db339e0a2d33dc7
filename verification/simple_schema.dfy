/** The smaller system model used by the first assistant: AXI bus, CPU
    cluster, SoC, ECU and the system root. Fields typed `Optional[X]` hold
    `None` when given `null`; `Optional[X]` fields without a default must
    still be present. */
module SimpleSchema {
  import opened Options
  import opened JsonValue
  import opened Pydantic

  datatype AxiBus = AxiBus(width: Option<int>, frequency: Option<int>)

  datatype CpuCluster = CpuCluster(
    archFamily: Option<string>,
    clusterName: Option<string>,
    coresPerCluster: Option<int>,
    coreFrequencyMhz: Option<int>)

  datatype Soc = Soc(shortName: string, axiBus: Option<AxiBus>, cpuClusters: seq<CpuCluster>)

  datatype Ecu = Ecu(shortName: string, socs: seq<Soc>)

  datatype SystemModel = SystemModel(ecus: seq<Ecu>)

  // ---------------------------------------------------------------------
  // AxiBus: width defaults to 4, frequency to 1 MHz and must be >= 1 MHz

  predicate ValidAxiBus(j: Json) {
    && j.JObj?
    && NullableIntField(j.fields, "width", false, Unbounded)
    && NullableIntField(j.fields, "frequency", false, AtLeast(1000000))
  }

  function BuildAxiBus(j: Json): (r: Option<AxiBus>)
    ensures r.Some? <==> ValidAxiBus(j)
    ensures r.Some? && !HasKey(j.fields, "width") ==> r.value.width == Some(4)
    ensures r.Some? && !HasKey(j.fields, "frequency") ==> r.value.frequency == Some(1000000)
    ensures r.Some? && r.value.frequency.Some? ==> r.value.frequency.value >= 1000000
  {
    if !j.JObj? then None
    else
      var w :- ReadNullableInt(j.fields, "width", false, Some(4), Unbounded);
      var f :- ReadNullableInt(j.fields, "frequency", false, Some(1000000), AtLeast(1000000));
      Some(AxiBus(w, f))
  }

  // ---------------------------------------------------------------------
  // CPUCluster: `cluster_name` must be present (it may be null); the two
  // counts are >= 1 when given

  predicate ValidCpuCluster(j: Json) {
    && j.JObj?
    && NullableStrField(j.fields, "arch_family", false)
    && NullableStrField(j.fields, "cluster_name", true)
    && NullableIntField(j.fields, "cores_per_cluster", false, AtLeast(1))
    && NullableIntField(j.fields, "core_frequency_mhz", false, AtLeast(1))
  }

  function BuildCpuCluster(j: Json): (r: Option<CpuCluster>)
    ensures r.Some? <==> ValidCpuCluster(j)
    ensures r.Some? ==> HasKey(j.fields, "cluster_name")
    ensures r.Some? && r.value.coresPerCluster.Some? ==> r.value.coresPerCluster.value >= 1
    ensures r.Some? && r.value.coreFrequencyMhz.Some? ==> r.value.coreFrequencyMhz.value >= 1
    ensures r.Some? && !HasKey(j.fields, "cores_per_cluster") ==> r.value.coresPerCluster.None?
    ensures r.Some? && !HasKey(j.fields, "core_frequency_mhz") ==> r.value.coreFrequencyMhz.None?
  {
    if !j.JObj? then None
    else
      var o := j.fields;
      var arch :- ReadNullableStr(o, "arch_family", false);
      var name :- ReadNullableStr(o, "cluster_name", true);
      var cores :- ReadNullableInt(o, "cores_per_cluster", false, None, AtLeast(1));
      var freq :- ReadNullableInt(o, "core_frequency_mhz", false, None, AtLeast(1));
      Some(CpuCluster(arch, name, cores, freq))
  }

  // ---------------------------------------------------------------------
  // SoC, ECU and the system root

  predicate ValidSoc(j: Json) {
    && j.JObj?
    && StrField(j.fields, "short_name")
    && Get(j.fields, "axi_bus").Some?
    && (Get(j.fields, "axi_bus") == Some(JNull) || ValidAxiBus(Get(j.fields, "axi_bus").value))
    && ListOf(j.fields, "cpu_clusters", ValidCpuCluster, 0, None)
  }

  function BuildSoc(j: Json): (r: Option<Soc>)
    ensures r.Some? <==> ValidSoc(j)
    ensures r.Some? ==> Get(j.fields, "short_name") == Some(JStr(r.value.shortName))
    ensures r.Some? && !HasKey(j.fields, "cpu_clusters") ==> r.value.cpuClusters == []
  {
    if !j.JObj? then None
    else
      var o := j.fields;
      var name :- ReadStr(o, "short_name");
      var axiIn :- Get(o, "axi_bus");
      var axi :- if axiIn == JNull then Some(None) else
                   match BuildAxiBus(axiIn) case None => None case Some(a) => Some(Some(a));
      ReadListMatches(o, "cpu_clusters", BuildCpuCluster, ValidCpuCluster, 0, None);
      var clusters :- ReadList(o, "cpu_clusters", BuildCpuCluster, 0, None);
      Some(Soc(name, axi, clusters))
  }

  predicate ValidEcu(j: Json) {
    j.JObj? && StrField(j.fields, "short_name") && ListOf(j.fields, "socs", ValidSoc, 0, None)
  }

  function BuildEcu(j: Json): (r: Option<Ecu>)
    ensures r.Some? <==> ValidEcu(j)
    ensures r.Some? ==> Get(j.fields, "short_name") == Some(JStr(r.value.shortName))
    ensures r.Some? && !HasKey(j.fields, "socs") ==> r.value.socs == []
  {
    if !j.JObj? then None
    else
      var name :- ReadStr(j.fields, "short_name");
      ReadListMatches(j.fields, "socs", BuildSoc, ValidSoc, 0, None);
      var socs :- ReadList(j.fields, "socs", BuildSoc, 0, None);
      Some(Ecu(name, socs))
  }

  predicate ValidSystemModel(j: Json) {
    j.JObj? && ListOf(j.fields, "ecus", ValidEcu, 0, None)
  }

  function BuildSystemModel(j: Json): (r: Option<SystemModel>)
    ensures r.Some? <==> ValidSystemModel(j)
    ensures r.Some? ==> |r.value.ecus| == |Items(j.fields, "ecus").value|
  {
    if !j.JObj? then None
    else
      ReadListMatches(j.fields, "ecus", BuildEcu, ValidEcu, 0, None);
      var ecus :- ReadList(j.fields, "ecus", BuildEcu, 0, None);
      Some(SystemModel(ecus))
  }

  /** Defaults: an empty object is a valid (empty) system model and a
      valid AXI bus of width 4 at 1 MHz; a SoC must name its AXI bus, if
      only as `null`; a cluster must name `cluster_name`, if only as `null`. */
  lemma SimpleDefaults(name: string)
    ensures BuildSystemModel(JObj([])) == Some(SystemModel([]))
    ensures BuildAxiBus(JObj([])) == Some(AxiBus(Some(4), Some(1000000)))
    ensures !ValidSoc(JObj([("short_name", JStr(name))]))
    ensures BuildSoc(JObj([("short_name", JStr(name)), ("axi_bus", JNull)])) == Some(Soc(name, None, []))
    ensures !ValidCpuCluster(JObj([]))
    ensures BuildCpuCluster(JObj([("cluster_name", JNull)])) == Some(CpuCluster(None, None, None, None))
  {
    var o := [("short_name", JStr(name)), ("axi_bus", JNull)];
    assert Get(o, "axi_bus") == Some(JNull) by {
      assert o[1..][0] == ("axi_bus", JNull);
    }
  }

  /** The AXI frequency bound is inclusive at one million. */
  lemma SimpleAxiFrequencyBound(o: Fields, f: int)
    requires Get(o, "frequency") == Some(JInt(f)) && !HasKey(o, "width")
    ensures ValidAxiBus(JObj(o)) <==> f >= 1000000
  {
  }
}
