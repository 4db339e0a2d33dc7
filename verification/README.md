# AE_XMLvalidator assistant core in Dafny

This project models the parts of the two AE model assistants that decide
whether a language model's answer becomes a valid record of the AE
hardware/software schema. It does not model the language model, the vector
store or the console.

- **Schema-aware assistant** (`AE_Copilot_Schema_Aware`). It covers:
  - the keyword filter and context assembly of the retriever;
  - the schema flattening of the indexer;
  - the two tools and their registry;
  - JSON extraction from the answer;
  - candidate record-type selection, and first-match validation against
    the record types of the generated schema module.
- **Simple tool-calling assistant** (`Simple_Tool_Calling_AE_Copilot`). It
  covers extracting and auto-closing the JSON snippet, unwrapping it, and
  the field normalizers for CPU clusters and chiplets. It then checks the
  result against the CPU cluster or chiplet record.
- **Record validators.** The pydantic validators of the schema module are
  modelled for the records the assistants produce (identity, frequency, AXI
  bus, Ethernet, UCIe and D2D, CPU cluster variants, operating system, CPU
  architecture, generic hardware, chiplet). The package-level cardinalities
  and numeric bounds are modelled as well. The small `src/schemas.py`
  models are included too.

JSON values are the `Json` datatype. An object is a list of entries with
Python dict semantics:
- lookup finds the first entry with the key;
- assignment replaces the value in place or appends a new entry;
- removal drops the key.

A pydantic validator is a predicate (`ValidX`) together with a builder
(`BuildX`) that returns the typed record exactly when the predicate holds.
A step that raises in the source, and whose exception a blanket `except`
catches, returns `None`. `json.loads`, `json.dumps`, `str` and the vector
query are parameters of the functions that use them.

Where the code and its description differ, the model follows the code:
- `add_chiplet` writes the AXI width under the key `value`. The AXI record
  has no such field, so the width silently falls back to its default of 4
  (`Tools.AddChipletAxiIgnored`).
- The UCIe normalizer leaves a dict mode such as `"Host"` untouched, and
  the record then rejects it (`Normalize.UcieCaseVariantKept`).
- `parse_int` drops a minus sign (`Tools.ParseIntDropsSign`).
- When the context names no record type, the candidates fall back to the
  whole list of record types. Its first entry `AeAnalyseSimtime` accepts
  any object without timing keys, so under such a context every tool
  result is reported as `AeAnalyseSimtime`
  (`Orchestrator.ToolResultsFallBackToSimtime`). The contexts the scenario
  loop builds come from the retriever, whose header always names a record
  type (`Orchestrator.RetrievedContextNamesType`), so the loop itself never
  reaches this fallback.

## Model

| member | source | states |
|---|---|---|
| Text.Lower | AE_Copilot_Schema_Aware/orchestrator_eval_ollama.py:92 | lowercasing keeps the length and maps each character by itself (ASCII only) |
| Text.Count | Simple_Tool_Calling_AE_Copilot/orchestrator_eval_ollama.py:162-165 | the count is at most the length, and zero exactly when the character does not occur |
| Text.CountConcat | Simple_Tool_Calling_AE_Copilot/orchestrator_eval_ollama.py:162-167 | counting distributes over concatenation |
| Text.CountRepeat | Simple_Tool_Calling_AE_Copilot/orchestrator_eval_ollama.py:166-167 | a run of n copies of c holds n copies of c and none of any other character |
| Text.Find | AE_Copilot_Schema_Aware/orchestrator_eval_ollama.py:45 | `find` gives -1 exactly when the character is absent, else its first position |
| Text.RFind | AE_Copilot_Schema_Aware/orchestrator_eval_ollama.py:45 | `rfind` gives -1 exactly when the character is absent, else its last position |
| Text.Strip | Simple_Tool_Calling_AE_Copilot/orchestrator_eval_ollama.py:19 | the result occurs in the original and neither starts nor ends with whitespace |
| Text.StripTrims | Simple_Tool_Calling_AE_Copilot/orchestrator_eval_ollama.py:19 | the result is the slice of the original that starts after its leading whitespace, and everything outside that slice is whitespace |
| Text.StripUnpadded | Simple_Tool_Calling_AE_Copilot/orchestrator_eval_ollama.py:19 | stripping text with no surrounding whitespace returns it unchanged |
| Text.SearchInt | AE_Copilot_Schema_Aware/tools.py:9-11 | `re.search(r"\d+")` finds nothing exactly when no digit occurs, else reads the run of digits starting at the first digit |
| Text.SearchIntFinds | AE_Copilot_Schema_Aware/tools.py:9-11 | a number written after digit-free text and before a non-digit is read back exactly |
| Text.SearchIntReadsRun | AE_Copilot_Schema_Aware/tools.py:9-11 | any digit run after digit-free text and before a non-digit is read as its value, whatever its leading zeros |
| Text.LeadingZerosIgnored | AE_Copilot_Schema_Aware/tools.py:11 | `int` of a digit run ignores leading zeros |
| Text.MatchLeadingInt | Simple_Tool_Calling_AE_Copilot/orchestrator_eval_ollama.py:32-34 | the anchored match fails exactly when the text does not start with a digit, else reads the leading digits |
| Text.NatToStringRoundTrip | AE_Copilot_Schema_Aware/rag_indexer.py:25 | reading back the decimal text of a natural number gives that number |
| Text.Filter | AE_Copilot_Schema_Aware/orchestrator_eval_ollama.py:92 | an item occurs in the filtered list exactly when it occurs in the input and satisfies the test |
| Text.FilterCounts | AE_Copilot_Schema_Aware/orchestrator_eval_ollama.py:92 | every copy of an item that satisfies the test is kept, and no copy of one that fails it |
| Text.FilterIsSubsequence | AE_Copilot_Schema_Aware/orchestrator_eval_ollama.py:92 | filtering keeps the original order |
| Text.Take | AE_Copilot_Schema_Aware/rag_retriever.py:38 | slicing `[:n]` gives the first min(n, length) items |
| JsonValue.Get | Simple_Tool_Calling_AE_Copilot/orchestrator_eval_ollama.py:14 | a lookup fails exactly when no entry has the key, and otherwise returns a value stored under it |
| JsonValue.Set | Simple_Tool_Calling_AE_Copilot/orchestrator_eval_ollama.py:16 | after assignment the key holds the new value and every other key is unchanged; an existing key keeps its place and a new one is appended |
| JsonValue.Remove | Simple_Tool_Calling_AE_Copilot/orchestrator_eval_ollama.py:47 | after `pop` the key is absent and every other key is unchanged |
| JsonValue.SetThenGet | Simple_Tool_Calling_AE_Copilot/orchestrator_eval_ollama.py:16 | reading a key just assigned gives the assigned value |
| JsonValue.SetUnchanged | Simple_Tool_Calling_AE_Copilot/orchestrator_eval_ollama.py:16 | assigning a key the value it already holds changes nothing |
| Pydantic.ReadInt | AE_Copilot_Schema_Aware/ae_xsd_schema.py:34-47 | an int field is accepted exactly when it is absent with a default or present as an integer within its bounds; the read value is the stored or default one |
| Pydantic.ReadNullableInt | src/schemas.py:6-10 | an `Optional[int]` field is accepted exactly when it is null or within its bounds; absence gives the default |
| Pydantic.ReadStr | AE_Copilot_Schema_Aware/ae_xsd_schema.py:252-257 | a required str field is accepted exactly when it holds a string, which is returned |
| Pydantic.ReadNullableStr | AE_Copilot_Schema_Aware/ae_xsd_schema.py:9-22 | an optional str field reads as None exactly when it is absent or null |
| Pydantic.ReadBool | AE_Copilot_Schema_Aware/ae_xsd_schema.py:299-312 | a bool field is accepted exactly when it is absent or a boolean; absence gives the default |
| Pydantic.Lookup | AE_Copilot_Schema_Aware/ae_xsd_schema.py:86-88 | an enum lookup succeeds exactly when some member has that value |
| Pydantic.ReadChoice | AE_Copilot_Schema_Aware/ae_xsd_schema.py:940-946 | an enum field is accepted exactly when it names a member, or is absent and has a default |
| Pydantic.BuildAll | AE_Copilot_Schema_Aware/ae_xsd_schema.py:2153-2160 | a list builds exactly when every item builds, item by item |
| Pydantic.ReadListMatches | AE_Copilot_Schema_Aware/ae_xsd_schema.py:2153-2160 | building a list field agrees with its validity predicate, cardinality bounds included |
| Pydantic.ReadRequiredMatches | AE_Copilot_Schema_Aware/ae_xsd_schema.py:2497-2517 | building a required record field agrees with its validity predicate |
| Pydantic.ReadOptionalMatches | AE_Copilot_Schema_Aware/ae_xsd_schema.py:2518-2524 | building an optional record field agrees with its validity predicate, and reads None exactly when the field is unset |
| AeSchema.BuildIdentity | AE_Copilot_Schema_Aware/ae_xsd_schema.py:250-257 | an identity is valid exactly when it holds a string `name`, which is returned |
| AeSchema.BuildFrequency | AE_Copilot_Schema_Aware/ae_xsd_schema.py:50-63 | a CPU frequency is valid exactly when its value lies in [1000, 10^9] |
| AeSchema.FrequencyBoundaries | AE_Copilot_Schema_Aware/ae_xsd_schema.py:56-63 | the frequency bounds are inclusive at both ends and the value is required |
| AeSchema.BuildAxiBus | AE_Copilot_Schema_Aware/ae_xsd_schema.py:25-47 | an AXI bus is valid exactly when width >= 1 and frequency >= 10^6, with defaults 4 and 10^8 |
| AeSchema.AxiBusDefaults | AE_Copilot_Schema_Aware/ae_xsd_schema.py:34-47 | an empty bus, or one with only unknown keys, gets width 4 and frequency 10^8 |
| AeSchema.AxiBusBounds | AE_Copilot_Schema_Aware/ae_xsd_schema.py:34-47 | an explicit width and frequency are accepted exactly at width >= 1 and frequency >= 10^6 |
| AeSchema.BuildEthernet | AE_Copilot_Schema_Aware/ae_xsd_schema.py:932-946 | an Ethernet interface is valid exactly when its mode is absent (simulated) or names a member |
| AeSchema.EthernetModes | AE_Copilot_Schema_Aware/ae_xsd_schema.py:86-88 | the only Ethernet mode words are `simulated` and `native`, and absence means simulated |
| AeSchema.BuildLatency | AE_Copilot_Schema_Aware/ae_xsd_schema.py:800-874 | a latency is valid exactly when it matches its rule; its value is the stored or default one, in nanoseconds by default |
| AeSchema.BuildD2D | AE_Copilot_Schema_Aware/ae_xsd_schema.py:704-874 | a D2D configuration is valid exactly when its rules hold; link width and frequency are positive and the destination chiplet is named |
| AeSchema.ReadD2DLatencies | AE_Copilot_Schema_Aware/ae_xsd_schema.py:800-874 | the four latency records build exactly when each is present and valid under its own default |
| AeSchema.BuildEndpointDma | AE_Copilot_Schema_Aware/ae_xsd_schema.py:71-83 | an endpoint DMA configuration is valid exactly when its frequency is a positive integer |
| AeSchema.BuildUcie | AE_Copilot_Schema_Aware/ae_xsd_schema.py:2140-2167 | a UCIe interface is valid exactly when its required mode names a member and at most 3 D2D entries are valid |
| AeSchema.UcieModeChoices | AE_Copilot_Schema_Aware/ae_xsd_schema.py:426-428 | the only UCIe mode words are `host` and `endpoint`, and the mode is required |
| AeSchema.BuildCpuCluster | AE_Copilot_Schema_Aware/ae_xsd_schema.py:631-653 | a cluster variant is valid exactly when name, frequency and core count are valid; the core count is one the variant allows |
| AeSchema.CoreChoicesExact | AE_Copilot_Schema_Aware/ae_xsd_schema.py:1883-1947 | single, dual, quad, octa and hexa variants allow exactly the powers of two up to 1, 2, 4, 8 and 16 cores |
| AeSchema.ClusterKindsNested | AE_Copilot_Schema_Aware/ae_xsd_schema.py:1883-1947 | a larger variant accepts every cluster a smaller one accepts, and strictly more core counts |
| AeSchema.BuildNucleus | AE_Copilot_Schema_Aware/ae_xsd_schema.py:284-312 | Nucleus RTOS settings are valid exactly when their fields are; both flags default to false |
| AeSchema.BuildLinux | AE_Copilot_Schema_Aware/ae_xsd_schema.py:314-350 | Linux settings are valid exactly when their fields are; each file system reads as None exactly when unset |
| AeSchema.BuildOs | AE_Copilot_Schema_Aware/ae_xsd_schema.py:267-282 | an operating system is valid exactly when its parts are; each part reads as None exactly when unset |
| AeSchema.BuildArmv9 | AE_Copilot_Schema_Aware/ae_xsd_schema.py:2201-2224 | the Armv9 family is valid exactly when its octa-core clusters are |
| AeSchema.BuildArmv8 | AE_Copilot_Schema_Aware/ae_xsd_schema.py:2225-2255 | the Armv8 family is valid exactly when its clusters are; an R52 cluster has 1, 2 or 4 cores |
| AeSchema.BuildArmv7 | AE_Copilot_Schema_Aware/ae_xsd_schema.py:2256-2264 | the Armv7 family is valid exactly when its single-core M7 cluster is |
| AeSchema.BuildCpuArch | AE_Copilot_Schema_Aware/ae_xsd_schema.py:2170-2199 | a CPU architecture is valid exactly when its required OS and optional families are |
| AeSchema.CpuArchNeedsOs | AE_Copilot_Schema_Aware/ae_xsd_schema.py:2172-2178 | a CPU architecture without an operating system is rejected |
| AeSchema.BuildAxiMasterPort | AE_Copilot_Schema_Aware/ae_xsd_schema.py:2332-2346 | an AXI master port is valid exactly when its priority is an integer |
| AeSchema.BuildMemoryInterface | AE_Copilot_Schema_Aware/ae_xsd_schema.py:2347-2361 | a memory interface is valid exactly when its flag is a boolean, false by default |
| AeSchema.BuildGenericHardware | AE_Copilot_Schema_Aware/ae_xsd_schema.py:2267-2468 | generic hardware is valid exactly when its parts are; its frequency lies in [1000, 10^9] |
| AeSchema.BuildChiplet | AE_Copilot_Schema_Aware/ae_xsd_schema.py:2488-2531 | a chiplet is valid exactly when its parts are; generic hardware defaults to empty and the cluster reads as None exactly when unset |
| AeSchema.ChipletClusterNeedsOs | AE_Copilot_Schema_Aware/ae_xsd_schema.py:2518-2524 | a chiplet whose CPU cluster has no operating system is rejected |
| AePackage.AnalyseSimtimeAcceptsPlainObjects | AE_Copilot_Schema_Aware/ae_xsd_schema.py:7-22 | any object without start and end time is a valid simulation-time record |
| AePackage.CoreRunnableBounds | AE_Copilot_Schema_Aware/ae_xsd_schema.py:205-247 | a runnable mapping is accepted exactly when core_id is in [0, 7] and priority in [1, 99] |
| AePackage.CorePrebuiltBounds | AE_Copilot_Schema_Aware/ae_xsd_schema.py:179-204 | a prebuilt mapping is accepted exactly when core_id is in [0, 7] |
| AePackage.CpuCoreNeedsMapping | AE_Copilot_Schema_Aware/ae_xsd_schema.py:656-701 | a CPU core needs at least one software mapping |
| AePackage.DataRangeBounds | AE_Copilot_Schema_Aware/ae_xsd_schema.py:1176-1194 | a byte data range is accepted exactly when min and max lie in [0, 255] |
| AePackage.FixedValueBounds | AE_Copilot_Schema_Aware/ae_xsd_schema.py:1195-1206 | a byte fixed value is accepted exactly when the default lies in [0, 255] |
| AePackage.CanBusCardinality | AE_Copilot_Schema_Aware/ae_xsd_schema.py:1298-1320 | a network topology accepts at most 8 CAN buses |
| AePackage.EthSwitchCardinality | AE_Copilot_Schema_Aware/ae_xsd_schema.py:1306-1317 | a network topology accepts at most 8 Ethernet switches |
| AePackage.EcuCardinality | AE_Copilot_Schema_Aware/ae_xsd_schema.py:2590-2600 | the package elements need between 1 and 100 ECUs |
| AePackage.SocCardinality | AE_Copilot_Schema_Aware/ae_xsd_schema.py:2631-2658 | an ECU needs between 1 and 100 SoCs |
| AePackage.PackageNeedsElements | AE_Copilot_Schema_Aware/ae_xsd_schema.py:2534-2547 | a package without elements is rejected |
| AePackage.Accepts | AE_Copilot_Schema_Aware/orchestrator_eval_ollama.py:100 | `model(**parsed)` for a cluster class, the simulation-time window or the chiplet is judged by that record's rules; a record type this model does not state is judged by `unmodelled` |
| AePackage.ClusterOf | AE_Copilot_Schema_Aware/ae_xsd_schema.py:1883-1947 | a class name maps to a cluster variant only if that variant carries the name |
| AePackage.ClusterNameRoundTrip | AE_Copilot_Schema_Aware/ae_xsd_schema.py:1883-1947 | every cluster variant's class name maps back to that variant |
| AePackage.AcceptsCluster | AE_Copilot_Schema_Aware/ae_xsd_schema.py:1883-1947 | validating against a cluster class name is validating the cluster variant |
| SimpleSchema.BuildAxiBus | src/schemas.py:6-10 | the simple AXI bus is valid exactly when its fields are; width defaults to 4, frequency to 10^6 and is at least 10^6 |
| SimpleSchema.BuildCpuCluster | src/schemas.py:14-22 | the simple cluster needs a (nullable) cluster_name; the core count and MHz are positive when given |
| SimpleSchema.BuildSoc | src/schemas.py:26-29 | a SoC is valid exactly when its fields are; the clusters default to empty |
| SimpleSchema.BuildEcu | src/schemas.py:33-35 | an ECU is valid exactly when its fields are; the SoCs default to empty |
| SimpleSchema.BuildSystemModel | src/schemas.py:39-40 | a system model is valid exactly when its ECUs are, and keeps one ECU per item |
| SimpleSchema.SimpleDefaults | src/schemas.py:6-40 | the defaults of every simple model, and the required-but-nullable fields |
| SimpleSchema.SimpleAxiFrequencyBound | src/schemas.py:8-10 | a simple AXI frequency is accepted exactly at 10^6 or above |
| Normalize.LastStripped | Simple_Tool_Calling_AE_Copilot/orchestrator_eval_ollama.py:19 | a lookup by stripped key fails exactly when no key strips to it |
| Normalize.StripKeys | Simple_Tool_Calling_AE_Copilot/orchestrator_eval_ollama.py:19 | in the stripped dict every key reads as the last entry whose key strips to it |
| Normalize.FixShortName | Simple_Tool_Calling_AE_Copilot/orchestrator_eval_ollama.py:14-23 | only `short_name` can change and the key order is kept |
| Normalize.FixShortNameIdempotent | Simple_Tool_Calling_AE_Copilot/orchestrator_eval_ollama.py:14-23 | normalizing the short name twice is the same as once |
| Normalize.ShortNameFromString | Simple_Tool_Calling_AE_Copilot/orchestrator_eval_ollama.py:15-16 | a string name is wrapped as `{"name": s}` |
| Normalize.ShortNameFromObject | Simple_Tool_Calling_AE_Copilot/orchestrator_eval_ollama.py:17-23 | an object name is rebuilt around its stripped `value` key, else its `name` key, else left as it was |
| Normalize.ShortNameOtherKept | Simple_Tool_Calling_AE_Copilot/orchestrator_eval_ollama.py:14-23 | a missing name, or one that is neither a string nor an object, is left alone |
| Normalize.NormalizedFrequency | Simple_Tool_Calling_AE_Copilot/orchestrator_eval_ollama.py:26-38 | a rewritten frequency is always an object in MHz |
| Normalize.FixFrequency | Simple_Tool_Calling_AE_Copilot/orchestrator_eval_ollama.py:26-38 | only `frequency` changes, and afterwards it is present and not null |
| Normalize.FixFrequencyIdempotent | Simple_Tool_Calling_AE_Copilot/orchestrator_eval_ollama.py:26-38 | normalizing the frequency twice is the same as once |
| Normalize.FixFrequencyCases | Simple_Tool_Calling_AE_Copilot/orchestrator_eval_ollama.py:26-38 | missing or null gives 0 MHz, an integer is wrapped in MHz, and a non-numeric string or an object is left alone |
| Normalize.FrequencyFromText | Simple_Tool_Calling_AE_Copilot/orchestrator_eval_ollama.py:30-34 | a text such as "2000 MHz" becomes 2000 MHz |
| Normalize.NormalizeCpuCluster | Simple_Tool_Calling_AE_Copilot/orchestrator_eval_ollama.py:12-40 | only name and frequency change, and the frequency becomes present and not null |
| Normalize.NormalizeCpuClusterIdempotent | Simple_Tool_Calling_AE_Copilot/orchestrator_eval_ollama.py:12-40 | normalizing a cluster twice is the same as once |
| Normalize.MissingFrequencyRejected | Simple_Tool_Calling_AE_Copilot/orchestrator_eval_ollama.py:37-38 | a cluster with no frequency becomes 0 MHz, which every cluster variant rejects |
| Normalize.ClusterFromText | Simple_Tool_Calling_AE_Copilot/orchestrator_eval_ollama.py:30-34 | a named cluster with a textual frequency is accepted exactly when the number is in [1000, 10^9] |
| Normalize.RenameUcie | Simple_Tool_Calling_AE_Copilot/orchestrator_eval_ollama.py:46-47 | the misspelt `ucei_interface` is moved to `ucie_interface`, overwriting it, and nothing else changes |
| Normalize.FixClusterFields | Simple_Tool_Calling_AE_Copilot/orchestrator_eval_ollama.py:64-79 | a nested cluster gets the short_name rewrite of the top level, an operating_system key (null when it had none), and an int or bool frequency wrapped as MHz; every other key is unchanged |
| Normalize.DefaultOs | Simple_Tool_Calling_AE_Copilot/orchestrator_eval_ollama.py:75-76 | a missing operating_system is added as null, a present one is kept, nothing else changes |
| Normalize.WrapFrequency | Simple_Tool_Calling_AE_Copilot/orchestrator_eval_ollama.py:77-78 | an int or bool frequency becomes `{value, unit: MHz}`; any other record is returned unchanged |
| Normalize.FixNestedCluster | Simple_Tool_Calling_AE_Copilot/orchestrator_eval_ollama.py:61-79 | only an object `cpu_cluster` is rewritten, and nothing else changes |
| Normalize.NestedClusterWithoutOsRejected | Simple_Tool_Calling_AE_Copilot/orchestrator_eval_ollama.py:75-76 | a chiplet whose nested cluster had no OS is still rejected after normalizing |
| Normalize.PyContains | Simple_Tool_Calling_AE_Copilot/orchestrator_eval_ollama.py:84 | Python's `in` raises exactly on containers that are not dict, str or list |
| Normalize.FixAxiBus | Simple_Tool_Calling_AE_Copilot/orchestrator_eval_ollama.py:82-88 | only `axi_bus` can change, the key order is kept, and a chiplet without a bus is untouched |
| Normalize.FixAxiBusRaises | Simple_Tool_Calling_AE_Copilot/orchestrator_eval_ollama.py:82-88 | the AXI step raises exactly when the bus does not support `in`, is a string or list holding both `value` and `unit`, or is a dict with a value and a non-string unit |
| Normalize.AxiOtherUnitKept | Simple_Tool_Calling_AE_Copilot/orchestrator_eval_ollama.py:82-88 | a bus lacking value or unit, or with a unit other than bytes or hz/MHz, is left alone |
| Normalize.AxiByteUnit | Simple_Tool_Calling_AE_Copilot/orchestrator_eval_ollama.py:85-86 | a byte-unit width becomes a width-only bus, valid exactly when the width is positive |
| Normalize.AxiFrequencyUnscaled | Simple_Tool_Calling_AE_Copilot/orchestrator_eval_ollama.py:87-88 | an hz or MHz value is copied unscaled into a frequency-only bus, valid exactly at 10^6 or above |
| Normalize.FixEthernet | Simple_Tool_Calling_AE_Copilot/orchestrator_eval_ollama.py:91-99 | only `ethernet_interface` changes, the key order is kept, and a value that is neither a string nor a dict is left alone |
| Normalize.FixEthernetOtherModeKept | Simple_Tool_Calling_AE_Copilot/orchestrator_eval_ollama.py:93-98 | a dict whose mode is missing, not a string, or not one of the six words (compared exactly) is left unchanged |
| Normalize.EthernetWord | Simple_Tool_Calling_AE_Copilot/orchestrator_eval_ollama.py:96-99 | on/enabled/true give simulated, off/disabled/false give native, and other words are not mapped |
| Normalize.EthernetWordsMapped | Simple_Tool_Calling_AE_Copilot/orchestrator_eval_ollama.py:94-99 | a dict mode given as an enable or disable word becomes a valid interface with the matching mode |
| Normalize.EthernetStringNotMapped | Simple_Tool_Calling_AE_Copilot/orchestrator_eval_ollama.py:92-93 | a string interface is wrapped without mapping, so "on" is rejected and the step is not idempotent |
| Normalize.UcieWord | Simple_Tool_Calling_AE_Copilot/orchestrator_eval_ollama.py:103-109 | the mode becomes host or endpoint; it is endpoint exactly for "device" or "endpoint" |
| Normalize.FixUcie | Simple_Tool_Calling_AE_Copilot/orchestrator_eval_ollama.py:102-115 | only `ucie_interface` changes, and the key order is kept |
| Normalize.FixUcieModeWord | Simple_Tool_Calling_AE_Copilot/orchestrator_eval_ollama.py:102-115 | after the UCIe step, a string or dict interface's mode lowercases to host or endpoint |
| Normalize.FixUcieObjectMode | Simple_Tool_Calling_AE_Copilot/orchestrator_eval_ollama.py:110-115 | a dict mode of "device" becomes endpoint, a case variant of host or endpoint is kept as written, any other mode becomes host, and other entries are kept |
| Normalize.FixUcieMissingMode | Simple_Tool_Calling_AE_Copilot/orchestrator_eval_ollama.py:113-115 | a dict interface without a mode gets mode host |
| Normalize.FixUcieFromString | Simple_Tool_Calling_AE_Copilot/orchestrator_eval_ollama.py:102-108 | a string interface becomes an object holding only the mode its lowercased text maps to |
| Normalize.UcieStringValid | Simple_Tool_Calling_AE_Copilot/orchestrator_eval_ollama.py:103-109 | a string interface always becomes a valid UCIe record |
| Normalize.UcieCaseVariantKept | Simple_Tool_Calling_AE_Copilot/orchestrator_eval_ollama.py:110-115 | a dict mode such as "Host" is left untouched and then rejected |
| Normalize.FixUcieIdempotent | Simple_Tool_Calling_AE_Copilot/orchestrator_eval_ollama.py:102-115 | the UCIe step applied twice is the same as once |
| Normalize.NormalizeChiplet | Simple_Tool_Calling_AE_Copilot/orchestrator_eval_ollama.py:42-117 | every key outside the normalized ones is unchanged and the misspelt UCIe key is gone; it fails exactly when the AXI step raises on the bus or the UCIe step raises on a dict's non-string mode |
| Repair.ExtractFirstJson | Simple_Tool_Calling_AE_Copilot/orchestrator_eval_ollama.py:153-159 | no snippet exactly when there is no '{'; otherwise the text from the first '{' to the last '}', empty when no '}' follows |
| Repair.ExtractSurrounded | Simple_Tool_Calling_AE_Copilot/orchestrator_eval_ollama.py:153-159 | an object between brace-free text is extracted exactly |
| Repair.AutoCloseJson | Simple_Tool_Calling_AE_Copilot/orchestrator_eval_ollama.py:160-168 | closing only appends closers, every appended `}` comes before every appended `]`, and afterwards each closer count reaches its opener count |
| Repair.AutoCloseBracesFirst | Simple_Tool_Calling_AE_Copilot/orchestrator_eval_ollama.py:166-167 | `{[` is closed as `{[}]`, in the fixed braces-first order rather than by nesting |
| Repair.AutoCloseIdempotent | Simple_Tool_Calling_AE_Copilot/orchestrator_eval_ollama.py:160-168 | auto-closing twice is the same as once |
| Repair.Unwrap | Simple_Tool_Calling_AE_Copilot/orchestrator_eval_ollama.py:177-180 | a one-entry object under a wrapper key gives its value, and anything else is kept |
| Repair.UnwrapOnce | Simple_Tool_Calling_AE_Copilot/orchestrator_eval_ollama.py:177-180 | only one wrapper level is removed |
| Repair.TargetFor | Simple_Tool_Calling_AE_Copilot/orchestrator_eval_ollama.py:225 | the cluster target is chosen exactly when the scenario id mentions "cluster" |
| Repair.Prepared | Simple_Tool_Calling_AE_Copilot/orchestrator_eval_ollama.py:171-184 | a prepared record exists only when the answer contains both '{' and '}' |
| Repair.ParseJsonSchema | Simple_Tool_Calling_AE_Copilot/orchestrator_eval_ollama.py:170-189 | a record is returned exactly when the prepared answer is valid for the target; it has the target's type and is the record the target's class builds from the prepared answer |
| Repair.TruncatedAnswerLost | Simple_Tool_Calling_AE_Copilot/orchestrator_eval_ollama.py:171-174 | an answer with no '}' is never parsed, whatever auto-closing could do |
| Retriever.KeywordFilter | AE_Copilot_Schema_Aware/rag_retriever.py:11-20 | each type name is chosen exactly when its words occur in the lowercased query, in a fixed order, with cluster and chiplet as fallback |
| Retriever.KeptDocuments | AE_Copilot_Schema_Aware/rag_retriever.py:32-35 | exactly the snippets mentioning a keyword are kept, in order and with every duplicate copy, or all snippets when none does |
| Retriever.Retrieve | AE_Copilot_Schema_Aware/rag_retriever.py:22-39 | the context starts with the header, names every keyword, and contains the first five kept snippets |
| Retriever.JoinContains | AE_Copilot_Schema_Aware/rag_retriever.py:38 | every joined snippet occurs in the joined text |
| Indexer.ScalarText | AE_Copilot_Schema_Aware/rag_indexer.py:25 | a scalar is shown as Python prints it: a string as itself, an integer in decimal with a leading '-' when negative, null as None and the booleans as True and False |
| Indexer.Flatten | AE_Copilot_Schema_Aware/rag_indexer.py:18-28 | every chunk of a subtree starts with its dotted path |
| Indexer.FlattenCount | AE_Copilot_Schema_Aware/rag_indexer.py:18-28 | the tree yields one chunk per scalar held directly under a dict key |
| Indexer.FieldChunks | AE_Copilot_Schema_Aware/rag_indexer.py:19-25 | each dict entry contributes its leaf chunk, or every chunk of its subtree |
| Indexer.ItemChunks | AE_Copilot_Schema_Aware/rag_indexer.py:26-28 | each list item contributes every chunk of its subtree under its index path |
| Indexer.Iterate | AE_Copilot_Schema_Aware/rag_indexer.py:36 | iterating a list gives its items, a dict its keys, a string its characters, and anything else raises |
| Indexer.ElementChunks | AE_Copilot_Schema_Aware/rag_indexer.py:30-33 | one chunk per element detail, in order; a non-dict raises |
| Indexer.GlobalTypeChunks | AE_Copilot_Schema_Aware/rag_indexer.py:35-37 | one chunk per iterated global type, in order; a non-iterable raises |
| Indexer.ExtractChunks | AE_Copilot_Schema_Aware/rag_indexer.py:11-40 | element chunks, then global type chunks, then one tree chunk per keyed scalar under the `schema.` prefix |
| Indexer.FlattenStartsWithDot | AE_Copilot_Schema_Aware/rag_indexer.py:39 | every tree chunk starts with "schema." |
| Indexer.SingleScalarSchema | AE_Copilot_Schema_Aware/rag_indexer.py:11-40 | a one-entry schema yields the single chunk "schema.k: n" |
| Tools.ParseInt | AE_Copilot_Schema_Aware/tools.py:5-12 | integers (booleans included) pass through, a string with a digit becomes the value of the maximal digit run starting at its first digit, a string without digits becomes 0, and any other value becomes 0 |
| Tools.ParseIntLeadingZeros | AE_Copilot_Schema_Aware/tools.py:9-11 | leading zeros of the run are ignored: "x007" reads as 7 and "00" as 0 |
| Tools.ParseIntReadsNumber | AE_Copilot_Schema_Aware/tools.py:8-11 | a number embedded in text is read back exactly |
| Tools.ParseIntDropsSign | AE_Copilot_Schema_Aware/tools.py:9-11 | a negative number written as text is read as its absolute value |
| Tools.Arg | AE_Copilot_Schema_Aware/tools.py:20 | `args.get(k, d)` gives the stored value, or the default when the key is absent |
| Tools.ShortNameArg | AE_Copilot_Schema_Aware/tools.py:19 | the short name falls back to `name` when `short_name` is falsy |
| Tools.CreateCpuCluster | AE_Copilot_Schema_Aware/tools.py:18-26 | the cluster has exactly name, frequency and core count; a missing frequency becomes 0 |
| Tools.CreatedClusterValid | AE_Copilot_Schema_Aware/tools.py:18-26 | a created cluster is valid exactly when the name is a string and the parsed frequency is in [1000, 10^9] |
| Tools.CreatedClusterFrequency | AE_Copilot_Schema_Aware/tools.py:20 | a named cluster with frequency text "n unit" is valid exactly when n is in [1000, 10^9] |
| Tools.EthernetArg | AE_Copilot_Schema_Aware/tools.py:32-38 | absent gives native; an object's mode replaces the object when it has one; true then gives native and false simulated; every other value passes through |
| Tools.UcieArg | AE_Copilot_Schema_Aware/tools.py:39-43 | absent gives endpoint, a dict gives its mode (or itself without one), and other values pass through |
| Tools.AddChiplet | AE_Copilot_Schema_Aware/tools.py:28-50 | the chiplet has exactly five keys: the name record, the parsed AXI width and frequency each under `value`, and the Ethernet and UCIe modes |
| Tools.AddChipletAxiIgnored | AE_Copilot_Schema_Aware/tools.py:28-50 | a created chiplet is valid exactly when its name and modes are, and its AXI bus is always the default |
| Tools.AddChipletOmits | AE_Copilot_Schema_Aware/tools.py:44-50 | a created chiplet has no CPU cluster and no generic hardware |
| Tools.SelectTool | AE_Copilot_Schema_Aware/tools.py:52-58 | exactly the two registered names select a tool |
| Tools.RunTool | AE_Copilot_Schema_Aware/tools.py:52-55 | each tool returns a record with its fixed key list |
| Orchestrator.EnumSafe | AE_Copilot_Schema_Aware/orchestrator_eval_ollama.py:12-18 | an enum member dumps as its value, a set or tuple as a list, and anything else as its text |
| Orchestrator.DumpedModesRevalidate | AE_Copilot_Schema_Aware/orchestrator_eval_ollama.py:14-15 | dumped Ethernet and UCIe modes validate again to the same mode |
| Orchestrator.ExtractJson | AE_Copilot_Schema_Aware/orchestrator_eval_ollama.py:40-55 | no '{' means no JSON; otherwise the parse of the span from the first '{' to the last '}' |
| Orchestrator.ExtractJsonSurrounded | AE_Copilot_Schema_Aware/orchestrator_eval_ollama.py:40-55 | an object between brace-free text is parsed exactly |
| Orchestrator.SelectFrom | AE_Copilot_Schema_Aware/orchestrator_eval_ollama.py:86-93 | the candidates are exactly the names occurring in the lowercased context, in order, or all names when none does |
| Orchestrator.RetrievedKeywordsAreCandidates | AE_Copilot_Schema_Aware/orchestrator_eval_ollama.py:86-93 | every type name the retriever puts in the context is a validation candidate |
| Orchestrator.FirstAccepted | AE_Copilot_Schema_Aware/orchestrator_eval_ollama.py:98-105 | the first accepting candidate is found, or none exactly when none accepts |
| Orchestrator.ValidateAmong | AE_Copilot_Schema_Aware/orchestrator_eval_ollama.py:95-108 | the reported model is the first accepting candidate; the value is reported unvalidated exactly when none accepts |
| Orchestrator.ValidateAndPrint | AE_Copilot_Schema_Aware/orchestrator_eval_ollama.py:95-108 | the loop reports what the first-match definition reports |
| Orchestrator.ValidateReports | AE_Copilot_Schema_Aware/orchestrator_eval_ollama.py:98-108 | a reported model is a candidate whose validator accepts the value; unvalidated means every candidate rejects |
| Orchestrator.EarlierAcceptingWins | AE_Copilot_Schema_Aware/orchestrator_eval_ollama.py:98-103 | an accepting candidate in front of the list decides the report ahead of any later one |
| Orchestrator.SizedClusterNeverReported | AE_Copilot_Schema_Aware/orchestrator_eval_ollama.py:86-108 | when the cluster base class is a candidate, no cluster variant with a fixed size is ever reported |
| Orchestrator.ClusterQueryReportsNoSizedVariant | AE_Copilot_Schema_Aware/orchestrator_eval_ollama.py:131-156 | for a query about clusters, the report never names a fixed-size cluster variant |
| Orchestrator.FallbackToFirst | AE_Copilot_Schema_Aware/orchestrator_eval_ollama.py:93-103 | a context naming no type falls back to all types, and the first type that accepts is reported |
| Orchestrator.ToolResultsFallBackToSimtime | AE_Copilot_Schema_Aware/orchestrator_eval_ollama.py:86-108 | for any context naming no record type, every tool result is reported as a simulation-time record |
| Orchestrator.RetrievedContextNamesType | AE_Copilot_Schema_Aware/rag_retriever.py:11-39 | the context the retriever builds names at least one record type, so the candidate list never falls back |
| Orchestrator.ToolResultsUntimed | AE_Copilot_Schema_Aware/tools.py:18-50 | no tool result has start or end time |
| Orchestrator.HandleCall | AE_Copilot_Schema_Aware/orchestrator_eval_ollama.py:139-158 | non-calls, crashes on an unhashable tool name, failures on non-object arguments to a registered tool, and checked calls are told apart exactly; a checked call runs the selected tool and validates its result |
| Orchestrator.HandleAnswer | AE_Copilot_Schema_Aware/orchestrator_eval_ollama.py:139-158 | an answer without '{' is no call, and a checked result is validated against the context |
| Orchestrator.UnclosedAnswerIsNoToolCall | AE_Copilot_Schema_Aware/orchestrator_eval_ollama.py:40-55 | an answer with no '}' is no tool call when the empty text does not parse |

## Left out

- AeSchema.ValidGenericHardware: `internal_behavior` and `power_parameters` are checked only as objects, because their records hold floats and further nested types outside the assistants' outputs.
- AePackage.ValidElements: only the ECU list, the network topology and the SoC and CPU core rules are stated; the other parts are checked only as objects.
- Orchestrator.HandleAnswer: states only the no-call, '{' and report facts; `Orchestrator.HandleCall` carries the full contract for the parsed call.
- Retriever.Retrieve: does not state that snippets after the fifth are absent, only that the first five are present.
- Declared bounds and occurrence counts (`min_inclusive`, `max_inclusive`, `min_occurs`, `max_occurs`) are only `metadata` entries of xsdata's `field`. The model assumes pydantic validation enforces them. These members state facts that hold only under that assumption:
  - `AeSchema.BuildFrequency` and `AeSchema.FrequencyBoundaries`;
  - `AeSchema.BuildAxiBus` and `AeSchema.AxiBusBounds`;
  - `AeSchema.BuildD2D`, `AeSchema.BuildEndpointDma`, `AeSchema.BuildUcie` and `AeSchema.BuildGenericHardware`;
  - `Normalize.AxiByteUnit` and `Normalize.AxiFrequencyUnscaled`;
  - `Normalize.MissingFrequencyRejected` and `Normalize.ClusterFromText`;
  - `Tools.CreatedClusterValid` and `Tools.CreatedClusterFrequency`;
  - `AePackage.CoreRunnableBounds`, `AePackage.CorePrebuiltBounds`, `AePackage.DataRangeBounds` and `AePackage.FixedValueBounds`;
  - `AePackage.CanBusCardinality`, `AePackage.EthSwitchCardinality`, `AePackage.EcuCardinality` and `AePackage.SocCardinality`;
  - `AePackage.CpuCoreNeedsMapping` and `AePackage.PackageNeedsElements`.
- Python 3.11 and later refuse `int()` of a digit run longer than 4300 characters (`sys.int_max_str_digits`). The model reads runs of any length, because the limit depends on the interpreter version and its settings. These members therefore do not model the failure on such a run:
  - Tools.ParseInt, Text.SearchInt, Tools.CreateCpuCluster and Tools.AddChiplet: in the source the tool call fails at AE_Copilot_Schema_Aware/tools.py:11;
  - Orchestrator.HandleCall: it reports a checked call where `main` reports a failed tool execution;
  - Text.MatchLeadingInt, Normalize.FixFrequency and Normalize.NormalizeCpuCluster: in the source the normalizer raises at Simple_Tool_Calling_AE_Copilot/orchestrator_eval_ollama.py:34;
  - Repair.ParseJsonSchema: it returns the record where `parse_json_schema` catches that error and returns None.
- Float-valued fields are not modelled: `AePowerParameterType`, `ArrayOfFloat` and the float branches of the normalizers. Dafny has no IEEE floats.
- Pydantic's lax coercions (the string "5" for an int, 1.0 for an int) are not modelled; only exact JSON types are accepted. Duplicate JSON object keys are not modelled either.
- `str.lower`, `str.strip` and `\d` are modelled for ASCII only.
- `json.loads`, `json.dumps`, `str` and `model_dump` are not modelled; they are the parameters `parse`, `dumps` and `show`. What `parse` does with the empty text is left open.
- File and console I/O, the ollama chat calls, `subprocess`, time measurement, ChromaDB and the embedding model are not modelled. The vector query's result is the `docs` parameter.
- Printing, the scenario loops and the summary tables are not modelled. A crash on an unhashable tool name ends in `Crashed` instead of ending the run.
- `validate_xml.py` and `test.py` are not part of this model.
- Record types whose rules are not stated (operations, software components, analysis, interfaces, events and others) are judged by the `unmodelled` parameter.
- The list of record types is written out in the order `inspect.getmembers` returns (sorted by name) rather than derived by reflection.
- The `hasattr(..., "value")` branches for enum arguments in the tools are unreachable on JSON input and are left out.
- The `end == -1` guard of `extract_json` cannot fire once a '{' was found, and is left out.
- `enum_default` in the tools is never called, and is left out.
