/**
 LabelMap enrichment over the entity catalog and the sorted attribute list
 (internal/exporter/converter/otlp.go, enrichLabels and labelsToOTLPAttributes).
 */
module Labels {
  import opened Prelude
  import Text
  import opened EntityCatalog

  type LabelMap = map<string, string>

  const CPU := "cpu"
  const CPU_ID := "cpu_id"
  const UUID := "uuid"
  const GPU_UUID := "gpu_uuid"
  const GPU := "gpu"
  const PCI_BUS_ID := "pci_bus_id"
  const DEVICE := "device"
  const MODEL_NAME := "model_name"
  const GPU_SERIAL := "gpu_serial"
  const CLUSTER_UUID := "cluster_uuid"
  const CLIQUE_ID := "clique_id"

  /** The only keys enrichment may add. */
  const IDENTITY_KEYS: set<string> := {
    CPU, UUID, GPU_UUID, GPU, PCI_BUS_ID, DEVICE, MODEL_NAME, GPU_SERIAL, CLUSTER_UUID, CLIQUE_ID
  }

  lemma KeysDiffer()
    ensures CPU_ID !in IDENTITY_KEYS
    ensures GPU_UUID !in {CPU, UUID, GPU, PCI_BUS_ID, DEVICE, MODEL_NAME, GPU_SERIAL, CLUSTER_UUID, CLIQUE_ID}
    ensures UUID !in {CPU, GPU_UUID, GPU, PCI_BUS_ID, DEVICE, MODEL_NAME, GPU_SERIAL, CLUSTER_UUID, CLIQUE_ID}
  {
  }

  function Get(m: LabelMap, key: string): string
  {
    if key in m then m[key] else ""
  }

  // ------------------------------------------------------------ specification

  datatype Addition = Addition(key: string, value: string)

  /** `addLabelIfMissing`. */
  function AddIfMissing(lib: Library, m: LabelMap, a: Addition): LabelMap
  {
    if Get(m, a.key) == "" && lib.trim(a.value) != "" then m[a.key := lib.trim(a.value)] else m
  }

  function AddAll(lib: Library, m: LabelMap, adds: seq<Addition>): LabelMap
  {
    if adds == [] then m else AddIfMissing(lib, AddAll(lib, m, adds[..|adds| - 1]), adds[|adds| - 1])
  }

  /** The source labels, trimmed, without the blank ones. */
  function TrimAll(lib: Library, labels: LabelMap): LabelMap
  {
    map k | k in labels && lib.trim(labels[k]) != "" :: lib.trim(labels[k])
  }

  function CpuAdditions(m: LabelMap): seq<Addition>
  {
    if Get(m, CPU_ID) != "" then [Addition(CPU, Get(m, CPU_ID))] else []
  }

  /** The GPU the labels name: by parent UUID, by UUID, or by index. */
  function NamedGPU(t: Tables, m: LabelMap): string
  {
    if Get(m, GPU_UUID) != "" then Get(m, GPU_UUID)
    else if Get(m, UUID) != "" then Get(m, UUID)
    else if Get(m, GPU) != "" then Get(t.byIndex, Get(m, GPU))
    else ""
  }

  function IdentityAdditions(parent: bool, id: GPUIdentity): seq<Addition>
  {
    [Addition(if parent then GPU_UUID else UUID, id.uuid),
     Addition(GPU, id.gpu),
     Addition(PCI_BUS_ID, id.pciBusID),
     Addition(DEVICE, id.device),
     Addition(MODEL_NAME, id.modelName),
     Addition(GPU_SERIAL, id.gpuSerial),
     Addition(CLUSTER_UUID, id.clusterUUID),
     Addition(CLIQUE_ID, id.cliqueID)]
  }

  function GpuAdditions(catalog: Option<Tables>, m: LabelMap): seq<Addition>
  {
    if catalog.None? || NamedGPU(catalog.value, m) !in catalog.value.byUUID || NamedGPU(catalog.value, m) == "" then []
    else IdentityAdditions(Get(m, GPU_UUID) != "", catalog.value.byUUID[NamedGPU(catalog.value, m)])
  }

  function WithCpu(lib: Library, m: LabelMap): LabelMap
  {
    AddAll(lib, m, CpuAdditions(m))
  }

  /** `enrichLabels`. */
  function Enrich(lib: Library, catalog: Option<Tables>, labels: LabelMap): LabelMap
  {
    var m := WithCpu(lib, TrimAll(lib, labels));
    AddAll(lib, m, GpuAdditions(catalog, m))
  }

  // ------------------------------------------------------------ additions

  ghost predicate Clean(lib: Library, m: LabelMap)
  {
    forall k :: k in m ==> m[k] != "" && lib.trim(m[k]) == m[k]
  }

  /** Additions keep every label, add only their own keys, and leave none of their keys missing that could be filled. */
  lemma {:induction false} AddAllKeeps(lib: Library, m: LabelMap, adds: seq<Addition>)
    requires Trimmer(lib.trim) && Clean(lib, m)
    ensures Clean(lib, AddAll(lib, m, adds))
    ensures forall k :: k in m ==> k in AddAll(lib, m, adds) && AddAll(lib, m, adds)[k] == m[k]
    ensures forall k :: k in AddAll(lib, m, adds) ==> k in m || Adds(adds, k)
    ensures forall i :: 0 <= i < |adds| && lib.trim(adds[i].value) != "" ==> adds[i].key in AddAll(lib, m, adds)
  {
    if adds != [] {
      var last := |adds| - 1;
      AddAllKeeps(lib, m, adds[..last]);
      var before := AddAll(lib, m, adds[..last]);
      forall k | k in AddAll(lib, m, adds)
        ensures k in m || Adds(adds, k)
      {
        if k in before && k !in m {
          assert Adds(adds[..last], k);
        }
      }
    }
  }

  ghost predicate Adds(adds: seq<Addition>, key: string)
  {
    exists i :: 0 <= i < |adds| && adds[i].key == key
  }

  /** Additions that have nothing left to fill change nothing. */
  lemma {:induction false} AddAllFixed(lib: Library, m: LabelMap, adds: seq<Addition>)
    requires Clean(lib, m)
    requires forall i :: 0 <= i < |adds| && lib.trim(adds[i].value) != "" ==> adds[i].key in m
    ensures AddAll(lib, m, adds) == m
  {
    if adds != [] {
      AddAllFixed(lib, m, adds[..|adds| - 1]);
    }
  }

  /** What the first addition for a missing key leaves there. */
  lemma {:induction false} FirstAddition(lib: Library, m: LabelMap, adds: seq<Addition>)
    requires Trimmer(lib.trim) && Clean(lib, m) && adds != [] && Get(m, adds[0].key) == ""
    requires lib.trim(adds[0].value) != ""
    ensures Get(AddAll(lib, m, adds), adds[0].key) == lib.trim(adds[0].value)
  {
    var last := |adds| - 1;
    if last > 0 {
      FirstAddition(lib, m, adds[..last]);
    } else {
      assert adds[..last] == [];
    }
  }

  lemma TrimAllClean(lib: Library, labels: LabelMap)
    requires Trimmer(lib.trim)
    ensures Clean(lib, TrimAll(lib, labels))
  {
  }

  lemma TrimAllFixed(lib: Library, m: LabelMap)
    requires Clean(lib, m)
    ensures TrimAll(lib, m) == m
  {
  }

  lemma WithCpuKeeps(lib: Library, m: LabelMap)
    requires Trimmer(lib.trim) && Clean(lib, m)
    ensures Clean(lib, WithCpu(lib, m))
    ensures forall k :: k in m ==> k in WithCpu(lib, m) && WithCpu(lib, m)[k] == m[k]
    ensures forall k :: k in WithCpu(lib, m) ==> k in m || k == CPU
    ensures Get(m, CPU_ID) != "" ==> CPU in WithCpu(lib, m)
    ensures Get(WithCpu(lib, m), CPU_ID) == Get(m, CPU_ID)
  {
    KeysDiffer();
    AddAllKeeps(lib, m, CpuAdditions(m));
    assert forall k :: Adds(CpuAdditions(m), k) ==> k == CPU;
  }

  lemma GpuAdditionKeys(catalog: Option<Tables>, m: LabelMap, k: string)
    requires Adds(GpuAdditions(catalog, m), k)
    ensures k in IDENTITY_KEYS && (Get(m, GPU_UUID) == "" ==> k != GPU_UUID) && k != CPU
  {
  }

  // ------------------------------------------------------------ theorems

  /** Every non-blank source label survives at its trimmed value; only identity keys are added; no label is blank. */
  lemma EnrichKeepsLabels(lib: Library, catalog: Option<Tables>, labels: LabelMap)
    requires Trimmer(lib.trim)
    ensures Clean(lib, Enrich(lib, catalog, labels))
    ensures forall k :: k in labels && lib.trim(labels[k]) != "" ==>
      k in Enrich(lib, catalog, labels) && Enrich(lib, catalog, labels)[k] == lib.trim(labels[k])
    ensures forall k :: k in Enrich(lib, catalog, labels) ==> k in labels || k in {
      "cpu", "uuid", "gpu_uuid", "gpu", "pci_bus_id", "device", "model_name", "gpu_serial", "cluster_uuid", "clique_id"}
  {
    var m0 := TrimAll(lib, labels);
    TrimAllClean(lib, labels);
    WithCpuKeeps(lib, m0);
    var m := WithCpu(lib, m0);
    AddAllKeeps(lib, m, GpuAdditions(catalog, m));
    forall k | k in Enrich(lib, catalog, labels)
      ensures k in labels || k in IDENTITY_KEYS
    {
      if k !in m {
        GpuAdditionKeys(catalog, m, k);
      }
    }
  }

  /** The second pass names the GPU that the first pass named. */
  lemma SameGPU(lib: Library, t: Tables, m: LabelMap)
    requires Trimmer(lib.trim) && Clean(lib, m) && SelfNamed(lib, t)
    ensures var e := AddAll(lib, m, GpuAdditions(Some(t), m)); GpuAdditions(Some(t), e) == GpuAdditions(Some(t), m)
  {
    var adds := GpuAdditions(Some(t), m);
    var e := AddAll(lib, m, adds);
    AddAllKeeps(lib, m, adds);
    if adds != [] {
      if Get(m, GPU_UUID) == "" && GPU_UUID in e {
        GpuAdditionKeys(Some(t), m, GPU_UUID);
      }
      if Get(m, GPU_UUID) == "" && Get(m, UUID) == "" {
        FirstAddition(lib, m, adds);
      }
    }
  }

  /** Enriching enriched labels changes nothing, for every catalog the builder makes. */
  lemma EnrichIsIdempotent(lib: Library, catalog: Option<Tables>, labels: LabelMap)
    requires Trimmer(lib.trim) && (catalog.Some? ==> SelfNamed(lib, catalog.value))
    ensures Enrich(lib, catalog, Enrich(lib, catalog, labels)) == Enrich(lib, catalog, labels)
  {
    var m0 := TrimAll(lib, labels);
    TrimAllClean(lib, labels);
    WithCpuKeeps(lib, m0);
    var m := WithCpu(lib, m0);
    var adds := GpuAdditions(catalog, m);
    var e := AddAll(lib, m, adds);
    AddAllKeeps(lib, m, adds);
    TrimAllFixed(lib, e);
    if catalog.Some? {
      SameGPU(lib, catalog.value, m);
    }
    CpuIdUnchanged(lib, catalog, m);
    AddAllFixed(lib, e, CpuAdditions(e));
    AddAllFixed(lib, e, adds);
  }

  ghost predicate DistinctKeys(adds: seq<Addition>)
  {
    forall i, j :: 0 <= i < j < |adds| ==> adds[i].key != adds[j].key
  }

  lemma IdentityKeysAreDistinct(parent: bool, id: GPUIdentity)
    ensures DistinctKeys(IdentityAdditions(parent, id))
  {
  }

  /** With distinct keys each addition fills its own key, unless that was there already or the value is blank. */
  lemma {:induction false} AdditionsLand(lib: Library, m: LabelMap, adds: seq<Addition>, i: nat)
    requires Trimmer(lib.trim) && Clean(lib, m) && DistinctKeys(adds) && i < |adds|
    ensures Get(AddAll(lib, m, adds), adds[i].key) ==
      if Get(m, adds[i].key) != "" then Get(m, adds[i].key) else lib.trim(adds[i].value)
  {
    var last := |adds| - 1;
    if i < last {
      AdditionsLand(lib, m, adds[..last], i);
    } else {
      AddAllKeeps(lib, m, adds[..last]);
      assert !Adds(adds[..last], adds[last].key);
    }
  }

  /** `labels[key]` once trimmed, or "". */
  function Trimmed(lib: Library, labels: LabelMap, key: string): string
  {
    if key in labels then lib.trim(labels[key]) else ""
  }

  /** The enriched label at `key` is the source's own, or else `value`, trimmed; no label stands for a blank one. */
  ghost predicate Filled(lib: Library, labels: LabelMap, enriched: LabelMap, key: string, value: string)
  {
    Get(enriched, key) == if Trimmed(lib, labels, key) != "" then Trimmed(lib, labels, key) else lib.trim(value)
  }

  /** Each identity value is at its own key, unless the source had a label there. */
  ghost predicate ShowsIdentity(lib: Library, labels: LabelMap, enriched: LabelMap, id: GPUIdentity)
  {
    && Filled(lib, labels, enriched, "gpu", id.gpu)
    && Filled(lib, labels, enriched, "pci_bus_id", id.pciBusID)
    && Filled(lib, labels, enriched, "device", id.device)
    && Filled(lib, labels, enriched, "model_name", id.modelName)
    && Filled(lib, labels, enriched, "gpu_serial", id.gpuSerial)
    && Filled(lib, labels, enriched, "cluster_uuid", id.clusterUUID)
    && Filled(lib, labels, enriched, "clique_id", id.cliqueID)
  }

  /** The identity's UUID is at `gpu_uuid` when the labels name a parent GPU, and at `uuid` otherwise. */
  ghost predicate ShowsUUID(lib: Library, labels: LabelMap, enriched: LabelMap, id: GPUIdentity)
  {
    Filled(lib, labels, enriched, if Trimmed(lib, labels, "gpu_uuid") != "" then "gpu_uuid" else "uuid", id.uuid)
  }

  lemma BeforeGpu(lib: Library, labels: LabelMap)
    requires Trimmer(lib.trim)
    ensures var m := WithCpu(lib, TrimAll(lib, labels));
      Clean(lib, m) && forall key :: key != "cpu" ==> Get(m, key) == Trimmed(lib, labels, key)
  {
    TrimAllClean(lib, labels);
    WithCpuKeeps(lib, TrimAll(lib, labels));
  }

  /** The labels name the GPU `u`: the parent's UUID comes first, then the GPU's own, then the index. */
  ghost predicate NamesGPU(lib: Library, t: Tables, labels: LabelMap, u: string)
  {
    if Trimmed(lib, labels, "gpu_uuid") != "" then u == Trimmed(lib, labels, "gpu_uuid")
    else if Trimmed(lib, labels, "uuid") != "" then u == Trimmed(lib, labels, "uuid")
    else
      var g := Trimmed(lib, labels, "gpu");
      g != "" && g in t.byIndex && u == t.byIndex[g]
  }

  /** The label at `key` was there, or is `value` trimmed. */
  ghost predicate Landed(lib: Library, m: LabelMap, e: LabelMap, key: string, value: string)
  {
    Get(e, key) == if Get(m, key) != "" then Get(m, key) else lib.trim(value)
  }

  lemma IdentityLands(lib: Library, m: LabelMap, parent: bool, id: GPUIdentity, i: nat)
    requires Trimmer(lib.trim) && Clean(lib, m) && i < 8
    ensures var a := IdentityAdditions(parent, id)[i];
      Landed(lib, m, AddAll(lib, m, IdentityAdditions(parent, id)), a.key, a.value)
  {
    IdentityKeysAreDistinct(parent, id);
    AdditionsLand(lib, m, IdentityAdditions(parent, id), i);
  }

  /** The eight identity values by name, in the order they are added. */
  lemma IdentityByName(parent: bool, id: GPUIdentity)
    ensures IdentityAdditions(parent, id) == [
      Addition(if parent then "gpu_uuid" else "uuid", id.uuid), Addition("gpu", id.gpu),
      Addition("pci_bus_id", id.pciBusID), Addition("device", id.device),
      Addition("model_name", id.modelName), Addition("gpu_serial", id.gpuSerial),
      Addition("cluster_uuid", id.clusterUUID), Addition("clique_id", id.cliqueID)]
    ensures forall i :: 0 <= i < 8 ==> IdentityAdditions(parent, id)[i].key != "cpu"
  {
  }

  /** Labels that name a catalogued GPU show its whole identity. */
  lemma EnrichFillsIdentity(lib: Library, t: Tables, labels: LabelMap, u: string)
    requires Trimmer(lib.trim) && NamesGPU(lib, t, labels, u) && u != "" && u in t.byUUID
    ensures ShowsIdentity(lib, labels, Enrich(lib, Some(t), labels), t.byUUID[u])
    ensures ShowsUUID(lib, labels, Enrich(lib, Some(t), labels), t.byUUID[u])
  {
    BeforeGpu(lib, labels);
    var m := WithCpu(lib, TrimAll(lib, labels));
    var parent, id := Get(m, GPU_UUID) != "", t.byUUID[u];
    assert NamedGPU(t, m) == u;
    var adds, e := IdentityAdditions(parent, id), Enrich(lib, Some(t), labels);
    IdentityByName(parent, id);
    forall i | 0 <= i < 8
      ensures Filled(lib, labels, e, adds[i].key, adds[i].value)
    {
      IdentityLands(lib, m, parent, id, i);
    }
    FilledByName(lib, labels, e, parent, id, adds);
  }

  lemma FilledByName(lib: Library, labels: LabelMap, e: LabelMap, parent: bool, id: GPUIdentity, adds: seq<Addition>)
    requires adds == IdentityAdditions(parent, id) && forall i :: 0 <= i < 8 ==> Filled(lib, labels, e, adds[i].key, adds[i].value)
    ensures ShowsIdentity(lib, labels, e, id)
    ensures Filled(lib, labels, e, if parent then "gpu_uuid" else "uuid", id.uuid)
  {
    IdentityByName(parent, id);
    assert Filled(lib, labels, e, adds[0].key, adds[0].value) && Filled(lib, labels, e, adds[1].key, adds[1].value);
    assert Filled(lib, labels, e, adds[2].key, adds[2].value) && Filled(lib, labels, e, adds[3].key, adds[3].value);
    assert Filled(lib, labels, e, adds[4].key, adds[4].value) && Filled(lib, labels, e, adds[5].key, adds[5].value);
    assert Filled(lib, labels, e, adds[6].key, adds[6].value) && Filled(lib, labels, e, adds[7].key, adds[7].value);
  }

  /** Without a catalog, or when the labels name no catalogued GPU, only the CPU label can be new. */
  lemma NothingElseIsAdded(lib: Library, catalog: Option<Tables>, labels: LabelMap, key: string)
    requires Trimmer(lib.trim) && key != "cpu"
    requires catalog.Some? ==> forall u :: NamesGPU(lib, catalog.value, labels, u) ==> u == "" || u !in catalog.value.byUUID
    ensures Get(Enrich(lib, catalog, labels), key) == Trimmed(lib, labels, key)
  {
    BeforeGpu(lib, labels);
    var m := WithCpu(lib, TrimAll(lib, labels));
    if catalog.Some? && NamedGPU(catalog.value, m) != "" {
      assert NamesGPU(lib, catalog.value, labels, NamedGPU(catalog.value, m));
    }
    assert GpuAdditions(catalog, m) == [];
  }

  /** A CPU number becomes the CPU label, unless the source had one. */
  lemma EnrichFillsCpu(lib: Library, catalog: Option<Tables>, labels: LabelMap)
    requires Trimmer(lib.trim)
    ensures Filled(lib, labels, Enrich(lib, catalog, labels), "cpu", Trimmed(lib, labels, "cpu_id"))
  {
    TrimAllClean(lib, labels);
    var m0 := TrimAll(lib, labels);
    WithCpuKeeps(lib, m0);
    var m := WithCpu(lib, m0);
    if Get(m0, CPU_ID) != "" {
      assert DistinctKeys(CpuAdditions(m0));
      AdditionsLand(lib, m0, CpuAdditions(m0), 0);
    }
    AddAllKeeps(lib, m, GpuAdditions(catalog, m));
    if CPU !in m && CPU in Enrich(lib, catalog, labels) {
      GpuAdditionKeys(catalog, m, CPU);
    }
  }

  lemma CpuIdUnchanged(lib: Library, catalog: Option<Tables>, m: LabelMap)
    requires Trimmer(lib.trim) && Clean(lib, m)
    ensures Get(AddAll(lib, m, GpuAdditions(catalog, m)), CPU_ID) == Get(m, CPU_ID)
  {
    KeysDiffer();
    AddAllKeeps(lib, m, GpuAdditions(catalog, m));
    if CPU_ID !in m && CPU_ID in AddAll(lib, m, GpuAdditions(catalog, m)) {
      GpuAdditionKeys(catalog, m, CPU_ID);
    }
  }

  // ------------------------------------------------------------ the code's own steps

  /** The copying loop; the range takes the keys in any order. */
  method CopyLabels(lib: Library, labels: LabelMap) returns (enriched: LabelMap)
    ensures enriched == TrimAll(lib, labels)
  {
    enriched := map[];
    var left := labels.Keys;
    while left != {}
      invariant left <= labels.Keys
      invariant forall k :: k in enriched <==> k in labels && k !in left && lib.trim(labels[k]) != ""
      invariant forall k :: k in enriched ==> enriched[k] == lib.trim(labels[k])
      decreases |left|
    {
      var key :| key in left;
      var value := lib.trim(labels[key]);
      if value != "" {
        enriched := enriched[key := value];
      }
      left := left - {key};
    }
  }

  /** The CPU label. */
  method AddCpu(lib: Library, m: LabelMap) returns (enriched: LabelMap)
    ensures enriched == WithCpu(lib, m)
  {
    enriched := m;
    var cpuID := Get(enriched, CPU_ID);
    if cpuID != "" {
      enriched := AddLabelIfMissing(lib, m, [], enriched, CPU, cpuID);
      assert [] + CpuAdditions(m) == CpuAdditions(m);
    }
  }

  lemma AddAllSnoc(lib: Library, m: LabelMap, adds: seq<Addition>, a: Addition)
    ensures AddAll(lib, m, adds + [a]) == AddIfMissing(lib, AddAll(lib, m, adds), a)
  {
    assert (adds + [a])[..|adds|] == adds;
  }

  /** `addLabelIfMissing`, as one more addition after those already done. */
  method AddLabelIfMissing(lib: Library, ghost start: LabelMap, ghost done: seq<Addition>, m: LabelMap, key: string, value: string)
    returns (enriched: LabelMap)
    requires m == AddAll(lib, start, done)
    ensures enriched == AddAll(lib, start, done + [Addition(key, value)])
  {
    AddAllSnoc(lib, start, done, Addition(key, value));
    enriched := m;
    var current := Get(enriched, key);
    var trimmed := lib.trim(value);
    if current == "" && trimmed != "" {
      enriched := enriched[key := trimmed];
    }
  }

  /** The eight identity labels, one after another. */
  method AddIdentity(lib: Library, m: LabelMap, parent: bool, id: GPUIdentity) returns (enriched: LabelMap)
    ensures enriched == AddAll(lib, m, IdentityAdditions(parent, id))
  {
    enriched := m;
    ghost var all := IdentityAdditions(parent, id);
    assert all == [all[0]] + [all[1]] + [all[2]] + [all[3]] + [all[4]] + [all[5]] + [all[6]] + [all[7]];
    ghost var done: seq<Addition> := [];
    if parent {
      enriched := AddLabelIfMissing(lib, m, done, enriched, GPU_UUID, id.uuid);
    } else {
      enriched := AddLabelIfMissing(lib, m, done, enriched, UUID, id.uuid);
    }
    done := [all[0]];
    assert [] + [all[0]] == done;
    enriched := AddLabelIfMissing(lib, m, done, enriched, GPU, id.gpu);
    done := done + [all[1]];
    enriched := AddLabelIfMissing(lib, m, done, enriched, PCI_BUS_ID, id.pciBusID);
    done := done + [all[2]];
    enriched := AddLabelIfMissing(lib, m, done, enriched, DEVICE, id.device);
    done := done + [all[3]];
    enriched := AddLabelIfMissing(lib, m, done, enriched, MODEL_NAME, id.modelName);
    done := done + [all[4]];
    enriched := AddLabelIfMissing(lib, m, done, enriched, GPU_SERIAL, id.gpuSerial);
    done := done + [all[5]];
    enriched := AddLabelIfMissing(lib, m, done, enriched, CLUSTER_UUID, id.clusterUUID);
    done := done + [all[6]];
    enriched := AddLabelIfMissing(lib, m, done, enriched, CLIQUE_ID, id.cliqueID);
  }

  method EnrichLabels(lib: Library, catalog: Option<Tables>, labels: LabelMap) returns (enriched: LabelMap)
    ensures enriched == Enrich(lib, catalog, labels)
  {
    enriched := CopyLabels(lib, labels);
    enriched := AddCpu(lib, enriched);
    if catalog.None? {
      return;
    }
    var t := catalog.value;
    var uuid := Get(enriched, UUID);
    var parent := Get(enriched, GPU_UUID) != "";
    if parent {
      uuid := Get(enriched, GPU_UUID);
    }
    if uuid == "" && Get(enriched, GPU) != "" {
      uuid := Get(t.byIndex, Get(enriched, GPU));
    }
    if uuid == "" || uuid !in t.byUUID {
      return;
    }
    enriched := AddIdentity(lib, enriched, parent, t.byUUID[uuid]);
  }

  datatype Attribute = Attribute(key: string, value: string)

  /** The attributes list every label once, in strictly ascending key order. */
  ghost predicate AttributesOf(attributes: seq<Attribute>, labels: LabelMap)
  {
    && (forall i :: 0 <= i < |attributes| ==> attributes[i].key in labels && attributes[i].value == labels[attributes[i].key])
    && (forall i, j :: 0 <= i < j < |attributes| ==> Text.Less(attributes[i].key, attributes[j].key))
    && (forall k :: k in labels ==> exists i :: 0 <= i < |attributes| && attributes[i].key == k)
  }

  lemma SortedAttributes(attributes: seq<Attribute>, labels: LabelMap, keys: seq<string>)
    requires Text.StrictlySorted(keys) && Text.Elements(keys) == labels.Keys && |attributes| == |keys|
    requires forall i :: 0 <= i < |keys| ==> keys[i] in labels && attributes[i] == Attribute(keys[i], labels[keys[i]])
    ensures AttributesOf(attributes, labels)
  {
  }

  /** `labelsToOTLPAttributes`. */
  method LabelsToAttributes(labels: LabelMap) returns (attributes: seq<Attribute>)
    ensures AttributesOf(attributes, labels)
  {
    var order := Text.ListKeys(labels.Keys);
    var keys := Text.SortStrings(order);
    Text.SortEnumeration(order, labels.Keys);
    attributes := AttributesInOrder(labels, keys);
    SortedAttributes(attributes, labels, keys);
  }

  method AttributesInOrder(labels: LabelMap, keys: seq<string>) returns (attributes: seq<Attribute>)
    requires Text.Elements(keys) <= labels.Keys
    ensures |attributes| == |keys|
    ensures forall i :: 0 <= i < |keys| ==> keys[i] in labels && attributes[i] == Attribute(keys[i], labels[keys[i]])
  {
    attributes := [];
    var i := 0;
    while i < |keys|
      invariant 0 <= i <= |keys| && |attributes| == i
      invariant forall j :: 0 <= j < i ==> keys[j] in labels && attributes[j] == Attribute(keys[j], labels[keys[j]])
    {
      assert keys[i] in Text.Elements(keys);
      attributes := attributes + [Attribute(keys[i], labels[keys[i]])];
      i := i + 1;
    }
  }
}
