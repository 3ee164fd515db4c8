/**
 The physical-entity catalog (internal/exporter/collector/identity.go).  The
 library calls it makes are passed in; `TrimmerExists` shows that trimming white
 space is one of the trimmers the proofs admit.
 */
module EntityCatalog {
  import opened Prelude
  import Text

  /** `strings.TrimSpace`, `strconv.Atoi` and decimal formatting. */
  datatype Library = Library(trim: string -> string, atoi: string -> Option<int>, decimal: nat -> string)

  ghost predicate Trimmer(trim: string -> string)
  {
    trim("") == "" && forall s {:trigger trim(trim(s))} :: trim(trim(s)) == trim(s)
  }

  lemma TrimmerExists()
    ensures Trimmer(Text.Trim)
  {
  }

  datatype GPUIdentity = GPUIdentity(
    uuid: string, gpu: string, pciBusID: string, device: string, modelName: string,
    architecture: string, gpuSerial: string, vbiosVersion: string, clusterUUID: string, cliqueID: string)

  datatype GPUInstance = GPUInstance(
    uuid: string, gpuIndex: string, busID: string, sn: string, vbiosVersion: string,
    modelName: string, clusterUUID: string, cliqueID: Option<nat>, minorID: string)

  datatype GPUInfo = GPUInfo(product: string, architecture: string, gpus: seq<GPUInstance>)

  datatype MachineInfo = MachineInfo(
    hostname: string, gpuDriverVersion: string, cudaVersion: string, kernelVersion: string,
    uptime: Option<int>, gpuInfo: Option<GPUInfo>)

  datatype Catalog = Catalog(
    hostname: string, gpuDriverVersion: string, cudaDriverVersion: string, kernelVersion: string,
    bootTime: Option<int>,
    tables: Tables)

  const NO_IDENTITY := GPUIdentity("", "", "", "", "", "", "", "", "", "")

  // ------------------------------------------------------------ specification

  /** DCGM keys that are one GPU once trimmed name one index; distinct trimmed keys always do. */
  ghost predicate Agreeing(lib: Library, dcgm: map<string, string>)
  {
    forall a, b :: a in dcgm && b in dcgm && lib.trim(a) == lib.trim(b) != "" ==> lib.trim(dcgm[a]) == lib.trim(dcgm[b])
  }

  function DcgmIdentity(lib: Library, dcgm: map<string, string>, raw: string): GPUIdentity
  {
    NO_IDENTITY.(uuid := lib.trim(raw), gpu := if raw in dcgm then lib.trim(dcgm[raw]) else "")
  }

  /** What the DCGM loop records for the keys in `seen`. */
  ghost predicate FromDcgm(lib: Library, byUUID: map<string, GPUIdentity>, dcgm: map<string, string>, seen: set<string>)
  {
    && (forall raw :: raw in seen && raw in dcgm && lib.trim(raw) != "" ==>
          lib.trim(raw) in byUUID &&
          byUUID[lib.trim(raw)] == GPUIdentity(lib.trim(raw), lib.trim(dcgm[raw]), "", "", "", "", "", "", "", ""))
    && (forall u :: u in byUUID ==> u != "" && exists raw :: raw in seen && raw in dcgm && lib.trim(raw) == u)
  }

  function Lookup(byUUID: map<string, GPUIdentity>, uuid: string): GPUIdentity
  {
    if uuid in byUUID then byUUID[uuid] else NO_IDENTITY
  }

  /** One machine-info entry laid over what is already known of its GPU. */
  function Merge(lib: Library, info: GPUInfo, known: GPUIdentity, g: GPUInstance): GPUIdentity
  {
    var minor := lib.atoi(lib.trim(g.minorID));
    GPUIdentity(
      lib.trim(g.uuid),
      if known.gpu == "" then lib.trim(g.gpuIndex) else known.gpu,
      lib.trim(g.busID),
      if minor.Some? && minor.value >= 0 then "nvidia" + lib.decimal(minor.value) else known.device,
      if lib.trim(g.modelName) == "" then lib.trim(info.product) else lib.trim(g.modelName),
      lib.trim(info.architecture),
      lib.trim(g.sn),
      lib.trim(g.vbiosVersion),
      lib.trim(g.clusterUUID),
      if g.cliqueID.Some? then lib.decimal(g.cliqueID.value) else known.cliqueID)
  }

  /** The catalog's two tables. */
  datatype Tables = Tables(byUUID: map<string, GPUIdentity>, byIndex: map<string, string>)

  function Filed(tables: Tables, identity: GPUIdentity): Tables
  {
    Tables(tables.byUUID[identity.uuid := identity],
           if identity.gpu != "" then tables.byIndex[identity.gpu := identity.uuid] else tables.byIndex)
  }

  /** Entries with a blank UUID are skipped. */
  function MergedOne(lib: Library, info: GPUInfo, before: Tables, g: GPUInstance): Tables
  {
    if lib.trim(g.uuid) == "" then before
    else Filed(before, Merge(lib, info, Lookup(before.byUUID, lib.trim(g.uuid)), g))
  }

  /** Machine info laid entry by entry over the DCGM tables. */
  function Merged(lib: Library, info: GPUInfo, base: Tables, n: nat): Tables
    requires n <= |info.gpus|
  {
    if n == 0 then base else MergedOne(lib, info, Merged(lib, info, base, n - 1), info.gpus[n - 1])
  }

  /** Every identity is filed under its own trimmed UUID. */
  ghost predicate SelfNamed(lib: Library, t: Tables)
  {
    forall u :: u in t.byUUID ==> u != "" && lib.trim(u) == u && t.byUUID[u].uuid == u
  }

  /**
   Every identity is filed under its own trimmed UUID; every index points to a
   catalogued GPU that has that index; every indexed GPU's index is present.
   */
  ghost predicate Consistent(lib: Library, t: Tables)
  {
    && SelfNamed(lib, t)
    && (forall g :: g in t.byIndex ==> g != "" && t.byIndex[g] in t.byUUID && t.byUUID[t.byIndex[g]].gpu == g)
    && (forall u :: u in t.byUUID && t.byUUID[u].gpu != "" ==> t.byUUID[u].gpu in t.byIndex)
  }

  /** Filing an identity keeps the tables consistent unless it takes a known index away. */
  lemma FiledKeepsConsistent(lib: Library, t: Tables, identity: GPUIdentity)
    requires Consistent(lib, t) && identity.uuid != "" && lib.trim(identity.uuid) == identity.uuid
    requires Lookup(t.byUUID, identity.uuid).gpu != "" ==> identity.gpu == Lookup(t.byUUID, identity.uuid).gpu
    ensures Consistent(lib, Filed(t, identity))
  {
    var t' := Filed(t, identity);
    forall g | g in t'.byIndex
      ensures g != "" && t'.byIndex[g] in t'.byUUID && t'.byUUID[t'.byIndex[g]].gpu == g
    {
      if g in t.byIndex && t'.byIndex[g] == t.byIndex[g] == identity.uuid {
        assert t.byUUID[identity.uuid].gpu == g;
      }
    }
  }

  lemma {:induction false} MergedKeepsConsistent(lib: Library, info: GPUInfo, base: Tables, n: nat)
    requires Trimmer(lib.trim) && Consistent(lib, base) && n <= |info.gpus|
    ensures Consistent(lib, Merged(lib, info, base, n))
  {
    if n > 0 {
      var before, g := Merged(lib, info, base, n - 1), info.gpus[n - 1];
      MergedKeepsConsistent(lib, info, base, n - 1);
      if lib.trim(g.uuid) != "" {
        FiledKeepsConsistent(lib, before, Merge(lib, info, Lookup(before.byUUID, lib.trim(g.uuid)), g));
      }
    }
  }

  /** The index of the GPU `u` in the tables, or "". */
  function IndexOf(t: Tables, u: string): string
  {
    if u in t.byUUID then t.byUUID[u].gpu else ""
  }

  /** The identity `id` says what machine-info entry `g` says, field by field; an entry without a clique or minor number leaves those. */
  ghost predicate Describes(lib: Library, info: GPUInfo, g: GPUInstance, before: GPUIdentity, id: GPUIdentity)
  {
    && id.uuid == lib.trim(g.uuid)
    && id.gpu == (if before.gpu != "" then before.gpu else lib.trim(g.gpuIndex))
    && id.pciBusID == lib.trim(g.busID)
    && id.gpuSerial == lib.trim(g.sn)
    && id.vbiosVersion == lib.trim(g.vbiosVersion)
    && id.clusterUUID == lib.trim(g.clusterUUID)
    && id.architecture == lib.trim(info.architecture)
    && id.modelName == (if lib.trim(g.modelName) != "" then lib.trim(g.modelName) else lib.trim(info.product))
    && id.cliqueID == (match g.cliqueID case Some(n) => lib.decimal(n) case None => before.cliqueID)
    && id.device == (match lib.atoi(lib.trim(g.minorID))
                     case Some(n) => if n >= 0 then "nvidia" + lib.decimal(n) else before.device
                     case None => before.device)
  }

  /** Machine-info entry `k` is about a GPU and is the last one about it. */
  ghost predicate LastAbout(lib: Library, info: GPUInfo, k: nat)
  {
    && k < |info.gpus| && lib.trim(info.gpus[k].uuid) != ""
    && forall j :: k < j < |info.gpus| ==> lib.trim(info.gpus[j].uuid) != lib.trim(info.gpus[k].uuid)
  }

  lemma EntryDescribes(lib: Library, info: GPUInfo, t: Tables, g: GPUInstance)
    requires lib.trim(g.uuid) != ""
    ensures var u, t' := lib.trim(g.uuid), MergedOne(lib, info, t, g);
      u in t'.byUUID && Describes(lib, info, g, Lookup(t.byUUID, u), t'.byUUID[u])
  {
  }

  lemma OtherEntryKeeps(lib: Library, info: GPUInfo, t: Tables, g: GPUInstance, u: string)
    requires lib.trim(g.uuid) != u
    ensures var t' := MergedOne(lib, info, t, g);
      (u in t'.byUUID <==> u in t.byUUID) && (u in t.byUUID ==> t'.byUUID[u] == t.byUUID[u])
  {
  }

  /** The last machine-info entry about a GPU decides every field of its identity but a known index. */
  lemma {:induction false} LastEntryDecides(lib: Library, info: GPUInfo, base: Tables, k: nat, n: nat)
    requires LastAbout(lib, info, k) && k < n <= |info.gpus|
    ensures var u, t := lib.trim(info.gpus[k].uuid), Merged(lib, info, base, n);
      u in t.byUUID && Describes(lib, info, info.gpus[k], Lookup(Merged(lib, info, base, k).byUUID, u), t.byUUID[u])
    decreases n
  {
    var u := lib.trim(info.gpus[k].uuid);
    if k + 1 < n {
      LastEntryDecides(lib, info, base, k, n - 1);
      OtherEntryKeeps(lib, info, Merged(lib, info, base, n - 1), info.gpus[n - 1], u);
    } else {
      EntryDescribes(lib, info, Merged(lib, info, base, k), info.gpus[k]);
    }
  }

  /** A GPU that machine info does not mention keeps its DCGM identity. */
  lemma {:induction false} UnmentionedIsKept(lib: Library, info: GPUInfo, base: Tables, u: string, n: nat)
    requires n <= |info.gpus| && forall j :: 0 <= j < |info.gpus| ==> lib.trim(info.gpus[j].uuid) != u
    ensures var t := Merged(lib, info, base, n);
      (u in t.byUUID <==> u in base.byUUID) && (u in base.byUUID ==> t.byUUID[u] == base.byUUID[u])
  {
    if n > 0 {
      UnmentionedIsKept(lib, info, base, u, n - 1);
      OtherEntryKeeps(lib, info, Merged(lib, info, base, n - 1), info.gpus[n - 1], u);
    }
  }

  /** Of several GPUs with one index, the index points to the one filed last. */
  lemma {:induction false} LastFiledOwnsIndex(lib: Library, info: GPUInfo, base: Tables, k: nat, n: nat)
    requires k < n <= |info.gpus| && lib.trim(info.gpus[k].uuid) != ""
    requires var u := lib.trim(info.gpus[k].uuid); var g := IndexOf(Merged(lib, info, base, k + 1), u);
      g != "" && forall j :: k < j < n && lib.trim(info.gpus[j].uuid) != "" ==>
        IndexOf(Merged(lib, info, base, j + 1), lib.trim(info.gpus[j].uuid)) != g
    ensures var u := lib.trim(info.gpus[k].uuid); var g := IndexOf(Merged(lib, info, base, k + 1), u);
      var t := Merged(lib, info, base, n); g in t.byIndex && t.byIndex[g] == u
    decreases n
  {
    if k + 1 < n {
      LastFiledOwnsIndex(lib, info, base, k, n - 1);
    }
  }

  lemma IndexIsKeptOnce(lib: Library, info: GPUInfo, t: Tables, g: GPUInstance, u: string)
    requires u in t.byUUID && t.byUUID[u].gpu != ""
    ensures var t' := MergedOne(lib, info, t, g); u in t'.byUUID && t'.byUUID[u].gpu == t.byUUID[u].gpu
  {
  }

  /** Once a GPU has an index, laying machine info over it keeps the index. */
  lemma {:induction false} IndexIsKept(lib: Library, info: GPUInfo, base: Tables, n: nat, u: string)
    requires n <= |info.gpus| && u in base.byUUID && base.byUUID[u].gpu != ""
    ensures var t := Merged(lib, info, base, n); u in t.byUUID && t.byUUID[u].gpu == base.byUUID[u].gpu
  {
    if n > 0 {
      IndexIsKept(lib, info, base, n - 1, u);
      IndexIsKeptOnce(lib, info, Merged(lib, info, base, n - 1), info.gpus[n - 1], u);
    }
  }

  lemma RecordStep(lib: Library, byUUID: map<string, GPUIdentity>, dcgm: map<string, string>, seen: set<string>, raw: string)
    requires Agreeing(lib, dcgm) && FromDcgm(lib, byUUID, dcgm, seen) && raw in dcgm
    ensures FromDcgm(lib, if lib.trim(raw) == "" then byUUID else byUUID[lib.trim(raw) := DcgmIdentity(lib, dcgm, raw)],
                     dcgm, seen + {raw})
  {
    var uuid := lib.trim(raw);
    var next := if uuid == "" then byUUID else byUUID[uuid := DcgmIdentity(lib, dcgm, raw)];
    forall u | u in next
      ensures u != "" && exists r :: r in seen + {raw} && r in dcgm && lib.trim(r) == u
    {
      if u == uuid {
        assert raw in seen + {raw};
      } else {
        var r :| r in seen && r in dcgm && lib.trim(r) == u;
        assert r in seen + {raw};
      }
    }
  }

  /** One turn of the DCGM loop. */
  function DcgmOne(lib: Library, dcgm: map<string, string>, t: Tables, raw: string): Tables
  {
    if lib.trim(raw) == "" then t else Filed(t, DcgmIdentity(lib, dcgm, raw))
  }

  /** The DCGM loop when the range delivers the keys in the given order. */
  function DcgmTables(lib: Library, dcgm: map<string, string>, order: seq<string>): Tables
  {
    if order == [] then Tables(map[], map[])
    else DcgmOne(lib, dcgm, DcgmTables(lib, dcgm, order[..|order| - 1]), order[|order| - 1])
  }

  lemma {:induction false} DcgmTablesConsistent(lib: Library, dcgm: map<string, string>, order: seq<string>)
    requires Trimmer(lib.trim) && Agreeing(lib, dcgm) && Text.Elements(order) <= dcgm.Keys
    ensures var t := DcgmTables(lib, dcgm, order);
      Consistent(lib, t) && FromDcgm(lib, t.byUUID, dcgm, Text.Elements(order))
  {
    if order != [] {
      var last := |order| - 1;
      var raw, before := order[last], DcgmTables(lib, dcgm, order[..last]);
      assert raw in Text.Elements(order);
      DcgmTablesConsistent(lib, dcgm, order[..last]);
      RecordStep(lib, before.byUUID, dcgm, Text.Elements(order[..last]), raw);
      assert order == order[..last] + [raw];
      assert Text.Elements(order) == Text.Elements(order[..last]) + {raw};
      if lib.trim(raw) != "" {
        FiledKeepsConsistent(lib, before, DcgmIdentity(lib, dcgm, raw));
      }
    }
  }

  /** Two keys for one GPU with different indexes leave a dangling index when the indexed one comes first. */
  lemma DisagreementBreaksIt(lib: Library, dcgm: map<string, string>, order: seq<string>, a: string, b: string)
    requires a in dcgm && b in dcgm && lib.trim(a) == lib.trim(b) != ""
    requires lib.trim(dcgm[a]) != lib.trim(dcgm[b]) && lib.trim(dcgm[a]) != ""
    ensures !Consistent(lib, DcgmTables(lib, dcgm, order + [a, b]))
  {
    assert (order + [a, b])[..|order| + 1] == order + [a];
    assert (order + [a])[..|order|] == order;
    assert lib.trim(dcgm[a]) in DcgmTables(lib, dcgm, order + [a, b]).byIndex;
  }

  lemma AgreementSuffices(lib: Library, dcgm: map<string, string>, order: seq<string>)
    requires Trimmer(lib.trim) && Agreeing(lib, dcgm) && Text.Enumerates(order, dcgm.Keys)
    ensures ConsistentInOrder(lib, dcgm, order)
  {
    DcgmTablesConsistent(lib, dcgm, order);
  }

  lemma DisagreementShows(lib: Library, dcgm: map<string, string>) returns (order: seq<string>)
    requires !Agreeing(lib, dcgm)
    ensures Text.Enumerates(order, dcgm.Keys) && !ConsistentInOrder(lib, dcgm, order)
  {
    var a, b :| a in dcgm && b in dcgm && lib.trim(a) == lib.trim(b) != "" && lib.trim(dcgm[a]) != lib.trim(dcgm[b]);
    var first, second := if lib.trim(dcgm[a]) != "" then a else b, if lib.trim(dcgm[a]) != "" then b else a;
    var rest := Text.SortedKeys(dcgm.Keys - {first, second});
    EnumeratesWith(rest, dcgm.Keys, first, second);
    DisagreementBreaksIt(lib, dcgm, rest, first, second);
    order := rest + [first, second];
  }

  /** The DCGM loop gives consistent tables in every order if and only if keys for one GPU agree on its index. */
  lemma ConsistentIffAgreeing(lib: Library, dcgm: map<string, string>)
    requires Trimmer(lib.trim)
    ensures Agreeing(lib, dcgm) <==>
      forall order :: Text.Enumerates(order, dcgm.Keys) ==> ConsistentInOrder(lib, dcgm, order)
  {
    if Agreeing(lib, dcgm) {
      forall order | Text.Enumerates(order, dcgm.Keys)
        ensures ConsistentInOrder(lib, dcgm, order)
      {
        AgreementSuffices(lib, dcgm, order);
      }
    } else {
      var order := DisagreementShows(lib, dcgm);
    }
  }

  /** The finished catalog's tables, for one machine info and one order of the DCGM keys. */
  ghost predicate FinishedConsistent(lib: Library, info: Option<MachineInfo>, dcgm: map<string, string>, order: seq<string>)
  {
    Consistent(lib, Overlaid(lib, info, DcgmTables(lib, dcgm, order)))
  }

  /**
   The finished catalog is consistent, whatever machine info says and in every
   order, if and only if DCGM keys for one GPU agree on its index.
   */
  lemma CatalogConsistentIffAgreeing(lib: Library, dcgm: map<string, string>)
    requires Trimmer(lib.trim)
    ensures Agreeing(lib, dcgm) <==>
      forall info, order :: Text.Enumerates(order, dcgm.Keys) ==> FinishedConsistent(lib, info, dcgm, order)
  {
    if Agreeing(lib, dcgm) {
      forall info, order | Text.Enumerates(order, dcgm.Keys)
        ensures FinishedConsistent(lib, info, dcgm, order)
      {
        DcgmTablesConsistent(lib, dcgm, order);
        OverlaidIsConsistent(lib, info, dcgm, DcgmTables(lib, dcgm, order));
      }
    } else {
      var order := DisagreementShows(lib, dcgm);
      assert Overlaid(lib, None, DcgmTables(lib, dcgm, order)) == DcgmTables(lib, dcgm, order);
      assert !FinishedConsistent(lib, None, dcgm, order);
    }
  }

  ghost predicate ConsistentInOrder(lib: Library, dcgm: map<string, string>, order: seq<string>)
  {
    Consistent(lib, DcgmTables(lib, dcgm, order))
  }

  lemma EnumeratesWith(rest: seq<string>, keys: set<string>, a: string, b: string)
    requires a in keys && b in keys && a != b
    requires Text.StrictlySorted(rest) && Text.Elements(rest) == keys - {a, b}
    ensures Text.Enumerates(rest + [a, b], keys)
  {
    Text.StrictlySortedDistinct(rest);
    var order := rest + [a, b];
    assert forall i :: 0 <= i < |rest| ==> rest[i] in Text.Elements(rest);
    assert Text.Elements(order) == Text.Elements(rest) + {a, b};
  }

  // ------------------------------------------------------------ the two loops

  lemma DcgmTablesAppend(lib: Library, dcgm: map<string, string>, order: seq<string>, raw: string)
    ensures DcgmTables(lib, dcgm, order + [raw]) == DcgmOne(lib, dcgm, DcgmTables(lib, dcgm, order), raw)
  {
    assert (order + [raw])[..|order|] == order;
  }

  /** The loop over DCGM devices; the range takes the keys in any order. */
  method DcgmLoop(lib: Library, dcgm: map<string, string>) returns (t: Tables, order: seq<string>)
    ensures Text.Enumerates(order, dcgm.Keys) && t == DcgmTables(lib, dcgm, order)
  {
    order := Text.ListKeys(dcgm.Keys);
    t := Tables(map[], map[]);
    var i := 0;
    while i < |order|
      invariant 0 <= i <= |order| && t == DcgmTables(lib, dcgm, order[..i])
    {
      assert order[i] in Text.Elements(order);
      assert order[..i + 1] == order[..i] + [order[i]];
      DcgmTablesAppend(lib, dcgm, order[..i], order[i]);
      t := DcgmTurn(lib, dcgm, t, order[i]);
      i := i + 1;
    }
    assert order[..i] == order;
  }

  /** The body of that loop. */
  method DcgmTurn(lib: Library, dcgm: map<string, string>, t0: Tables, raw: string) returns (t: Tables)
    requires raw in dcgm
    ensures t == DcgmOne(lib, dcgm, t0, raw)
  {
    t := t0;
    var uuid, gpu := lib.trim(raw), lib.trim(dcgm[raw]);
    if uuid == "" {
      return;
    }
    t := t.(byUUID := t.byUUID[uuid := NO_IDENTITY.(uuid := uuid, gpu := gpu)]);
    if gpu != "" {
      t := t.(byIndex := t.byIndex[gpu := uuid]);
    }
  }

  /** The loop over machine info; duplicates and index clashes are allowed. */
  method MachineInfoLoop(lib: Library, info: GPUInfo, base: Tables) returns (t: Tables)
    ensures t == Merged(lib, info, base, |info.gpus|)
  {
    t := base;
    var i := 0;
    while i < |info.gpus|
      invariant 0 <= i <= |info.gpus|
      invariant t == Merged(lib, info, base, i)
    {
      var g := info.gpus[i];
      var uuid := lib.trim(g.uuid);
      if uuid != "" {
        var identity := Merge(lib, info, Lookup(t.byUUID, uuid), g);
        t := t.(byUUID := t.byUUID[uuid := identity]);
        if identity.gpu != "" {
          t := t.(byIndex := t.byIndex[identity.gpu := uuid]);
        }
      }
      i := i + 1;
    }
  }

  /** The tables once machine info, if any, is laid over the DCGM ones. */
  function Overlaid(lib: Library, info: Option<MachineInfo>, base: Tables): Tables
  {
    if info.Some? && info.value.gpuInfo.Some?
    then Merged(lib, info.value.gpuInfo.value, base, |info.value.gpuInfo.value.gpus|) else base
  }

  /** Whatever machine info says, the catalog is consistent and keeps every non-empty DCGM index. */
  lemma OverlaidIsConsistent(lib: Library, info: Option<MachineInfo>, dcgm: map<string, string>, base: Tables)
    requires Trimmer(lib.trim) && FromDcgm(lib, base.byUUID, dcgm, dcgm.Keys) && Consistent(lib, base)
    ensures Consistent(lib, Overlaid(lib, info, base))
    ensures KeepsDcgmIndexes(lib, dcgm, Overlaid(lib, info, base))
  {
    if info.Some? && info.value.gpuInfo.Some? {
      var gpus := info.value.gpuInfo.value;
      MergedKeepsConsistent(lib, gpus, base, |gpus.gpus|);
      forall raw | raw in dcgm && lib.trim(raw) != "" && lib.trim(dcgm[raw]) != ""
        ensures var t := Overlaid(lib, info, base);
          lib.trim(raw) in t.byUUID && t.byUUID[lib.trim(raw)].gpu == lib.trim(dcgm[raw])
      {
        IndexIsKept(lib, gpus, base, |gpus.gpus|, lib.trim(raw));
      }
    }
  }

  lemma {:induction false} DcgmTablesSelfNamed(lib: Library, dcgm: map<string, string>, order: seq<string>)
    requires Trimmer(lib.trim)
    ensures SelfNamed(lib, DcgmTables(lib, dcgm, order))
  {
    if order != [] {
      DcgmTablesSelfNamed(lib, dcgm, order[..|order| - 1]);
    }
  }

  lemma {:induction false} MergedSelfNamed(lib: Library, info: GPUInfo, base: Tables, n: nat)
    requires Trimmer(lib.trim) && SelfNamed(lib, base) && n <= |info.gpus|
    ensures SelfNamed(lib, Merged(lib, info, base, n))
  {
    if n > 0 {
      MergedSelfNamed(lib, info, base, n - 1);
    }
  }

  /** Whatever the DCGM keys and machine info say, every identity is filed under its own UUID. */
  lemma CatalogSelfNamed(lib: Library, info: Option<MachineInfo>, dcgm: map<string, string>, order: seq<string>)
    requires Trimmer(lib.trim)
    ensures SelfNamed(lib, Overlaid(lib, info, DcgmTables(lib, dcgm, order)))
  {
    DcgmTablesSelfNamed(lib, dcgm, order);
    if info.Some? && info.value.gpuInfo.Some? {
      MergedSelfNamed(lib, info.value.gpuInfo.value, DcgmTables(lib, dcgm, order), |info.value.gpuInfo.value.gpus|);
    }
  }

  ghost predicate KeepsDcgmIndexes(lib: Library, dcgm: map<string, string>, t: Tables)
  {
    forall raw :: raw in dcgm && lib.trim(raw) != "" && lib.trim(dcgm[raw]) != "" ==>
      lib.trim(raw) in t.byUUID && t.byUUID[lib.trim(raw)].gpu == lib.trim(dcgm[raw])
  }

  /** The tables are what the two loops compute when the first takes the keys in the given order. */
  ghost predicate BuiltInOrder(lib: Library, info: Option<MachineInfo>, dcgm: map<string, string>, order: seq<string>, t: Tables)
  {
    t == Overlaid(lib, info, DcgmTables(lib, dcgm, order))
  }

  /** `NewEntityCatalog`. */
  method NewEntityCatalog(lib: Library, info: Option<MachineInfo>, dcgm: map<string, string>) returns (c: Catalog)
    requires Trimmer(lib.trim)
    ensures SelfNamed(lib, c.tables)
    ensures Agreeing(lib, dcgm) ==> Consistent(lib, c.tables) && KeepsDcgmIndexes(lib, dcgm, c.tables)
    ensures exists order :: Text.Enumerates(order, dcgm.Keys) && BuiltInOrder(lib, info, dcgm, order, c.tables)
    ensures info.None? ==> c.(tables := Tables(map[], map[])) == Catalog("", "", "", "", None, Tables(map[], map[]))
    ensures info.Some? ==>
      && c.hostname == lib.trim(info.value.hostname) && c.kernelVersion == lib.trim(info.value.kernelVersion)
      && c.gpuDriverVersion == lib.trim(info.value.gpuDriverVersion) && c.cudaDriverVersion == lib.trim(info.value.cudaVersion)
      && c.bootTime == info.value.uptime
  {
    var base, order := DcgmLoop(lib, dcgm);
    c := Catalog("", "", "", "", None, base);
    if info.Some? {
      var m := info.value;
      c := Catalog(lib.trim(m.hostname), lib.trim(m.gpuDriverVersion), lib.trim(m.cudaVersion), lib.trim(m.kernelVersion),
                   m.uptime, base);
      if m.gpuInfo.Some? {
        var t := MachineInfoLoop(lib, m.gpuInfo.value, base);
        c := c.(tables := t);
      }
    }
    assert BuiltInOrder(lib, info, dcgm, order, c.tables);
    CatalogSelfNamed(lib, info, dcgm, order);
    if Agreeing(lib, dcgm) {
      DcgmTablesConsistent(lib, dcgm, order);
      OverlaidIsConsistent(lib, info, dcgm, base);
    }
  }
}
