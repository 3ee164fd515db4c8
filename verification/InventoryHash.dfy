/**
 The inventory hash (internal/inventory/hash.go): the normal form whose
 serialisation is hashed, and exactly which snapshots it identifies.

 `json.Marshal` of a list item and of the whole normal form are parameters; the
 theorems take them to be injective.  A Go slice is `Nil` or `Items`: the two
 serialise differently, and copying with `append([]T(nil), xs...)` turns an
 empty non-nil slice into nil.
 */
module InventoryHash {
  import opened Prelude
  import opened Text

  datatype Slice<T> = Nil | Items(xs: seq<T>)

  function Elems<T>(s: Slice<T>): seq<T>
  {
    if s.Nil? then [] else s.xs
  }

  datatype Host = Host(
    hostname: string, machineID: string, systemUUID: string, bootID: string, uptime: int,
    operatingSystem: string, osImage: string, kernelVersion: string, agentVersion: string,
    gpuDriverVersion: string, cudaVersion: string, dcgmVersion: string,
    containerRuntimeVersion: string, netPrivateIP: string)

  datatype AgentConfig = AgentConfig(
    totalComponents: int, retentionPeriodSeconds: int, metricScrapeIntervalSeconds: int,
    enabledComponents: Slice<string>, disabledComponents: Slice<string>,
    inventoryEnabled: bool, inventoryIntervalSeconds: int,
    attestationEnabled: bool, attestationIntervalSeconds: int)

  datatype GPUDevice = GPUDevice(
    uuid: string, busID: string, clusterUUID: string, cliqueID: Option<nat>, sn: string,
    minorID: string, boardID: int, vbiosVersion: string, chassisSN: string, gpuIndex: string)

  datatype BlockDevice = BlockDevice(
    name: string, kind: string, size: int, wwn: string, mountPoint: string,
    fsType: string, partUUID: string, parents: Slice<string>)

  datatype NICInterface = NICInterface(name: string, mac: string, ip: string)

  datatype Resources = Resources(
    cpuType: string, cpuManufacturer: string, cpuArchitecture: string, logicalCores: int, memoryBytes: nat,
    gpuProduct: string, gpuManufacturer: string, gpuArchitecture: string, gpuMemory: string,
    gpus: Slice<GPUDevice>,
    containerRootDisk: string, blockDevices: Slice<BlockDevice>,
    privateIPInterfaces: Slice<NICInterface>)

  datatype Snapshot = Snapshot(
    collectedAt: int, inventoryHash: string, host: Host, agentConfig: AgentConfig, resources: Resources)

  /** How the three kinds of list item serialise. */
  datatype Encoders = Encoders(gpu: GPUDevice -> string, disk: BlockDevice -> string, nic: NICInterface -> string)

  ghost predicate Faithful(enc: Encoders)
  {
    Injective(enc.gpu) && Injective(enc.disk) && Injective(enc.nic)
  }

  // ------------------------------------------------------------ the normal form

  /** `append([]T(nil), xs...)`. */
  function Copied<T>(xs: seq<T>): Slice<T>
  {
    if xs == [] then Nil else Items(xs)
  }

  /** `sortedStrings`. */
  function SortedStrings(values: Slice<string>): Slice<string>
  {
    if values.Nil? then Nil else Copied(SortStrings(values.xs))
  }

  /** `sortedByCanonicalJSON`. */
  function SortedByCanonicalJSON<T>(encode: T -> string, values: Slice<T>): Slice<T>
  {
    if values.Nil? then Nil else Items(SortBy(encode, values.xs))
  }

  function NormalDevice(d: BlockDevice): BlockDevice
  {
    d.(parents := SortedStrings(d.parents))
  }

  function Map<S, T>(f: S -> T, xs: seq<S>): (r: seq<T>)
    ensures |r| == |xs|
    ensures forall i :: 0 <= i < |xs| ==> r[i] == f(xs[i])
  {
    if xs == [] then [] else [f(xs[0])] + Map(f, xs[1..])
  }

  /** `normalizedBlockDevices`. */
  function NormalizedBlockDevices(encode: BlockDevice -> string, values: Slice<BlockDevice>): Slice<BlockDevice>
  {
    if values.Nil? then Nil
    else SortedByCanonicalJSON(encode, Copied(Map(NormalDevice, values.xs)))
  }

  const ZERO_TIME: int := 0

  function Normalize(enc: Encoders, s: Snapshot): Snapshot
  {
    s.(collectedAt := ZERO_TIME,
       inventoryHash := "",
       agentConfig := s.agentConfig.(
         enabledComponents := SortedStrings(s.agentConfig.enabledComponents),
         disabledComponents := SortedStrings(s.agentConfig.disabledComponents)),
       resources := s.resources.(
         gpus := SortedByCanonicalJSON(enc.gpu, s.resources.gpus),
         blockDevices := NormalizedBlockDevices(enc.disk, s.resources.blockDevices),
         privateIPInterfaces := SortedByCanonicalJSON(enc.nic, s.resources.privateIPInterfaces)))
  }

  // ------------------------------------------------------------ what the hash ignores

  /** Same strings in any order; nil and empty alike. */
  ghost predicate SameStrings(a: Slice<string>, b: Slice<string>)
  {
    multiset(Elems(a)) == multiset(Elems(b))
  }

  /** Same items in any order; nil and empty kept apart. */
  ghost predicate SameItems<T>(a: Slice<T>, b: Slice<T>)
  {
    (a.Nil? <==> b.Nil?) && multiset(Elems(a)) == multiset(Elems(b))
  }

  ghost predicate SameDevice(d: BlockDevice, e: BlockDevice)
  {
    d.(parents := Nil) == e.(parents := Nil) && SameStrings(d.parents, e.parents)
  }

  /** `c` is a reordering of `ys` that matches `xs` device by device. */
  ghost predicate Matches(xs: seq<BlockDevice>, c: seq<BlockDevice>, ys: seq<BlockDevice>)
  {
    && multiset(c) == multiset(ys) && |c| == |xs|
    && forall i :: 0 <= i < |xs| ==> SameDevice(xs[i], c[i])
  }

  ghost predicate SameDevices(a: Slice<BlockDevice>, b: Slice<BlockDevice>)
  {
    exists c :: Matches(Elems(a), c, Elems(b))
  }

  /**
   Agreement up to the collection time, the stored hash, the order of the
   set-like lists, and nil versus empty for the four lists whose copy collapses it.
   */
  ghost predicate Equivalent(s: Snapshot, t: Snapshot)
  {
    && s.host == t.host
    && s.agentConfig.(enabledComponents := Nil, disabledComponents := Nil)
       == t.agentConfig.(enabledComponents := Nil, disabledComponents := Nil)
    && s.resources.(gpus := Nil, blockDevices := Nil, privateIPInterfaces := Nil)
       == t.resources.(gpus := Nil, blockDevices := Nil, privateIPInterfaces := Nil)
    && SameStrings(s.agentConfig.enabledComponents, t.agentConfig.enabledComponents)
    && SameStrings(s.agentConfig.disabledComponents, t.agentConfig.disabledComponents)
    && SameItems(s.resources.gpus, t.resources.gpus)
    && SameDevices(s.resources.blockDevices, t.resources.blockDevices)
    && SameItems(s.resources.privateIPInterfaces, t.resources.privateIPInterfaces)
  }

  // ------------------------------------------------------------ list by list

  lemma StringsAgree(a: Slice<string>, b: Slice<string>)
    ensures SortedStrings(a) == SortedStrings(b) <==> SameStrings(a, b)
  {
    SortForgetsOrder(Self, Elems(a), Elems(b));
    assert Elems(SortedStrings(a)) == SortStrings(Elems(a));
    assert Elems(SortedStrings(b)) == SortStrings(Elems(b));
  }

  lemma ItemsAgree<T(!new)>(encode: T -> string, a: Slice<T>, b: Slice<T>)
    requires Injective(encode)
    ensures SortedByCanonicalJSON(encode, a) == SortedByCanonicalJSON(encode, b) <==> SameItems(a, b)
  {
    SortForgetsOrder(encode, Elems(a), Elems(b));
  }

  lemma DeviceAgrees(d: BlockDevice, e: BlockDevice)
    ensures NormalDevice(d) == NormalDevice(e) <==> SameDevice(d, e)
  {
    StringsAgree(d.parents, e.parents);
  }

  function Without<T>(ys: seq<T>, j: nat): (r: seq<T>)
    requires j < |ys|
    ensures |r| == |ys| - 1
    ensures forall i :: 0 <= i < |r| ==> r[i] == ys[if i < j then i else i + 1]
  {
    ys[..j] + ys[j + 1..]
  }

  lemma WithoutMultiset<T>(ys: seq<T>, j: nat)
    requires j < |ys|
    ensures multiset(ys) == multiset(Without(ys, j)) + multiset{ys[j]}
  {
    assert ys == ys[..j] + [ys[j]] + ys[j + 1..];
  }

  lemma WithoutMap<S, T>(f: S -> T, ys: seq<S>, j: nat)
    requires j < |ys|
    ensures Map(f, Without(ys, j)) == Without(Map(f, ys), j)
  {
  }

  lemma WithoutBoth<T>(xs: seq<T>, i: nat, ys: seq<T>, j: nat)
    requires i < |xs| && j < |ys| && xs[i] == ys[j] && multiset(xs) == multiset(ys)
    ensures multiset(Without(xs, i)) == multiset(Without(ys, j))
  {
    WithoutMultiset(xs, i);
    WithoutMultiset(ys, j);
    assert multiset(Without(xs, i)) == multiset(xs) - multiset{xs[i]};
    assert multiset(Without(ys, j)) == multiset(ys) - multiset{ys[j]};
  }

  lemma SameSize<T>(xs: seq<T>, ys: seq<T>)
    requires multiset(xs) == multiset(ys)
    ensures |xs| == |ys|
  {
    assert |xs| == |multiset(xs)| == |multiset(ys)| == |ys|;
  }

  lemma FindEqual<T>(x: T, xs: seq<T>, ys: seq<T>) returns (j: nat)
    requires x in xs && multiset(xs) == multiset(ys)
    ensures j < |ys| && ys[j] == x
  {
    assert x in multiset(ys);
    j :| 0 <= j < |ys| && ys[j] == x;
  }

  lemma {:induction false} MapMultiset<S, T>(f: S -> T, xs: seq<S>, ys: seq<S>)
    requires multiset(xs) == multiset(ys)
    ensures multiset(Map(f, xs)) == multiset(Map(f, ys))
    decreases |xs|
  {
    SameSize(xs, ys);
    if xs != [] {
      var j := FindEqual(xs[0], xs, ys);
      WithoutBoth(xs, 0, ys, j);
      MapMultiset(f, Without(xs, 0), Without(ys, j));
      WithoutMap(f, xs, 0);
      WithoutMap(f, ys, j);
      WithoutMultiset(Map(f, xs), 0);
      WithoutMultiset(Map(f, ys), j);
    }
  }

  /** Lists of normal devices that agree as multisets come from matching lists. */
  lemma {:induction false} FindMatch(xs: seq<BlockDevice>, ys: seq<BlockDevice>) returns (c: seq<BlockDevice>)
    requires multiset(Map(NormalDevice, xs)) == multiset(Map(NormalDevice, ys))
    ensures Matches(xs, c, ys)
    decreases |xs|
  {
    var mx, my := Map(NormalDevice, xs), Map(NormalDevice, ys);
    SameSize(mx, my);
    if xs == [] {
      c := [];
    } else {
      var j := FindEqual(mx[0], mx, my);
      WithoutBoth(mx, 0, my, j);
      WithoutMap(NormalDevice, xs, 0);
      WithoutMap(NormalDevice, ys, j);
      var rest := FindMatch(Without(xs, 0), Without(ys, j));
      DeviceAgrees(xs[0], ys[j]);
      c := [ys[j]] + rest;
      MatchesCons(xs, rest, ys, j);
    }
  }

  lemma MatchesCons(xs: seq<BlockDevice>, rest: seq<BlockDevice>, ys: seq<BlockDevice>, j: nat)
    requires xs != [] && j < |ys| && SameDevice(xs[0], ys[j])
    requires Matches(Without(xs, 0), rest, Without(ys, j))
    ensures Matches(xs, [ys[j]] + rest, ys)
  {
    var c := [ys[j]] + rest;
    WithoutMultiset(ys, j);
    forall i | 0 <= i < |xs|
      ensures SameDevice(xs[i], c[i])
    {
      if i > 0 {
        assert Without(xs, 0)[i - 1] == xs[i] && rest[i - 1] == c[i];
      }
    }
  }

  lemma MatchMaps(xs: seq<BlockDevice>, c: seq<BlockDevice>, ys: seq<BlockDevice>)
    requires Matches(xs, c, ys)
    ensures multiset(Map(NormalDevice, xs)) == multiset(Map(NormalDevice, ys))
  {
    forall i | 0 <= i < |xs|
      ensures NormalDevice(xs[i]) == NormalDevice(c[i])
    {
      DeviceAgrees(xs[i], c[i]);
    }
    assert Map(NormalDevice, xs) == Map(NormalDevice, c);
    MapMultiset(NormalDevice, c, ys);
  }

  lemma DevicesAgree(encode: BlockDevice -> string, a: Slice<BlockDevice>, b: Slice<BlockDevice>)
    requires Injective(encode)
    ensures NormalizedBlockDevices(encode, a) == NormalizedBlockDevices(encode, b) <==> SameDevices(a, b)
  {
    var ma, mb := Map(NormalDevice, Elems(a)), Map(NormalDevice, Elems(b));
    SortForgetsOrder(encode, ma, mb);
    assert Elems(NormalizedBlockDevices(encode, a)) == SortBy(encode, ma);
    assert Elems(NormalizedBlockDevices(encode, b)) == SortBy(encode, mb);
    if multiset(ma) == multiset(mb) {
      assert |ma| == |multiset(ma)| == |multiset(mb)| == |mb|;
      var c := FindMatch(Elems(a), Elems(b));
    }
    if SameDevices(a, b) {
      var c :| Matches(Elems(a), c, Elems(b));
      MatchMaps(Elems(a), c, Elems(b));
      assert |ma| == |multiset(ma)| == |multiset(mb)| == |mb|;
    }
  }

  // ------------------------------------------------------------ theorems

  lemma NormalFormsAgree(enc: Encoders, s: Snapshot, t: Snapshot)
    requires Faithful(enc)
    ensures Normalize(enc, s) == Normalize(enc, t) <==> Equivalent(s, t)
  {
    StringsAgree(s.agentConfig.enabledComponents, t.agentConfig.enabledComponents);
    StringsAgree(s.agentConfig.disabledComponents, t.agentConfig.disabledComponents);
    ItemsAgree(enc.gpu, s.resources.gpus, t.resources.gpus);
    DevicesAgree(enc.disk, s.resources.blockDevices, t.resources.blockDevices);
    ItemsAgree(enc.nic, s.resources.privateIPInterfaces, t.resources.privateIPInterfaces);
  }

  /** Serialisation of a whole snapshot; it may fail, as for a time outside the years 0 to 9999. */
  type Marshal = Snapshot -> Option<string>

  /** Snapshots that serialise alike are equal. */
  ghost predicate Separates(marshal: Marshal)
  {
    forall s, t :: marshal(s).Some? && marshal(s) == marshal(t) ==> s == t
  }

  /** What `ComputeHash` feeds to SHA-256. */
  function Payload(marshal: Marshal, enc: Encoders, s: Snapshot): Option<string>
  {
    marshal(Normalize(enc, s))
  }

  /** A snapshot with a payload shares it with exactly the equivalent snapshots; equivalent snapshots fail alike. */
  lemma PayloadsAgreeIffEquivalent(marshal: Marshal, enc: Encoders, s: Snapshot, t: Snapshot)
    requires Separates(marshal) && Faithful(enc)
    ensures Payload(marshal, enc, s).Some? ==> (Payload(marshal, enc, s) == Payload(marshal, enc, t) <==> Equivalent(s, t))
    ensures Equivalent(s, t) ==> Payload(marshal, enc, s) == Payload(marshal, enc, t)
  {
    NormalFormsAgree(enc, s, t);
  }

  lemma NormalStringsFixed(a: Slice<string>)
    ensures SortedStrings(SortedStrings(a)) == SortedStrings(a)
  {
    SortIdempotent(Self, Elems(a));
  }

  lemma NormalDevicesFixed(encode: BlockDevice -> string, a: Slice<BlockDevice>)
    requires Injective(encode)
    ensures NormalizedBlockDevices(encode, NormalizedBlockDevices(encode, a)) == NormalizedBlockDevices(encode, a)
  {
    SortedNormalDevices(encode, Elems(a));
    SortIdempotent(encode, Map(NormalDevice, Elems(a)));
  }

  lemma SortedNormalDevices(encode: BlockDevice -> string, xs: seq<BlockDevice>)
    ensures var sorted := SortBy(encode, Map(NormalDevice, xs));
      Map(NormalDevice, sorted) == sorted
  {
    var mapped := Map(NormalDevice, xs);
    var sorted := SortBy(encode, mapped);
    SortByCorrect(encode, mapped);
    forall i | 0 <= i < |sorted|
      ensures NormalDevice(sorted[i]) == sorted[i]
    {
      var j := FindEqual(sorted[i], sorted, mapped);
      NormalStringsFixed(xs[j].parents);
    }
  }

  /** Normalising a normal form changes nothing. */
  lemma NormalizeIsIdempotent(enc: Encoders, s: Snapshot)
    requires Faithful(enc)
    ensures Normalize(enc, Normalize(enc, s)) == Normalize(enc, s)
  {
    NormalStringsFixed(s.agentConfig.enabledComponents);
    NormalStringsFixed(s.agentConfig.disabledComponents);
    NormalDevicesFixed(enc.disk, s.resources.blockDevices);
    SortIdempotent(enc.gpu, Elems(s.resources.gpus));
    SortIdempotent(enc.nic, Elems(s.resources.privateIPInterfaces));
  }

  /** The lists of a normal form are in ascending order: strings by themselves, items by their serialisation. */
  lemma NormalListsAreSorted(enc: Encoders, s: Snapshot)
    ensures var n := Normalize(enc, s);
      && Sorted(Self, Elems(n.agentConfig.enabledComponents)) && Sorted(Self, Elems(n.agentConfig.disabledComponents))
      && Sorted(enc.gpu, Elems(n.resources.gpus)) && Sorted(enc.nic, Elems(n.resources.privateIPInterfaces))
      && Sorted(enc.disk, Elems(n.resources.blockDevices))
      && forall i :: 0 <= i < |Elems(n.resources.blockDevices)| ==> Sorted(Self, Elems(Elems(n.resources.blockDevices)[i].parents))
  {
    SortByCorrect(Self, Elems(s.agentConfig.enabledComponents));
    SortByCorrect(Self, Elems(s.agentConfig.disabledComponents));
    SortByCorrect(enc.gpu, Elems(s.resources.gpus));
    SortByCorrect(enc.nic, Elems(s.resources.privateIPInterfaces));
    DevicesAreSorted(enc.disk, Elems(s.resources.blockDevices));
  }

  lemma DevicesAreSorted(encode: BlockDevice -> string, xs: seq<BlockDevice>)
    ensures var sorted := SortBy(encode, Map(NormalDevice, xs));
      Sorted(encode, sorted) && forall i :: 0 <= i < |sorted| ==> Sorted(Self, Elems(sorted[i].parents))
  {
    var mapped := Map(NormalDevice, xs);
    var sorted := SortBy(encode, mapped);
    SortByCorrect(encode, mapped);
    forall i | 0 <= i < |sorted|
      ensures Sorted(Self, Elems(sorted[i].parents))
    {
      var j := FindEqual(sorted[i], sorted, mapped);
      SortByCorrect(Self, Elems(xs[j].parents));
    }
  }

  /** Nil and empty: one hash for the four copied lists, two for the GPU and interface lists. */
  lemma NilVersusEmpty(marshal: Marshal, enc: Encoders, s: Snapshot, d: BlockDevice)
    requires Separates(marshal) && Faithful(enc)
    ensures var c, r := s.agentConfig, s.resources;
      && Payload(marshal, enc, s.(agentConfig := c.(enabledComponents := Nil)))
         == Payload(marshal, enc, s.(agentConfig := c.(enabledComponents := Items([]))))
      && Payload(marshal, enc, s.(agentConfig := c.(disabledComponents := Nil)))
         == Payload(marshal, enc, s.(agentConfig := c.(disabledComponents := Items([]))))
      && Payload(marshal, enc, s.(resources := r.(blockDevices := Nil)))
         == Payload(marshal, enc, s.(resources := r.(blockDevices := Items([]))))
      && Payload(marshal, enc, s.(resources := r.(blockDevices := Items([d.(parents := Nil)]))))
         == Payload(marshal, enc, s.(resources := r.(blockDevices := Items([d.(parents := Items([]))]))))
    ensures var r := s.resources;
      && Distinguishes(marshal, enc, s.(resources := r.(gpus := Nil)), s.(resources := r.(gpus := Items([]))))
      && Distinguishes(marshal, enc, s.(resources := r.(privateIPInterfaces := Nil)),
                       s.(resources := r.(privateIPInterfaces := Items([]))))
  {
    var r := s.resources;
    assert Map(NormalDevice, [d.(parents := Nil)]) == Map(NormalDevice, [d.(parents := Items([]))]);
    assert Normalize(enc, s.(resources := r.(gpus := Nil))).resources.gpus.Nil?;
    assert Normalize(enc, s.(resources := r.(privateIPInterfaces := Nil))).resources.privateIPInterfaces.Nil?;
  }

  /** The two snapshots have different payloads, unless neither has one. */
  predicate Distinguishes(marshal: Marshal, enc: Encoders, s: Snapshot, t: Snapshot)
  {
    Payload(marshal, enc, s) == Payload(marshal, enc, t) ==> Payload(marshal, enc, s) == None
  }

  // ------------------------------------------------------------ the code's own steps

  /** A slice in memory: null is nil. */
  function View<T>(a: array?<T>): Slice<T>
    reads a
  {
    if a == null then Nil else Items(a[..])
  }

  /** `sort.Strings`, in place. */
  method SortInPlace(a: array<string>)
    modifies a
    ensures a[..] == SortStrings(old(a[..]))
  {
    var sorted := SortStrings(a[..]);
    forall i | 0 <= i < a.Length {
      a[i] := sorted[i];
    }
  }

  /** `append([]T(nil), values...)`. */
  method CopySlice<T>(values: array<T>) returns (copied: array?<T>)
    ensures copied != null ==> fresh(copied)
    ensures View(copied) == Copied(values[..])
  {
    if values.Length == 0 {
      return null;
    }
    copied := new T[values.Length](i requires 0 <= i < values.Length reads values => values[i]);
    assert copied[..] == values[..];
  }

  /** The result is a fresh slice; the argument is left as it was. */
  method SortedStringsOf(values: array?<string>) returns (sorted: array?<string>)
    ensures sorted != null ==> fresh(sorted)
    ensures View(sorted) == SortedStrings(View(values))
  {
    if values == null {
      return null;
    }
    sorted := CopySlice(values);
    if sorted != null {
      SortInPlace(sorted);
    }
  }

  /** An item beside its serialisation. */
  datatype Sortable<T> = Sortable(value: T, encoded: string)

  function Encoded<T>(item: Sortable<T>): string { item.encoded }

  function Decorate<T>(encode: T -> string, xs: seq<T>): (r: seq<Sortable<T>>)
    ensures |r| == |xs|
    ensures forall i :: 0 <= i < |xs| ==> r[i] == Sortable(xs[i], encode(xs[i]))
  {
    if xs == [] then [] else [Sortable(xs[0], encode(xs[0]))] + Decorate(encode, xs[1..])
  }

  lemma {:induction false} InsertDecorated<T>(encode: T -> string, x: T, xs: seq<T>)
    ensures Insert(Encoded, Sortable(x, encode(x)), Decorate(encode, xs)) == Decorate(encode, Insert(encode, x, xs))
  {
    if xs != [] && Less(encode(xs[0]), encode(x)) {
      InsertDecorated(encode, x, xs[1..]);
      assert Decorate(encode, xs)[1..] == Decorate(encode, xs[1..]);
      var rest := Insert(encode, x, xs[1..]);
      assert ([xs[0]] + rest)[1..] == rest;
    } else {
      assert ([x] + xs)[1..] == xs;
    }
  }

  /** Sorting decorated items by their stored serialisation sorts the items by theirs. */
  lemma {:induction false} SortDecorated<T>(encode: T -> string, xs: seq<T>)
    ensures SortBy(Encoded, Decorate(encode, xs)) == Decorate(encode, SortBy(encode, xs))
  {
    if xs != [] {
      SortDecorated(encode, xs[1..]);
      assert Decorate(encode, xs)[1..] == Decorate(encode, xs[1..]);
      InsertDecorated(encode, xs[0], SortBy(encode, xs[1..]));
    }
  }

  /** Serialise each item once, sort the pairs, keep the values. */
  method SortedByCanonicalJSONOf<T(0)>(encode: T -> string, values: array?<T>) returns (sorted: array?<T>)
    ensures sorted != null ==> fresh(sorted)
    ensures View(sorted) == SortedByCanonicalJSON(encode, View(values))
  {
    if values == null {
      return null;
    }
    var items := EncodeItems(encode, values);
    SortDecorated(encode, values[..]);
    items := SortBy(Encoded, items);
    sorted := KeepValues(items);
    assert sorted[..] == SortBy(encode, values[..]);
  }

  method KeepValues<T(0)>(items: seq<Sortable<T>>) returns (sorted: array<T>)
    ensures fresh(sorted) && sorted.Length == |items|
    ensures forall k :: 0 <= k < |items| ==> sorted[k] == items[k].value
  {
    sorted := new T[|items|];
    var i := 0;
    while i < |items|
      invariant 0 <= i <= |items|
      invariant forall k :: 0 <= k < i ==> sorted[k] == items[k].value
    {
      sorted[i] := items[i].value;
      i := i + 1;
    }
  }

  method EncodeItems<T>(encode: T -> string, values: array<T>) returns (items: seq<Sortable<T>>)
    ensures items == Decorate(encode, values[..])
  {
    items := [];
    var i := 0;
    while i < values.Length
      invariant 0 <= i <= values.Length && |items| == i
      invariant forall k :: 0 <= k < i ==> items[k] == Sortable(values[k], encode(values[k]))
    {
      items := items + [Sortable(values[i], encode(values[i]))];
      i := i + 1;
    }
  }

  /** Copy, overwrite `parents` in the copy, sort the copy. */
  method NormalizedBlockDevicesOf(encode: BlockDevice -> string, values: array?<BlockDevice>) returns (sorted: array?<BlockDevice>)
    ensures sorted != null ==> fresh(sorted)
    ensures View(sorted) == NormalizedBlockDevices(encode, View(values))
  {
    if values == null {
      return null;
    }
    var normalized := CopySlice(values);
    if normalized != null {
      var i := 0;
      while i < normalized.Length
        invariant 0 <= i <= normalized.Length == values.Length
        invariant values[..] == old(values[..])
        invariant forall k :: 0 <= k < i ==> normalized[k] == NormalDevice(values[k])
        invariant forall k :: i <= k < normalized.Length ==> normalized[k] == values[k]
      {
        normalized[i] := normalized[i].(parents := SortedStrings(values[i].parents));
        i := i + 1;
      }
      assert normalized[..] == Map(NormalDevice, values[..]);
    }
    sorted := SortedByCanonicalJSONOf(encode, normalized);
  }

  /** A snapshot in memory: its five top-level lists are slices, everything else is a value. */
  datatype Stored = Stored(
    rest: Snapshot,
    enabled: array?<string>, disabled: array?<string>,
    gpus: array?<GPUDevice>, disks: array?<BlockDevice>, nics: array?<NICInterface>)

  /** The snapshot that memory holds. */
  function Loaded(s: Stored): Snapshot
    reads s.enabled, s.disabled, s.gpus, s.disks, s.nics
  {
    s.rest.(
      agentConfig := s.rest.agentConfig.(enabledComponents := View(s.enabled), disabledComponents := View(s.disabled)),
      resources := s.rest.resources.(
        gpus := View(s.gpus), blockDevices := View(s.disks), privateIPInterfaces := View(s.nics)))
  }

  /** `ComputeHash` up to the payload: nil is refused, and nothing the snapshot refers to is changed. */
  method ComputePayload(marshal: Marshal, enc: Encoders, snap: Option<Stored>) returns (payload: Option<string>)
    ensures snap.None? ==> payload.None?
    ensures snap.Some? ==> payload == Payload(marshal, enc, Loaded(snap.value))
    ensures snap.Some? ==> Loaded(snap.value) == old(Loaded(snap.value))
  {
    if snap.None? {
      return None;
    }
    var normalized := snap.value;
    normalized := normalized.(rest := normalized.rest.(collectedAt := ZERO_TIME, inventoryHash := ""));
    var enabled := SortedStringsOf(snap.value.enabled);
    var disabled := SortedStringsOf(snap.value.disabled);
    var gpus := SortedByCanonicalJSONOf(enc.gpu, snap.value.gpus);
    var disks := NormalizedBlockDevicesOf(enc.disk, snap.value.disks);
    var nics := SortedByCanonicalJSONOf(enc.nic, snap.value.nics);
    normalized := normalized.(enabled := enabled, disabled := disabled, gpus := gpus, disks := disks, nics := nics);
    assert Loaded(normalized) == Normalize(enc, Loaded(snap.value));
    payload := marshal(Loaded(normalized));
  }
}
