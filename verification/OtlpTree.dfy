/**
 The conversion of decoded JSON to OTLP value trees
 (internal/exporter/converter/otlp.go).  A JSON object is a map: its members have
 no order (section 4 of RFC 8259), and Go ranges over them in any order.
 */
module OtlpTree {
  import opened Prelude
  import opened Text

  datatype Json =
    | Null
    | Bool(b: bool)
    | Number(n: real)
    | String(s: string)
    | Array(items: seq<Json>)
    | Object(members: map<string, Json>)

  datatype KeyValue = KeyValue(key: string, value: AnyValue)

  datatype AnyValue =
    | BoolValue(b: bool)
    | DoubleValue(n: real)
    | StringValue(s: string)
    | ArrayValue(values: seq<AnyValue>)
    | KvlistValue(entries: seq<KeyValue>)

  // ------------------------------------------------------------ conversion

  /** `jsonValueToAnyValue`. */
  ghost function Convert(v: Json): AnyValue
    decreases v, 0
  {
    match v
    case Object(members) => KvlistValue(ConvertMembers(v, members, SortedKeys(members.Keys)))
    case Array(items) => ArrayValue(ConvertItems(items))
    case Bool(b) => BoolValue(b)
    case Number(n) => DoubleValue(n)
    case String(s) => StringValue(s)
    case Null => StringValue("null")
  }

  ghost function ConvertItems(items: seq<Json>): (r: seq<AnyValue>)
    ensures |r| == |items|
    ensures forall i :: 0 <= i < |items| ==> r[i] == Convert(items[i])
    decreases items, 1
  {
    if items == [] then [] else [Convert(items[0])] + ConvertItems(items[1..])
  }

  /** The loop over the sorted keys. */
  ghost function ConvertMembers(parent: Json, members: map<string, Json>, keys: seq<string>): (r: seq<KeyValue>)
    requires parent == Object(members)
    requires Elements(keys) <= members.Keys
    ensures |r| == |keys|
    ensures forall i :: 0 <= i < |keys| ==> keys[i] in members && r[i] == KeyValue(keys[i], Convert(members[keys[i]]))
    decreases parent, 0, |keys|
  {
    if keys == [] then []
    else
      assert keys[0] in Elements(keys);
      assert Elements(keys[1..]) <= Elements(keys);
      assert members[keys[0]] < parent;
      [KeyValue(keys[0], Convert(members[keys[0]]))] + ConvertMembers(parent, members, keys[1..])
  }

  // ------------------------------------------------------------ independence of map order

  /** Member `i` of the list is the i-th key in sorted order, with some conversion of its value. */
  ghost predicate EntriesFollow(parent: Json, members: map<string, Json>, order: seq<string>, entries: seq<KeyValue>)
    requires parent == Object(members)
    decreases parent, 0
  {
    && Enumerates(order, members.Keys)
    && |entries| == |order|
    && forall i :: 0 <= i < |entries| ==>
         && entries[i].key == SortStrings(order)[i]
         && entries[i].key in members
         && (assert members[entries[i].key] < parent; ConvertsTo(members[entries[i].key], entries[i].value))
  }

  /** `t` is a tree the code may return for `v`, the range over each object's map taking any order. */
  ghost predicate ConvertsTo(v: Json, t: AnyValue)
    decreases v, 1
  {
    match v
    case Object(members) => t.KvlistValue? && exists order :: EntriesFollow(v, members, order, t.entries)
    case Array(items) =>
      && t.ArrayValue? && |t.values| == |items|
      && forall i :: 0 <= i < |items| ==> ConvertsTo(items[i], t.values[i])
    case Bool(b) => t == BoolValue(b)
    case Number(n) => t == DoubleValue(n)
    case String(s) => t == StringValue(s)
    case Null => t == StringValue("null")
  }

  lemma {:induction false} OrderNeverMatters(v: Json, t: AnyValue)
    requires ConvertsTo(v, t)
    ensures t == Convert(v)
    decreases v
  {
    match v
    case Object(members) =>
      var order :| EntriesFollow(v, members, order, t.entries);
      var keys := SortedKeys(members.Keys);
      SortedKeysIsSort(order, members.Keys);
      var entries := ConvertMembers(v, members, keys);
      forall i | 0 <= i < |keys|
        ensures t.entries[i] == entries[i]
      {
        assert members[keys[i]] < v;
        OrderNeverMatters(members[keys[i]], t.entries[i].value);
      }
      assert t.entries == entries;
    case Array(items) =>
      forall i | 0 <= i < |items|
        ensures t.values[i] == Convert(items[i])
      {
        OrderNeverMatters(items[i], t.values[i]);
      }
      assert t.values == ConvertItems(items);
    case _ =>
  }

  lemma {:induction false} SomeOrderConverts(v: Json)
    ensures ConvertsTo(v, Convert(v))
    decreases v
  {
    match v
    case Object(members) =>
      var keys := SortedKeys(members.Keys);
      StrictlySortedDistinct(keys);
      SortedKeysIsSort(keys, members.Keys);
      var entries := ConvertMembers(v, members, keys);
      forall i | 0 <= i < |keys|
        ensures keys[i] in members && ConvertsTo(members[keys[i]], entries[i].value)
      {
        assert members[keys[i]] < v;
        SomeOrderConverts(members[keys[i]]);
      }
      assert EntriesFollow(v, members, keys, entries);
    case Array(items) =>
      forall i | 0 <= i < |items|
        ensures ConvertsTo(items[i], Convert(items[i]))
      {
        SomeOrderConverts(items[i]);
      }
    case _ =>
  }

  /** Whatever order the maps deliver their keys in, the code returns one tree. */
  lemma {:induction false} ConversionIsDeterministic(v: Json, t: AnyValue)
    ensures ConvertsTo(v, t) <==> t == Convert(v)
  {
    if ConvertsTo(v, t) {
      OrderNeverMatters(v, t);
    }
    SomeOrderConverts(v);
  }

  // ------------------------------------------------------------ sorted at every depth

  function Keys(entries: seq<KeyValue>): (r: seq<string>)
    ensures |r| == |entries|
    ensures forall i :: 0 <= i < |entries| ==> r[i] == entries[i].key
  {
    seq(|entries|, i requires 0 <= i < |entries| => entries[i].key)
  }

  /** Every key-value list in the tree is strictly sorted by key. */
  ghost predicate WellOrdered(t: AnyValue)
  {
    match t
    case KvlistValue(entries) =>
      StrictlySorted(Keys(entries)) && forall e :: e in entries ==> WellOrdered(e.value)
    case ArrayValue(values) => forall x :: x in values ==> WellOrdered(x)
    case _ => true
  }

  lemma {:induction false} EntriesAreWellOrdered(entries: seq<KeyValue>)
    requires StrictlySorted(Keys(entries))
    requires forall i :: 0 <= i < |entries| ==> WellOrdered(entries[i].value)
    ensures WellOrdered(KvlistValue(entries))
  {
  }

  lemma {:induction false} MembersAreWellOrdered(v: Json)
    requires v.Object? && forall k :: k in v.members ==> WellOrdered(Convert(v.members[k]))
    ensures WellOrdered(Convert(v))
  {
  }

  lemma {:induction false} ConvertIsWellOrdered(v: Json)
    ensures WellOrdered(Convert(v))
    decreases v
  {
    match v
    case Object(members) =>
      forall k | k in members
        ensures WellOrdered(Convert(members[k]))
      {
        assert members[k] < v;
        ConvertIsWellOrdered(members[k]);
      }
      MembersAreWellOrdered(v);
    case Array(items) =>
      forall i | 0 <= i < |items|
        ensures WellOrdered(Convert(items[i]))
      {
        ConvertIsWellOrdered(items[i]);
      }
    case _ =>
  }

  // ------------------------------------------------------------ maps from lists

  /** The map that a list of keys and values spells out; a later key wins. */
  function Collect<V>(keys: seq<string>, values: seq<V>): map<string, V>
    requires |keys| == |values|
  {
    if keys == [] then map[]
    else
      var last := |keys| - 1;
      Collect(keys[..last], values[..last])[keys[last] := values[last]]
  }

  lemma {:induction false} CollectKeys<V>(keys: seq<string>, values: seq<V>)
    requires |keys| == |values|
    ensures Collect(keys, values).Keys == Elements(keys)
  {
    if keys != [] {
      var last := |keys| - 1;
      CollectKeys(keys[..last], values[..last]);
      assert keys == keys[..last] + [keys[last]];
    }
  }

  lemma {:induction false} CollectAt<V>(keys: seq<string>, values: seq<V>, i: nat)
    requires |keys| == |values| && Distinct(keys) && i < |keys|
    ensures keys[i] in Collect(keys, values) && Collect(keys, values)[keys[i]] == values[i]
  {
    var last := |keys| - 1;
    if i < last {
      CollectAt(keys[..last], values[..last], i);
    }
  }

  lemma {:induction false} CollectIs<V>(keys: seq<string>, values: seq<V>, m: map<string, V>)
    requires |keys| == |values| && Distinct(keys) && m.Keys == Elements(keys)
    requires forall i :: 0 <= i < |keys| ==> keys[i] in m && m[keys[i]] == values[i]
    ensures Collect(keys, values) == m
  {
    CollectKeys(keys, values);
    forall k | k in m
      ensures Collect(keys, values)[k] == m[k]
    {
      assert k in Elements(keys);
      var i :| 0 <= i < |keys| && keys[i] == k;
      CollectAt(keys, values, i);
    }
  }

  // ------------------------------------------------------------ what the tree remembers

  /** Replaces every null by the string "null". */
  ghost function Denull(v: Json): Json
    decreases v, 0
  {
    match v
    case Object(members) => Object(map k | k in members :: assert members[k] < v; Denull(members[k]))
    case Array(items) => Array(DenullItems(items))
    case Null => String("null")
    case _ => v
  }

  ghost function DenullItems(items: seq<Json>): (r: seq<Json>)
    ensures |r| == |items|
    ensures forall i :: 0 <= i < |items| ==> r[i] == Denull(items[i])
    decreases items, 1
  {
    if items == [] then [] else [Denull(items[0])] + DenullItems(items[1..])
  }

  /** Reads a tree back. */
  function Decode(t: AnyValue): Json
    decreases t, 0
  {
    match t
    case BoolValue(b) => Bool(b)
    case DoubleValue(n) => Number(n)
    case StringValue(s) => String(s)
    case ArrayValue(values) => Array(DecodeItems(values))
    case KvlistValue(entries) => Object(Collect(Keys(entries), DecodeValues(entries)))
  }

  function DecodeItems(values: seq<AnyValue>): (r: seq<Json>)
    ensures |r| == |values|
    ensures forall i :: 0 <= i < |values| ==> r[i] == Decode(values[i])
    decreases values, 1
  {
    if values == [] then [] else [Decode(values[0])] + DecodeItems(values[1..])
  }

  function DecodeValues(entries: seq<KeyValue>): (r: seq<Json>)
    ensures |r| == |entries|
    ensures forall i :: 0 <= i < |entries| ==> r[i] == Decode(entries[i].value)
    decreases entries, 1
  {
    if entries == [] then [] else [Decode(entries[0].value)] + DecodeValues(entries[1..])
  }

  lemma {:induction false} DecodeKvlist(entries: seq<KeyValue>)
    ensures Decode(KvlistValue(entries)) == Object(Collect(Keys(entries), DecodeValues(entries)))
  {
  }

  lemma {:induction false} CollectEntries(entries: seq<KeyValue>, values: seq<Json>, d: map<string, Json>)
    requires Distinct(Keys(entries)) && d.Keys == Elements(Keys(entries)) && |values| == |entries|
    requires forall i :: 0 <= i < |entries| ==> entries[i].key in d && d[entries[i].key] == values[i]
    ensures Collect(Keys(entries), values) == d
  {
    CollectIs(Keys(entries), values, d);
  }

  ghost predicate RoundTrips(v: Json)
  {
    Decode(Convert(v)) == Denull(v)
  }

  lemma {:induction false} DecodeMembers(v: Json)
    requires v.Object? && forall k :: k in v.members ==> RoundTrips(v.members[k])
    ensures RoundTrips(v)
  {
    var d, keys := Denull(v).members, SortedKeys(v.members.Keys);
    var entries := ConvertMembers(v, v.members, keys);
    assert Keys(entries) == keys;
    StrictlySortedDistinct(keys);
    forall i | 0 <= i < |entries|
      ensures entries[i].key in d && d[entries[i].key] == Decode(entries[i].value)
    {
      assert RoundTrips(v.members[keys[i]]);
    }
    CollectEntries(entries, DecodeValues(entries), d);
    DecodeKvlist(entries);
  }

  /** Reading the converted tree back gives the value with its nulls replaced. */
  lemma {:induction false} DecodeConvert(v: Json)
    ensures Decode(Convert(v)) == Denull(v)
    decreases v
  {
    match v
    case Object(members) =>
      forall k | k in members
        ensures RoundTrips(members[k])
      {
        assert members[k] < v;
        DecodeConvert(members[k]);
      }
      DecodeMembers(v);
    case Array(items) =>
      forall i | 0 <= i < |items|
        ensures Decode(Convert(items[i])) == Denull(items[i])
      {
        DecodeConvert(items[i]);
      }
      assert DecodeItems(ConvertItems(items)) == DenullItems(items);
    case _ =>
  }

  /** Replacing nulls does not change the tree. */
  lemma {:induction false} ConvertIgnoresNulls(v: Json)
    ensures Convert(Denull(v)) == Convert(v)
    decreases v
  {
    match v
    case Object(members) =>
      var d := Denull(v);
      assert d.members.Keys == members.Keys;
      var keys := SortedKeys(members.Keys);
      var left, right := ConvertMembers(d, d.members, keys), ConvertMembers(v, members, keys);
      forall i | 0 <= i < |keys|
        ensures left[i] == right[i]
      {
        assert members[keys[i]] < v;
        ConvertIgnoresNulls(members[keys[i]]);
      }
      assert left == right;
    case Array(items) =>
      forall i | 0 <= i < |items|
        ensures Convert(Denull(items[i])) == Convert(items[i])
      {
        ConvertIgnoresNulls(items[i]);
      }
      assert ConvertItems(DenullItems(items)) == ConvertItems(items);
    case _ =>
  }

  /** Two values convert to one tree if and only if they are equal after replacing each null by "null". */
  lemma {:induction false} SameTreeIffSameValue(v: Json, w: Json)
    ensures Convert(v) == Convert(w) <==> Denull(v) == Denull(w)
  {
    DecodeConvert(v);
    DecodeConvert(w);
    ConvertIgnoresNulls(v);
    ConvertIgnoresNulls(w);
  }

  lemma {:induction false} ConvertObject(members: map<string, Json>, keys: seq<string>, entries: seq<KeyValue>)
    requires keys == SortedKeys(members.Keys) && |entries| == |keys|
    requires forall i :: 0 <= i < |keys| ==> keys[i] in members && entries[i] == KeyValue(keys[i], Convert(members[keys[i]]))
    ensures Convert(Object(members)) == KvlistValue(entries)
  {
    assert ConvertMembers(Object(members), members, keys) == entries;
  }

  lemma {:induction false} ConvertCollected(entries: seq<KeyValue>, values: seq<Json>)
    requires StrictlySorted(Keys(entries)) && |values| == |entries|
    requires forall i :: 0 <= i < |entries| ==> Convert(values[i]) == entries[i].value
    ensures Convert(Object(Collect(Keys(entries), values))) == KvlistValue(entries)
  {
    var keys := Keys(entries);
    var members := Collect(keys, values);
    StrictlySortedDistinct(keys);
    CollectKeys(keys, values);
    StrictUnique(keys, SortedKeys(members.Keys));
    forall i | 0 <= i < |keys|
      ensures keys[i] in members && members[keys[i]] == values[i]
    {
      CollectAt(keys, values, i);
    }
    ConvertObject(members, keys, entries);
  }

  /** Every well-ordered tree is the conversion of what it decodes to. */
  lemma {:induction false} ConvertDecode(t: AnyValue)
    requires WellOrdered(t)
    ensures Convert(Decode(t)) == t
    decreases t
  {
    match t
    case KvlistValue(entries) =>
      forall i | 0 <= i < |entries|
        ensures Convert(Decode(entries[i].value)) == entries[i].value
      {
        assert entries[i] in entries;
        ConvertDecode(entries[i].value);
      }
      ConvertCollected(entries, DecodeValues(entries));
    case ArrayValue(values) =>
      forall i | 0 <= i < |values|
        ensures Convert(Decode(values[i])) == values[i]
      {
        assert values[i] in values;
        ConvertDecode(values[i]);
      }
      assert ConvertItems(DecodeItems(values)) == values;
    case _ =>
  }

  // ------------------------------------------------------------ extra info

  /** `stringToStructuredAnyValue`; `parse` is `json.Unmarshal`. */
  ghost function Structured(parse: string -> Option<Json>, raw: string): AnyValue
  {
    match parse(raw)
    case Some(v) => if v.Null? then StringValue(raw) else Convert(v)
    case None => StringValue(raw)
  }

  ghost function StructuredEntries(parse: string -> Option<Json>, info: map<string, string>, keys: seq<string>): (r: seq<KeyValue>)
    requires Elements(keys) <= info.Keys
    ensures |r| == |keys|
    ensures forall i :: 0 <= i < |keys| ==> keys[i] in info && r[i] == KeyValue(keys[i], Structured(parse, info[keys[i]]))
  {
    if keys == [] then []
    else
      assert keys[0] in Elements(keys);
      assert Elements(keys[1..]) <= Elements(keys);
      [KeyValue(keys[0], Structured(parse, info[keys[0]]))] + StructuredEntries(parse, info, keys[1..])
  }

  /** `extraInfoToAnyValue`. */
  ghost function ExtraInfo(parse: string -> Option<Json>, info: map<string, string>): AnyValue
  {
    KvlistValue(StructuredEntries(parse, info, SortedKeys(info.Keys)))
  }

  lemma {:induction false} StructuredIsWellOrdered(parse: string -> Option<Json>, raw: string)
    ensures WellOrdered(Structured(parse, raw))
  {
    match parse(raw)
    case Some(v) => ConvertIsWellOrdered(v);
    case None =>
  }

  /**
   What one raw string becomes: if it parses to anything but null, a tree that reads
   back as the parsed value with its nulls replaced; otherwise the string itself.
   */
  lemma {:induction false} StructuredMeans(parse: string -> Option<Json>, raw: string)
    ensures parse(raw).Some? && parse(raw) != Some(Null) ==> Decode(Structured(parse, raw)) == Denull(parse(raw).value)
    ensures parse(raw) == None || parse(raw) == Some(Null) ==> Structured(parse, raw) == StringValue(raw)
  {
    if parse(raw).Some? {
      DecodeConvert(parse(raw).value);
    }
  }

  /** Each extra-info entry holds what its own string becomes. */
  lemma {:induction false} ExtraInfoEntries(parse: string -> Option<Json>, info: map<string, string>, key: string)
    requires key in info
    ensures KeyValue(key, Structured(parse, info[key])) in ExtraInfo(parse, info).entries
  {
    var keys := SortedKeys(info.Keys);
    assert key in Elements(keys);
    var i :| 0 <= i < |keys| && keys[i] == key;
    assert ExtraInfo(parse, info).entries[i] == KeyValue(key, Structured(parse, info[key]));
  }

  /** Extra info is strictly sorted at every depth too, and lists exactly the given keys. */
  lemma {:induction false} ExtraInfoIsWellOrdered(parse: string -> Option<Json>, info: map<string, string>)
    ensures WellOrdered(ExtraInfo(parse, info))
    ensures Elements(Keys(ExtraInfo(parse, info).entries)) == info.Keys
  {
    var keys := SortedKeys(info.Keys);
    var entries := StructuredEntries(parse, info, keys);
    assert Keys(entries) == keys;
    forall i | 0 <= i < |entries|
      ensures WellOrdered(entries[i].value)
    {
      StructuredIsWellOrdered(parse, info[keys[i]]);
    }
    EntriesAreWellOrdered(entries);
  }
}
