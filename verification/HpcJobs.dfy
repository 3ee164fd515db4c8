/**
 The HPC job mapping: filenames, job-ID files, and the workload series
 (internal/workloadmetrics/hpcjob/reader.go and collector.go). What the file
 system answers for each entry is data.
 */
module HpcJobs {
  import opened Prelude
  import Text

  const MAX_FILE_SIZE: nat := 1_048_576
  const MAX_ID_LENGTH: nat := 256
  const MAX_IDS: nat := 16

  datatype Mode = DcgmIndex | Uuid | Unknown

  // ------------------------------------------------------------ filenames

  /** A physical GPU and an optional GPU instance; an absent instance is the empty string. */
  datatype Key = Key(gpu: string, instance: string)

  predicate Digit(c: char)
  {
    '0' <= c <= '9'
  }

  predicate HexOrDash(c: char)
  {
    Digit(c) || 'a' <= c <= 'f' || 'A' <= c <= 'F' || c == '-'
  }

  /** `^[0-9]+$` */
  predicate Numeric(s: string)
  {
    s != "" && forall i :: 0 <= i < |s| ==> Digit(s[i])
  }

  /** `^GPU-[[:xdigit:]-]+$` */
  predicate GpuUuid(s: string)
  {
    |s| > 4 && s[..4] == "GPU-" && forall i :: 4 <= i < |s| ==> HexOrDash(s[i])
  }

  predicate PhysicalGPU(mode: Mode, s: string)
  {
    match mode
    case DcgmIndex => Numeric(s)
    case Uuid => GpuUuid(s)
    case Unknown => false
  }

  /** The characters a GPU may be named with, spelled out. */
  lemma GPUNamesSpelledOut(s: string)
    ensures PhysicalGPU(DcgmIndex, s) <==> s != "" && forall c :: c in s ==> c in "0123456789"
    ensures PhysicalGPU(Uuid, s) <==> "GPU-" < s && forall c :: c in s[4..] ==> c in "0123456789abcdefABCDEF-"
    ensures !PhysicalGPU(Unknown, s)
  {
    DigitsSpelledOut();
    if "GPU-" < s {
      assert s[..4] == "GPU-";
      assert forall i :: 4 <= i < |s| ==> s[i] == s[4..][i - 4];
    }
  }

  lemma DigitsSpelledOut()
    ensures forall c :: Digit(c) <==> c in "0123456789"
    ensures forall c :: HexOrDash(c) <==> c in "0123456789abcdefABCDEF-"
  {
  }

  /** Where `strings.Cut` cuts: the first dot, or the end. */
  function DotAt(s: string): (n: nat)
    ensures n <= |s| && (n < |s| ==> s[n] == '.')
    ensures forall i :: 0 <= i < n ==> s[i] != '.'
  {
    if s == "" || s[0] == '.' then 0 else 1 + DotAt(s[1..])
  }

  /** `parseMappingFilename`. */
  function Parse(filename: string, mode: Mode): Option<Key>
  {
    var dot := DotAt(filename);
    var gpu := filename[..dot];
    var instance := if dot < |filename| then filename[dot + 1..] else "";
    if dot < |filename| && !Numeric(instance) then None
    else if !PhysicalGPU(mode, gpu) then None
    else Some(Key(gpu, instance))
  }

  /** The filename a scheduler writes for a key. */
  function Print(k: Key): string
  {
    if k.instance == "" then k.gpu else k.gpu + "." + k.instance
  }

  predicate ValidKey(mode: Mode, k: Key)
  {
    PhysicalGPU(mode, k.gpu) && (k.instance == "" || Numeric(k.instance))
  }

  lemma NoDotInGPU(mode: Mode, s: string)
    requires PhysicalGPU(mode, s)
    ensures forall i :: 0 <= i < |s| ==> s[i] != '.' && s[i] != '/'
  {
  }

  /** The first dot is the only place a name can be cut with no dot before it. */
  lemma DotUnique(s: string, n: nat)
    requires n <= |s| && (n < |s| ==> s[n] == '.') && forall i :: 0 <= i < n ==> s[i] != '.'
    ensures DotAt(s) == n
  {
  }

  /** Parsing accepts exactly the printed form of each valid key, and gives that key back. */
  lemma ParseIffPrinted(filename: string, mode: Mode, k: Key)
    ensures Parse(filename, mode) == Some(k) <==> ValidKey(mode, k) && filename == Print(k)
  {
    var dot := DotAt(filename);
    if Parse(filename, mode) == Some(k) {
      if dot < |filename| {
        assert filename == filename[..dot] + "." + filename[dot + 1..];
      }
    }
    if ValidKey(mode, k) && filename == Print(k) {
      NoDotInGPU(mode, k.gpu);
      assert filename[..|k.gpu|] == k.gpu;
      DotUnique(filename, |k.gpu|);
    }
  }

  /** So two names that parse to one key are one name. */
  lemma ParseIsInjective(a: string, b: string, mode: Mode)
    requires Parse(a, mode).Some? && Parse(a, mode) == Parse(b, mode)
    ensures a == b
  {
  }

  /** The names `readJobIDs` refuses. */
  predicate UnsafeName(filename: string)
  {
    filename == "" || filename == "." || filename == ".." || '/' in filename
  }

  /** A name that parses is never refused. */
  lemma ParsedNamesAreSafe(filename: string, mode: Mode)
    requires Parse(filename, mode).Some?
    ensures !UnsafeName(filename)
  {
  }

  // ------------------------------------------------------------ job-ID files

  /** A line as text, or a line that is not valid UTF-8 once trimmed. */
  datatype Line = Line(text: string) | Malformed

  /** What opening and scanning an entry gives: nothing, or a size, the lines scanned, and whether the scan then failed. */
  datatype File = Unreadable | Regular(size: nat, lines: seq<Line>, scanFails: bool)

  function Utf8Length(s: string): nat
  {
    if s == "" then 0
    else
      var n := s[0] as int;
      (if n < 0x80 then 1 else if n < 0x800 then 2 else if n < 0x1_0000 then 3 else 4) + Utf8Length(s[1..])
  }

  /** The job ID on a line: its trimmed text, unless that is blank, over 256 bytes, or not valid UTF-8. */
  function IDOf(l: Line): (id: Option<string>)
    ensures id.Some? <==> l.Line? && Text.Trim(l.text) != "" && Utf8Length(Text.Trim(l.text)) <= 256
    ensures id.Some? ==> id.value == Text.Trim(l.text)
  {
    if l.Malformed? || Text.Trim(l.text) == "" || Utf8Length(Text.Trim(l.text)) > MAX_ID_LENGTH then None
    else Some(Text.Trim(l.text))
  }

  predicate HoldsID(l: Line)
  {
    IDOf(l).Some?
  }

  /** The distinct valid IDs of a file. */
  function IDs(lines: seq<Line>): set<string>
  {
    set l | l in lines && HoldsID(l) :: IDOf(l).value
  }

  /** Membership, line by line. */
  lemma IDsAreLines(lines: seq<Line>, id: string)
    ensures id in IDs(lines) <==>
      id != "" && Utf8Length(id) <= 256 && exists i :: 0 <= i < |lines| && lines[i].Line? && Text.Trim(lines[i].text) == id
  {
    if id in IDs(lines) {
      var l :| l in lines && HoldsID(l) && IDOf(l) == Some(id);
      var i :| 0 <= i < |lines| && lines[i] == l;
    }
    if i :| 0 <= i < |lines| && lines[i].Line? && Text.Trim(lines[i].text) == id && id != "" && Utf8Length(id) <= 256 {
      assert lines[i] in lines && HoldsID(lines[i]);
    }
  }

  /** The length in bytes adds up, is at least the length in characters and at most four times that, and equals it for ASCII. */
  lemma {:induction false} Utf8LengthAddsUp(a: string, b: string)
    ensures Utf8Length(a + b) == Utf8Length(a) + Utf8Length(b)
    ensures |a| <= Utf8Length(a) <= 4 * |a|
    ensures Utf8Length(a) == |a| <==> forall i :: 0 <= i < |a| ==> a[i] as int < 0x80
  {
    if a == "" {
      assert a + b == b;
    } else {
      Utf8LengthAddsUp(a[1..], b);
      assert (a + b)[1..] == a[1..] + b;
      assert forall i :: 1 <= i < |a| ==> a[i] == a[1..][i - 1];
      if Utf8Length(a[1..]) == |a[1..]| && a[0] as int < 0x80 {
        assert forall i :: 0 <= i < |a| ==> i == 0 || a[i] == a[1..][i - 1];
      }
      if forall i :: 0 <= i < |a| ==> a[i] as int < 0x80 {
        assert forall i :: 0 <= i < |a[1..]| ==> a[1..][i] == a[i + 1];
      }
    }
  }

  /** The file counts: it could be read to the end and has no more than 16 distinct valid IDs. */
  predicate Usable(f: File)
  {
    f.Regular? && f.size <= MAX_FILE_SIZE && !f.scanFails && |IDs(f.lines)| <= MAX_IDS
  }

  /** What a file assigns: its valid IDs in strictly ascending order, or nothing. */
  ghost function JobIDs(f: File): Option<seq<string>>
  {
    if Usable(f) then Some(Text.SortedKeys(IDs(f.lines))) else None
  }

  /** The order of the lines, repeats, blank lines and invalid lines do not matter. */
  lemma OnlyTheIDsMatter(f: File, f': File)
    requires f.Regular? && f'.Regular? && f.size <= 1_048_576 && f'.size <= 1_048_576
    requires !f.scanFails && !f'.scanFails
    ensures JobIDs(f) == None <==> |IDs(f.lines)| > 16
    ensures JobIDs(f).Some? && JobIDs(f) == JobIDs(f') ==> IDs(f.lines) == IDs(f'.lines)
    ensures IDs(f.lines) == IDs(f'.lines) ==> JobIDs(f) == JobIDs(f')
    ensures (forall l :: HoldsID(l) ==> (l in f.lines <==> l in f'.lines)) ==> JobIDs(f) == JobIDs(f')
  {
  }

  lemma IDsSnoc(lines: seq<Line>, l: Line)
    ensures IDs(lines + [l]) == IDs(lines) + if HoldsID(l) then {IDOf(l).value} else {}
  {
  }

  lemma IDsGrow(lines: seq<Line>, i: nat)
    requires i <= |lines|
    ensures IDs(lines[..i]) <= IDs(lines) && |IDs(lines[..i])| <= |IDs(lines)|
  {
    assert forall l :: l in lines[..i] ==> l in lines;
    SubsetSize(IDs(lines[..i]), IDs(lines));
  }

  lemma {:induction false} SubsetSize(a: set<string>, b: set<string>)
    requires a <= b
    ensures |a| <= |b|
  {
    if a != {} {
      var x :| x in a;
      SubsetSize(a - {x}, b - {x});
    }
  }

  /** The line loop with its cap. */
  method ScanLines(lines: seq<Line>) returns (found: Option<set<string>>)
    ensures found == if |IDs(lines)| > 16 then None else Some(IDs(lines))
  {
    var seen: set<string> := {};
    var i := 0;
    while i < |lines|
      invariant 0 <= i <= |lines| && seen == IDs(lines[..i]) && |seen| <= MAX_IDS
    {
      var line := lines[i];
      assert lines[..i + 1] == lines[..i] + [line];
      IDsSnoc(lines[..i], line);
      i := i + 1;
      var jobID := IDOf(line);
      if jobID.None? || jobID.value in seen {
        continue;
      }
      if |seen| >= MAX_IDS {
        IDsGrow(lines, i);
        return None;
      }
      seen := seen + {jobID.value};
    }
    assert lines[..i] == lines;
    found := Some(seen);
  }

  /** `readJobIDs`. */
  method ReadJobIDs(f: File) returns (jobIDs: Option<seq<string>>)
    ensures jobIDs == JobIDs(f)
    ensures jobIDs.Some? <==> f.Regular? && f.size <= 1_048_576 && !f.scanFails && |IDs(f.lines)| <= 16
    ensures jobIDs.Some? ==> Text.StrictlySorted(jobIDs.value) && Text.Elements(jobIDs.value) == IDs(f.lines)
  {
    if f.Unreadable? || f.size > MAX_FILE_SIZE {
      return None;
    }
    var found := ScanLines(f.lines);
    if found.None? || f.scanFails {
      return None;
    }
    var order := Text.ListKeys(found.value);
    Text.SortedKeysIsSort(order, found.value);
    jobIDs := Some(Text.SortStrings(order));
  }

  // ------------------------------------------------------------ the directory

  datatype Entry = Entry(name: string, symlink: bool, file: File)

  datatype Mapping = Mapping(key: Key, jobIDs: seq<string>)

  datatype Directory = Missing | Failing | Entries(entries: seq<Entry>)

  ghost predicate DistinctNames(entries: seq<Entry>)
  {
    forall i, j :: 0 <= i < j < |entries| ==> entries[i].name != entries[j].name
  }

  /** An entry contributes a mapping. */
  ghost predicate Contributes(mode: Mode, e: Entry, m: Mapping)
  {
    !e.symlink && Parse(e.name, mode) == Some(m.key) && JobIDs(e.file) == Some(m.jobIDs) && m.jobIDs != []
  }

  ghost predicate SomeContributes(mode: Mode, entries: seq<Entry>, m: Mapping)
  {
    exists i :: 0 <= i < |entries| && Contributes(mode, entries[i], m)
  }

  ghost predicate DistinctKeys(ms: seq<Mapping>)
  {
    forall i, j :: 0 <= i < j < |ms| ==> ms[i].key != ms[j].key
  }

  /** The mappings are exactly what the entries contribute. */
  ghost predicate MappingsOf(mode: Mode, entries: seq<Entry>, ms: seq<Mapping>)
  {
    forall m :: m in ms <==> SomeContributes(mode, entries, m)
  }

  lemma MappingsSnoc(mode: Mode, entries: seq<Entry>, e: Entry, ms: seq<Mapping>, more: seq<Mapping>)
    requires MappingsOf(mode, entries, ms)
    requires forall m :: m in more <==> Contributes(mode, e, m)
    ensures MappingsOf(mode, entries + [e], ms + more)
  {
    var all := entries + [e];
    forall m
      ensures m in ms + more <==> SomeContributes(mode, all, m)
    {
      if m in ms {
        var i :| 0 <= i < |entries| && Contributes(mode, entries[i], m);
        assert Contributes(mode, all[i], m);
      }
      if m in more {
        assert Contributes(mode, all[|entries|], m);
      }
      if SomeContributes(mode, all, m) {
        var i :| 0 <= i < |all| && Contributes(mode, all[i], m);
        assert i < |entries| ==> Contributes(mode, entries[i], m);
      }
    }
  }

  /** A new name brings a new key. */
  lemma NewKey(mode: Mode, entries: seq<Entry>, i: nat, ms: seq<Mapping>, m: Mapping)
    requires DistinctNames(entries) && i < |entries|
    requires MappingsOf(mode, entries[..i], ms) && Contributes(mode, entries[i], m)
    ensures forall j :: 0 <= j < |ms| ==> ms[j].key != m.key
  {
    forall j | 0 <= j < |ms|
      ensures ms[j].key != m.key
    {
      assert ms[j] in ms;
      var k :| 0 <= k < |entries[..i]| && Contributes(mode, entries[..i][k], ms[j]);
      assert entries[k].name != entries[i].name;
      if ms[j].key == m.key {
        ParseIsInjective(entries[k].name, entries[i].name, mode);
        assert false;
      }
    }
  }

  lemma EntryTurn(mode: Mode, entries: seq<Entry>, i: nat, ms: seq<Mapping>, more: seq<Mapping>)
    requires i < |entries| && MappingsOf(mode, entries[..i], ms)
    requires forall m :: m in more <==> Contributes(mode, entries[i], m)
    ensures MappingsOf(mode, entries[..i + 1], ms + more)
  {
    MappingsSnoc(mode, entries[..i], entries[i], ms, more);
    assert entries[..i] + [entries[i]] == entries[..i + 1];
  }

  lemma EntryKeys(mode: Mode, entries: seq<Entry>, i: nat, ms: seq<Mapping>, more: seq<Mapping>)
    requires DistinctNames(entries) && i < |entries| && |more| <= 1
    requires MappingsOf(mode, entries[..i], ms) && DistinctKeys(ms)
    requires more != [] ==> Contributes(mode, entries[i], more[0])
    ensures DistinctKeys(ms + more)
  {
    if more != [] {
      NewKey(mode, entries, i, ms, more[0]);
    }
  }

  /** What one turn of the entry loop appends. */
  method ReadEntry(mode: Mode, e: Entry) returns (more: seq<Mapping>)
    ensures forall m :: m in more <==> Contributes(mode, e, m)
    ensures |more| <= 1
  {
    more := [];
    if e.symlink {
      return;
    }
    var key := Parse(e.name, mode);
    if key.None? {
      return;
    }
    var jobIDs := ReadJobIDs(e.file);
    if jobIDs.None? {
      return;
    }
    if |jobIDs.value| > 0 {
      more := [Mapping(key.value, jobIDs.value)];
    }
  }

  /** `Read`: a missing directory is an empty mapping; unusable entries are skipped; no key appears twice. */
  method Read(mode: Mode, directory: Directory) returns (mappings: Option<seq<Mapping>>)
    requires DistinctNames(EntriesOf(directory))
    ensures mappings == None <==> directory.Failing?
    ensures mappings.Some? ==> MappingsOf(mode, EntriesOf(directory), mappings.value)
    ensures mappings.Some? ==> forall m :: m in mappings.value ==> m.jobIDs != []
    ensures mappings.Some? ==> DistinctKeys(mappings.value)
  {
    if directory.Missing? {
      return Some([]);
    }
    if directory.Failing? {
      return None;
    }
    var entries := directory.entries;
    var ms: seq<Mapping> := [];
    var i := 0;
    while i < |entries|
      invariant 0 <= i <= |entries|
      invariant MappingsOf(mode, entries[..i], ms) && DistinctKeys(ms)
    {
      var more := ReadEntry(mode, entries[i]);
      EntryTurn(mode, entries, i, ms, more);
      assert more != [] ==> more[0] in more;
      EntryKeys(mode, entries, i, ms, more);
      ms := ms + more;
      i := i + 1;
    }
    assert entries[..i] == entries;
    mappings := Some(ms);
  }

  // ------------------------------------------------------------ the series

  const WORKLOAD_SOURCE := "hpc"

  datatype Series = Series(uuid: string, gpu: string, instance: string, source: string, workload: string)

  /** The device maps of one scrape, and which label tuples the metrics library accepts. */
  datatype Scrape = Scrape(mode: Mode, uuidByIndex: map<string, string>, indexByUUID: map<string, string>, accepts: Series -> bool)

  /** The inverse map holds, for every non-empty UUID, one of the indices that have it. */
  ghost predicate Inverse(uuidByIndex: map<string, string>, indexByUUID: map<string, string>)
  {
    && (forall u :: u in indexByUUID ==> u != "" && indexByUUID[u] in uuidByIndex && uuidByIndex[indexByUUID[u]] == u)
    && (forall i :: i in uuidByIndex && uuidByIndex[i] != "" ==> uuidByIndex[i] in indexByUUID)
  }

  /** `resolveGPU`. */
  function ResolveGPU(c: Scrape, id: string): Option<(string, string)>
  {
    match c.mode
    case DcgmIndex => if id in c.uuidByIndex then Some((id, c.uuidByIndex[id])) else None
    case Uuid => if id in c.indexByUUID then Some((c.indexByUUID[id], id)) else None
    case Unknown => None
  }

  /** A resolved GPU is a known device, and the identifier it was found by is its index or its UUID. */
  lemma ResolvedIsKnown(c: Scrape, id: string)
    requires c.mode == Uuid ==> Inverse(c.uuidByIndex, c.indexByUUID)
    ensures ResolveGPU(c, id).Some? ==>
      var (gpu, uuid) := ResolveGPU(c, id).value;
      gpu in c.uuidByIndex && c.uuidByIndex[gpu] == uuid && id == if c.mode == Uuid then uuid else gpu
    ensures c.mode == Uuid && id != "" ==> (ResolveGPU(c, id).None? <==> forall i :: i in c.uuidByIndex ==> c.uuidByIndex[i] != id)
  {
  }

  /** The series belongs to the mapping. */
  predicate Emits(c: Scrape, m: Mapping, s: Series)
  {
    var r := ResolveGPU(c, m.key.gpu);
    && r.Some? && r.value.1 != ""
    && s == Series(r.value.1, r.value.0, m.key.instance, WORKLOAD_SOURCE, s.workload)
    && s.workload in m.jobIDs && c.accepts(s)
  }

  /** A series names its mapping. */
  lemma SeriesNamesMapping(c: Scrape, m: Mapping, m': Mapping, s: Series)
    requires Emits(c, m, s) && Emits(c, m', s)
    ensures m.key == m'.key
  {
  }

  ghost predicate SomeEmits(c: Scrape, ms: seq<Mapping>, s: Series)
  {
    exists i :: 0 <= i < |ms| && Emits(c, ms[i], s)
  }

  /** The channel holds every series of the mappings once, and nothing else. */
  ghost predicate SeriesOf(c: Scrape, ms: seq<Mapping>, ch: seq<Series>)
  {
    Text.Distinct(ch) && forall s :: s in ch <==> SomeEmits(c, ms, s)
  }

  lemma SeriesSnoc(c: Scrape, ms: seq<Mapping>, m: Mapping, ch: seq<Series>, more: seq<Series>)
    requires SeriesOf(c, ms, ch) && Text.Distinct(more)
    requires forall s :: s in more <==> Emits(c, m, s)
    requires forall i :: 0 <= i < |ms| ==> ms[i].key != m.key
    ensures SeriesOf(c, ms + [m], ch + more)
  {
    var all := ms + [m];
    forall s
      ensures s in ch + more <==> SomeEmits(c, all, s)
      ensures !(s in ch && s in more)
    {
      if s in ch {
        var i :| 0 <= i < |ms| && Emits(c, ms[i], s);
        assert Emits(c, all[i], s);
        if s in more {
          SeriesNamesMapping(c, ms[i], m, s);
          assert false;
        }
      }
      if s in more {
        assert Emits(c, all[|ms|], s);
      }
      if SomeEmits(c, all, s) {
        var i :| 0 <= i < |all| && Emits(c, all[i], s);
        assert i < |ms| ==> Emits(c, ms[i], s);
      }
    }
    DistinctConcat(ch, more);
  }

  lemma DistinctConcat<T>(a: seq<T>, b: seq<T>)
    requires Text.Distinct(a) && Text.Distinct(b) && forall x :: !(x in a && x in b)
    ensures Text.Distinct(a + b)
  {
    var all := a + b;
    forall i, j | 0 <= i < j < |all|
      ensures all[i] != all[j]
    {
      if i < |a| <= j {
        assert all[i] in a && all[j] in b;
      }
    }
  }

  /** The inner loop: one series for each job of a resolved mapping. */
  method EmitMapping(c: Scrape, m: Mapping) returns (more: seq<Series>)
    requires Text.Distinct(m.jobIDs)
    ensures Text.Distinct(more) && forall s :: s in more <==> Emits(c, m, s)
  {
    more := [];
    var r := ResolveGPU(c, m.key.gpu);
    if r.None? || r.value.1 == "" {
      return;
    }
    var (gpuIndex, uuid) := r.value;
    var i := 0;
    while i < |m.jobIDs|
      invariant 0 <= i <= |m.jobIDs| && Text.Distinct(more)
      invariant forall s :: s in more <==> Emits(c, m.(jobIDs := m.jobIDs[..i]), s)
    {
      var s := Series(uuid, gpuIndex, m.key.instance, WORKLOAD_SOURCE, m.jobIDs[i]);
      assert m.jobIDs[..i + 1] == m.jobIDs[..i] + [m.jobIDs[i]];
      assert s.workload !in m.jobIDs[..i];
      if c.accepts(s) {
        assert !Emits(c, m.(jobIDs := m.jobIDs[..i]), s);
        DistinctConcat(more, [s]);
        more := more + [s];
      }
      i := i + 1;
    }
    assert m.jobIDs[..i] == m.jobIDs;
  }

  /** The loop over a device map's indices in any order; later indices overwrite earlier ones. */
  method InverseOf(uuidByIndex: map<string, string>) returns (indexByUUID: map<string, string>)
    ensures Inverse(uuidByIndex, indexByUUID)
  {
    indexByUUID := map[];
    var left := uuidByIndex.Keys;
    while left != {}
      invariant left <= uuidByIndex.Keys
      invariant forall u :: u in indexByUUID ==> u != "" && indexByUUID[u] in uuidByIndex && uuidByIndex[indexByUUID[u]] == u
      invariant forall i :: i in uuidByIndex && i !in left && uuidByIndex[i] != "" ==> uuidByIndex[i] in indexByUUID
      decreases |left|
    {
      var index :| index in left;
      var uuid := uuidByIndex[index];
      if uuid != "" {
        indexByUUID := indexByUUID[uuid := index];
      }
      left := left - {index};
    }
  }

  /** The entry is named for the GPU of the series and lists its workload. */
  ghost predicate AssignedBy(mode: Mode, e: Entry, s: Series)
  {
    var k := Key(if mode == Uuid then s.uuid else s.gpu, s.instance);
    && !e.symlink && ValidKey(mode, k) && e.name == Print(k)
    && e.file.Regular? && e.file.size <= 1_048_576 && !e.file.scanFails
    && |IDs(e.file.lines)| <= 16 && s.workload in IDs(e.file.lines)
  }

  ghost predicate SomeAssigns(mode: Mode, entries: seq<Entry>, s: Series)
  {
    exists i :: 0 <= i < |entries| && AssignedBy(mode, entries[i], s)
  }

  /**
   What `Collect` promises of a series, with no reference to how it is found: its
   labels are a known device, some entry assigns the workload to that device, and
   in UUID mode the index label is the one the inverse map settled on.
   */
  ghost predicate Collected(c: Scrape, entries: seq<Entry>, s: Series)
  {
    && c.accepts(s) && s.source == "hpc"
    && s.uuid != "" && s.gpu in c.uuidByIndex && c.uuidByIndex[s.gpu] == s.uuid
    && (c.mode == Uuid ==> s.uuid in c.indexByUUID && c.indexByUUID[s.uuid] == s.gpu)
    && SomeAssigns(c.mode, entries, s)
  }

  lemma ContributionsAssign(mode: Mode, e: Entry, m: Mapping, s: Series)
    requires m.key == Key(if mode == Uuid then s.uuid else s.gpu, s.instance) && Contributes(mode, e, m)
    ensures s.workload in m.jobIDs <==> AssignedBy(mode, e, s)
  {
    ParseIffPrinted(e.name, mode, m.key);
    assert Text.Elements(m.jobIDs) == IDs(e.file.lines);
    assert s.workload in m.jobIDs <==> s.workload in Text.Elements(m.jobIDs);
  }

  lemma AssignmentsContribute(mode: Mode, e: Entry, s: Series) returns (m: Mapping)
    requires AssignedBy(mode, e, s)
    ensures m.key == Key(if mode == Uuid then s.uuid else s.gpu, s.instance) && Contributes(mode, e, m)
    ensures s.workload in m.jobIDs
  {
    m := Mapping(Key(if mode == Uuid then s.uuid else s.gpu, s.instance), Text.SortedKeys(IDs(e.file.lines)));
    ParseIffPrinted(e.name, mode, m.key);
    assert s.workload in Text.Elements(m.jobIDs);
  }

  /** A series is emitted exactly when `Collected` promises it. */
  lemma EmittedIffCollected(c: Scrape, entries: seq<Entry>, ms: seq<Mapping>, s: Series)
    requires c.mode == Uuid ==> Inverse(c.uuidByIndex, c.indexByUUID)
    requires MappingsOf(c.mode, entries, ms)
    ensures SomeEmits(c, ms, s) <==> Collected(c, entries, s)
  {
    if SomeEmits(c, ms, s) {
      var j :| 0 <= j < |ms| && Emits(c, ms[j], s);
      assert ms[j] in ms;
      var i :| 0 <= i < |entries| && Contributes(c.mode, entries[i], ms[j]);
      ContributionsAssign(c.mode, entries[i], ms[j], s);
    }
    if Collected(c, entries, s) {
      var i :| 0 <= i < |entries| && AssignedBy(c.mode, entries[i], s);
      var m := AssignmentsContribute(c.mode, entries[i], s);
      assert m in ms;
      var j :| 0 <= j < |ms| && ms[j] == m;
      assert Emits(c, ms[j], s);
    }
  }

  /** What the scrape sees of a directory that could be read. */
  function EntriesOf(directory: Directory): seq<Entry>
  {
    if directory.Entries? then directory.entries else []
  }

  /**
   `Collect`, for a directory with distinct names: no two series have equal
   labels, and the series are exactly those of the jobs that a usable, well-named
   entry assigns to a known GPU.
   */
  method Collect(mode: Mode, directory: Directory, devices: Option<map<string, string>>, accepts: Series -> bool)
    returns (ch: seq<Series>, ghost c: Scrape)
    requires DistinctNames(EntriesOf(directory))
    ensures Text.Distinct(ch)
    ensures directory.Failing? || devices.None? ==> ch == []
    ensures c.mode == mode && c.accepts == accepts && (mode == Uuid ==> Inverse(c.uuidByIndex, c.indexByUUID))
    ensures !directory.Failing? && devices.Some? ==>
      c.uuidByIndex == devices.value && forall s :: s in ch <==> Collected(c, EntriesOf(directory), s)
  {
    ch, c := [], Scrape(mode, map[], map[], accepts);
    var read := Read(mode, directory);
    if read.None? || devices.None? {
      return;
    }
    var indexByUUID: map<string, string> := map[];
    if mode == Uuid {
      indexByUUID := InverseOf(devices.value);
    }
    var scrape := Scrape(mode, devices.value, indexByUUID, accepts);
    c := scrape;
    JobsAreDistinct(mode, EntriesOf(directory), read.value);
    ch := EmitAll(scrape, read.value);
    forall s
      ensures s in ch <==> Collected(c, EntriesOf(directory), s)
    {
      EmittedIffCollected(c, EntriesOf(directory), read.value, s);
    }
  }

  lemma JobsAreDistinct(mode: Mode, entries: seq<Entry>, ms: seq<Mapping>)
    requires MappingsOf(mode, entries, ms)
    ensures forall i :: 0 <= i < |ms| ==> Text.Distinct(ms[i].jobIDs)
  {
    forall i | 0 <= i < |ms|
      ensures Text.Distinct(ms[i].jobIDs)
    {
      assert ms[i] in ms;
      var k :| 0 <= k < |entries| && Contributes(mode, entries[k], ms[i]);
      Text.StrictlySortedDistinct(ms[i].jobIDs);
    }
  }

  /** The outer loop. */
  method EmitAll(c: Scrape, ms: seq<Mapping>) returns (ch: seq<Series>)
    requires DistinctKeys(ms) && forall i :: 0 <= i < |ms| ==> Text.Distinct(ms[i].jobIDs)
    ensures SeriesOf(c, ms, ch)
  {
    ch := [];
    var i := 0;
    while i < |ms|
      invariant 0 <= i <= |ms| && SeriesOf(c, ms[..i], ch)
    {
      var more := EmitMapping(c, ms[i]);
      SeriesSnoc(c, ms[..i], ms[i], ch, more);
      assert ms[..i] + [ms[i]] == ms[..i + 1];
      ch := ch + more;
      i := i + 1;
    }
    assert ms[..i] == ms;
  }
}
