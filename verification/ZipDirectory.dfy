/** Reading the central directory of a ZIP archive: finding the end record, walking the headers,
    and refusing what could not be unpacked safely (sections 4.3.12 and 4.3.16 of PKWARE
    APPNOTE.TXT). */
module ZipDirectory {
  import opened Bytes
  import opened Outcomes
  import opened ZipNames

  const END_SIGNATURE := 0x06054b50
  const CENTRAL_SIGNATURE := 0x02014b50

  datatype Limits = Limits(archiveBytes: nat, files: nat, totalSize: nat, fileSize: nat, ratio: nat)

  datatype Entry = Entry(name: string, key: string, directory: bool, fileSize: nat, compressedSize: nat,
                         compression: nat, attributes: nat)

  /** Case folding, and strict decoding of UTF-8 into text. */
  datatype Text = Text(casing: Casing, decode: Bytes -> Option<string>)

  /** What the walk over the headers has gathered; a kind is true for a file. */
  datatype State = State(entries: seq<Entry>, kinds: map<string, bool>, total: nat, compressed: nat, largest: nat)

  const NOTHING := State([], map[], 0, 0, 0)

  function U16(data: Bytes, offset: nat): nat
    requires offset + 2 <= |data|
  {
    data[offset] as int + 256 * data[offset + 1] as int
  }

  function U32(data: Bytes, offset: nat): nat
    requires offset + 4 <= |data|
  {
    U16(data, offset) + 65536 * U16(data, offset + 2)
  }

  // ---------- The end record ----------

  predicate EndAt(tail: Bytes, index: int) {
    0 <= index <= |tail| - 22 && U32(tail, index) == END_SIGNATURE
  }

  /** The last place of an end record. */
  function LastEnd(tail: Bytes, index: int): Option<nat>
    requires index <= |tail| - 22
    decreases index + 1
  {
    if index < 0 then None else if EndAt(tail, index) then Some(index) else LastEnd(tail, index - 1)
  }

  method FindEnd(tail: Bytes) returns (end: Option<nat>)
    ensures end == LastEnd(tail, |tail| - 22)
    ensures end.Some? ==> EndAt(tail, end.value) && forall i :: end.value < i ==> !EndAt(tail, i)
    ensures end.None? ==> forall i :: !EndAt(tail, i)
  {
    var index := |tail| - 22;
    while index >= 0
      invariant index <= |tail| - 22
      invariant LastEnd(tail, |tail| - 22) == LastEnd(tail, index)
      invariant forall i :: index < i ==> !EndAt(tail, i)
      decreases index
    {
      if U32(tail, index) == END_SIGNATURE { return Some(index); }
      index := index - 1;
    }
    return None;
  }

  // ---------- One header ----------

  function Top(attributes: nat): nat {
    attributes / 0x1000_0000
  }

  predicate IsDirectory(name: string, attributes: nat) {
    (name != "" && name[|name| - 1] == '/') || Top(attributes) == 4
  }

  /** The entry at an offset and the offset after it. */
  function EntryAt(text: Text, central: Bytes, archiveSize: nat, offset: nat): Result<(Entry, nat), Error> {
    if offset + 46 > |central| || U32(central, offset) != CENTRAL_SIGNATURE then Failure(MalformedZip)
    else
      var nameLength := U16(central, offset + 28);
      var end := offset + 46 + nameLength + U16(central, offset + 30) + U16(central, offset + 32);
      var attributes := U32(central, offset + 38);
      var compression := U16(central, offset + 10);
      if end > |central| || U32(central, offset + 42) >= archiveSize || U16(central, offset + 8) % 2 != 0
      then Failure(MalformedZip)
      else
        var raw := text.decode(central[offset + 46..offset + 46 + nameLength]);
        if raw.None? then Failure(MalformedZip)
        else if Top(attributes) == 10 then Failure(Symlink)
        else if compression != 0 && compression != 8 then Failure(UnsupportedCompression)
        else
          match NormalizeName(text.casing, raw.value)
          case Failure(error) => Failure(error)
          case Success(name) =>
            Success((Entry(name, Lower(text.casing, name), IsDirectory(raw.value, attributes),
                           U32(central, offset + 24), U32(central, offset + 20), compression, attributes),
                     end))
  }

  // ---------- Conflicts ----------

  /** A path is above another: it is what comes before one of the slashes. */
  predicate Above(a: string, b: string) {
    a + "/" <= b
  }

  predicate FileParent(casing: Casing, kinds: map<string, bool>, parts: seq<string>, index: nat)
    decreases |parts| - index
  {
    index < |parts|
    && ((var key := Lower(casing, Join(parts[..index])); key in kinds && kinds[key])
        || FileParent(casing, kinds, parts, index + 1))
  }

  predicate FileBelow(kinds: map<string, bool>, key: string) {
    exists other :: other in kinds && kinds[other] && Above(key, other)
  }

  /** Caches and runtime leftovers, which do not count. */
  predicate Disposable(casing: Casing, name: string) {
    || name in {"RunningChromeVersion", "SingletonCookie", "SingletonLock", "SingletonSocket", "BrowserMetrics-spare.pma"}
    || exists i :: 0 <= i < |CACHE_DIRECTORIES| && IsPrefix(casing, CACHE_DIRECTORIES[i], Split(name))
  }

  const CACHE_DIRECTORIES: seq<seq<string>> := [
    ["Default", "Cache"], ["Default", "Code Cache"], ["Default", "GPUCache"], ["Default", "DawnCache"],
    ["Default", "DawnGraphiteCache"], ["Default", "DawnWebGPUCache"], ["Default", "Sync Data"],
    ["ShaderCache"], ["GrShaderCache"], ["GraphiteDawnCache"], ["DawnCache"]]

  predicate IsPrefix(casing: Casing, prefix: seq<string>, parts: seq<string>) {
    |prefix| <= |parts| && forall i :: 0 <= i < |prefix| ==> Lower(casing, prefix[i]) == Lower(casing, parts[i])
  }

  function Counted(casing: Casing, e: Entry): bool {
    !Disposable(casing, e.name) && !e.directory
  }

  function Admit(casing: Casing, st: State, e: Entry): Result<State, Error> {
    if e.key in st.kinds then Failure(CaseCollision)
    else
      var kinds := st.kinds[e.key := !e.directory];
      if FileParent(casing, kinds, Split(e.name), 1) then Failure(ConflictingPath)
      else if !e.directory && FileBelow(kinds, e.key) then Failure(ConflictingPath)
      else if Counted(casing, e) then
        Success(State(st.entries + [e], kinds, st.total + e.fileSize, st.compressed + e.compressedSize,
                      if e.fileSize > st.largest then e.fileSize else st.largest))
      else Success(State(st.entries + [e], kinds, st.total, st.compressed, st.largest))
  }

  // ---------- The whole directory ----------

  function Walk(text: Text, central: Bytes, archiveSize: nat, offset: nat, st: State): Result<State, Error>
    decreases |central| - offset
  {
    if offset >= |central| then Success(st)
    else
      match EntryAt(text, central, archiveSize, offset)
      case Failure(error) => Failure(error)
      case Success((e, end)) =>
        match Admit(text.casing, st, e)
        case Failure(error) => Failure(error)
        case Success(next) => Walk(text, central, archiveSize, end, next)
  }

  function CheckLimits(limits: Limits, archiveSize: nat, count: nat, st: State): Option<Error> {
    if archiveSize > limits.archiveBytes then Some(ArchiveSize)
    else if count > limits.files then Some(FileCount)
    else if st.largest > limits.fileSize then Some(FileSize)
    else if st.total > limits.totalSize then Some(TotalSize)
    else if st.compressed != 0 && st.total > limits.ratio * st.compressed then Some(CompressionRatio)
    else None
  }

  function Min(a: int, b: int): int {
    if a < b then a else b
  }

  function ReadDirectory(text: Text, limits: Limits, archive: Bytes): Result<seq<Entry>, Error> {
    var start := |archive| - Min(|archive|, 22 + 65535);
    var tail := archive[start..];
    var end := LastEnd(tail, |tail| - 22);
    if end.None? || !EndAt(tail, end.value) then Failure(MalformedZip)
    else
      var count, size, offset := U16(tail, end.value + 10), U32(tail, end.value + 12), U32(tail, end.value + 16);
      if count == 0xffff || size == 0xffff_ffff || offset == 0xffff_ffff then Failure(MalformedZip)
      else if count > limits.files then Failure(FileCount)
      else if offset + size > |archive| || size > limits.archiveBytes then Failure(MalformedZip)
      else
        match Walk(text, archive[offset..offset + size], |archive|, 0, NOTHING)
        case Failure(error) => Failure(error)
        case Success(st) =>
          var error := CheckLimits(limits, |archive|, count, st);
          if error.Some? then Failure(error.value) else Success(st.entries)
  }

  // ---------- The loops of the source ----------

  method HasFileParent(casing: Casing, kinds: map<string, bool>, parts: seq<string>) returns (found: bool)
    ensures found == FileParent(casing, kinds, parts, 1)
  {
    var index := 1;
    while index < |parts|
      invariant index >= 1 && FileParent(casing, kinds, parts, 1) == FileParent(casing, kinds, parts, index)
    {
      var parent := Lower(casing, Join(parts[..index]));
      if parent in kinds && kinds[parent] { return true; }
      index := index + 1;
    }
    return false;
  }

  method ReadCentralDirectory(text: Text, limits: Limits, archive: Bytes) returns (r: Result<seq<Entry>, Error>)
    ensures r == ReadDirectory(text, limits, archive)
  {
    hide Walk, EntryAt, LastEnd;
    var tailLength := Min(|archive|, 22 + 65535);
    var tail := archive[|archive| - tailLength..];
    var eocd := FindEnd(tail);
    if eocd.None? { return Failure(MalformedZip); }
    var entryCount := U16(tail, eocd.value + 10);
    var centralSize := U32(tail, eocd.value + 12);
    var centralOffset := U32(tail, eocd.value + 16);
    if entryCount == 0xffff || centralSize == 0xffff_ffff || centralOffset == 0xffff_ffff {
      return Failure(MalformedZip);
    }
    if entryCount > limits.files { return Failure(FileCount); }
    if centralOffset + centralSize > |archive| || centralSize > limits.archiveBytes { return Failure(MalformedZip); }
    var walked := WalkCentral(text, archive[centralOffset..centralOffset + centralSize], |archive|);
    if walked.Failure? { return Failure(walked.error); }
    var error := CheckLimits(limits, |archive|, entryCount, walked.value);
    if error.Some? { return Failure(error.value); }
    return Success(walked.value.entries);
  }

  method WalkCentral(text: Text, central: Bytes, archiveSize: nat) returns (r: Result<State, Error>)
    ensures r == Walk(text, central, archiveSize, 0, NOTHING)
  {
    hide EntryAt, FileParent, FileBelow, Disposable;
    var entries: seq<Entry> := [];
    var kinds: map<string, bool> := map[];
    var total: nat, compressed: nat, largest: nat := 0, 0, 0;
    var offset: nat := 0;
    while offset < |central|
      invariant Walk(text, central, archiveSize, 0, NOTHING)
             == Walk(text, central, archiveSize, offset, State(entries, kinds, total, compressed, largest))
      decreases |central| - offset
    {
      var next := EntryAt(text, central, archiveSize, offset);
      if next.Failure? { return Failure(next.error); }
      var (e, end) := next.value;
      EntriesHaveLength(text, central, archiveSize, offset);
      if e.key in kinds { return Failure(CaseCollision); }
      kinds := kinds[e.key := !e.directory];
      var conflict := HasFileParent(text.casing, kinds, Split(e.name));
      if conflict { return Failure(ConflictingPath); }
      if !e.directory && FileBelow(kinds, e.key) { return Failure(ConflictingPath); }
      if !Disposable(text.casing, e.name) && !e.directory {
        total := total + e.fileSize;
        compressed := compressed + e.compressedSize;
        if e.fileSize > largest { largest := e.fileSize; }
      }
      entries := entries + [e];
      offset := end;
    }
    return Success(State(entries, kinds, total, compressed, largest));
  }

  lemma EntriesHaveLength(text: Text, central: Bytes, archiveSize: nat, offset: nat)
    requires EntryAt(text, central, archiveSize, offset).Success?
    ensures offset + 46 <= EntryAt(text, central, archiveSize, offset).value.1 <= |central|
  {
  }
}
