/** One 512-byte header of a tar archive, read the way the installer reads it, and the part of a
    file system that extraction builds. Names are byte strings. */
module TarFormat {
  import opened Bytes
  import opened Outcomes

  type Name = Bytes
  type Path = seq<Name>

  const SLASH: byte := 47
  const BACKSLASH: byte := 92
  const DOT: Name := [46]
  const DOTDOT: Name := [46, 46]

  // ---------- Text and number fields ----------

  /** A position after which no line ends. */
  predicate LineEndsAt(s: Name, i: nat)
    requires i < |s|
  {
    || s[i] == 10 || s[i] == 13
    || (i + 2 < |s| && s[i] == 0xE2 && s[i + 1] == 0x80 && (s[i + 2] == 0xA8 || s[i + 2] == 0xA9))
  }

  /** The text before the first NUL that is followed by no line end. */
  function CutNul(s: Name): (r: Name)
    ensures r <= s
  {
    CutNulFrom(s, 0)
  }

  function CutNulFrom(s: Name, i: nat): (r: Name)
    requires i <= |s|
    ensures r <= s
    decreases |s| - i
  {
    if i == |s| then s
    else if s[i] == 0 && forall j :: i < j < |s| ==> !LineEndsAt(s, j) then s[..i]
    else CutNulFrom(s, i + 1)
  }

  predicate Blank(b: byte) {
    9 <= b <= 13 || b == 32
  }

  function TrimLeft(s: Name): Name {
    if |s| > 0 && Blank(s[0]) then TrimLeft(s[1..]) else s
  }

  function TrimRight(s: Name): Name {
    if |s| > 0 && Blank(s[|s| - 1]) then TrimRight(s[..|s| - 1]) else s
  }

  predicate IsOctal(b: byte) {
    48 <= b < 56
  }

  function Digit(b: byte): (d: nat)
    requires IsOctal(b)
    ensures d < 8
  {
    b - 48
  }

  /** The value of the longest prefix of octal digits. */
  function OctalPrefix(s: Name, value: nat): nat {
    if |s| > 0 && IsOctal(s[0]) then OctalPrefix(s[1..], 8 * value + Digit(s[0])) else value
  }

  /** Parsing a signed octal number; none stands for "not a number". */
  function ParseOctal(s: Name): Option<int> {
    var signed := |s| > 0 && (s[0] == 43 || s[0] == 45);
    var digits := if signed then s[1..] else s;
    var value: int := OctalPrefix(digits, 0);
    if |digits| == 0 || !IsOctal(digits[0]) then None
    else Some(if signed && s[0] == 45 then -value else value)
  }

  function Ascii(s: Name): Name {
    seq(|s|, i requires 0 <= i < |s| => s[i] % 128)
  }

  function TarNumber(header: Name, offset: nat, length: nat): Option<int>
    requires offset + length <= |header|
  {
    var value := TrimRight(TrimLeft(CutNul(Ascii(header[offset..offset + length]))));
    if |value| == 0 then Some(0) else ParseOctal(value)
  }

  function TarName(header: Name): Name
    requires |header| == 512
  {
    var name := CutNul(header[0..100]);
    var prefix := CutNul(header[345..500]);
    if |prefix| > 0 then prefix + [SLASH] + name else name
  }

  function TarLinkName(header: Name): Name
    requires |header| == 512
  {
    CutNul(header[157..257])
  }

  // ---------- Paths ----------

  function Slashes(s: Name): Name {
    seq(|s|, i requires 0 <= i < |s| => if s[i] == BACKSLASH then SLASH else s[i])
  }

  /** Splitting at slashes; there is always at least one part. */
  function Split(s: Name): (parts: seq<Name>)
    ensures |parts| > 0
  {
    if |s| == 0 then [[]]
    else
      var rest := Split(s[1..]);
      if s[0] == SLASH then [[]] + rest else [[s[0]] + rest[0]] + rest[1..]
  }

  /** Joining drops empty parts and dots. */
  function Plain(parts: seq<Name>): (p: Path)
    ensures [] !in p && DOT !in p
    ensures forall q :: q in p ==> q in parts
  {
    if |parts| == 0 then []
    else if parts[0] == [] || parts[0] == DOT then Plain(parts[1..])
    else [parts[0]] + Plain(parts[1..])
  }

  function PathOf(name: Name): Path {
    Plain(Split(name))
  }

  function Parent(p: Path): Path {
    if |p| == 0 then p else p[..|p| - 1]
  }

  /** An absolute path after walking the parts from it. */
  function Walk(base: Path, parts: seq<Name>): Path
    decreases |parts|
  {
    if |parts| == 0 then base
    else if parts[0] == [] || parts[0] == DOT then Walk(base, parts[1..])
    else if parts[0] == DOTDOT then Walk(Parent(base), parts[1..])
    else Walk(base + [parts[0]], parts[1..])
  }

  // ---------- Headers ----------

  datatype Error = SpecialEntry | UnsafePath | UnsafeLink | Storage | Truncated

  datatype Entry =
    | Bad(error: Error)
    | Pax(size: int)
    | Link(name: Name, target: Name)
    | Directory(path: Path)
    | File(path: Path, size: int, mode: int)

  predicate SafeName(name: Name) {
    |name| > 0 && DOTDOT !in Split(name) && name[0] != SLASH
  }

  /** A link target that stays below the destination, seen from the place of the link. */
  predicate SafeTarget(destination: Path, name: Name, target: Name) {
    && |target| > 0 && target[0] != SLASH
    && destination <= Walk(Parent(destination + PathOf(name)), Split(target))
  }

  predicate AllZero(s: Name) {
    forall i :: 0 <= i < |s| ==> s[i] == 0
  }

  /** What a header asks for. A size that is not a number behaves like zero, except on a link. */
  function Decode(destination: Path, header: Name): Entry
    requires |header| == 512
  {
    var size := TarNumber(header, 124, 12);
    var kind := header[156];
    var name := Slashes(TarName(header));
    if kind !in {48, 0, 50, 53, 120} then Bad(SpecialEntry)
    else if kind == 120 then Pax(size.GetOr(0))
    else if !SafeName(name) then Bad(UnsafePath)
    else if kind == 50 then
      var target := Slashes(TarLinkName(header));
      if size == Some(0) && SafeTarget(destination, name, target) then Link(name, target) else Bad(UnsafeLink)
    else if kind == 53 then Directory(PathOf(name))
    else File(PathOf(name), size.GetOr(0), TarNumber(header, 100, 8).GetOr(0))
  }

  /** Bytes that fill the last block; for a negative size the remainder takes its sign. */
  function Padding(size: int): (n: int)
    ensures 0 <= n < 512
    ensures size >= 0 ==> (size + n) % 512 == 0
  {
    if size >= 0 then (512 - size % 512) % 512 else (-size) % 512
  }

  // ---------- The file system below the destination ----------

  datatype Node = Folder | Regular(content: Name, mode: nat)

  type Files = map<Path, Node>

  function MkdirAll(fs: Files, p: Path): Option<Files>
    decreases |p|
  {
    if |p| == 0 then MkdirOne(fs, p)
    else
      var above := MkdirAll(fs, p[..|p| - 1]);
      if above.None? then None else MkdirOne(above.value, p)
  }

  function MkdirOne(fs: Files, p: Path): Option<Files> {
    if p !in fs then Some(fs[p := Folder]) else if fs[p].Folder? then Some(fs) else None
  }

  /** Folders above the file are made, then the file itself, which must not exist. The folder
      above the destination exists already. */
  function Create(fs: Files, p: Path): Option<Files> {
    var above := if |p| == 0 then Some(fs) else MkdirAll(fs, p[..|p| - 1]);
    if above.None? || p in above.value then None else Some(above.value[p := Regular([], 0x180)])
  }

  function Append(fs: Files, p: Path, data: Name): Files {
    if p in fs && fs[p].Regular? then fs[p := Regular(fs[p].content + data, fs[p].mode)] else fs
  }

  function Chmod(fs: Files, p: Path, mode: int): Files {
    if p in fs && fs[p].Regular?
    then fs[p := Regular(fs[p].content, if mode % 512 == 0 then 0x180 else mode % 512)] else fs
  }
}
