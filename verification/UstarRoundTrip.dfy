/** Archives as a ustar writer lays them out (ustar Interchange Format, pax utility,
    POSIX.1-2017), and what the extractor gives back. Header fields the extractor does not look
    at - owner, time, checksum - and padding bytes are arbitrary. */
module UstarRoundTrip {
  import opened Bytes
  import opened Outcomes
  import opened TarFormat
  import opened TarExtract
  import opened TarRefinement
  import opened TarSafety

  datatype Item =
    | FileItem(prefix: Name, name: Name, content: Name, mode: nat)
    | FolderItem(prefix: Name, name: Name)
    | LinkItem(prefix: Name, name: Name, target: Name)
    | PaxItem(payload: Name)

  function FullName(i: Item): Name
    requires !i.PaxItem?
  {
    if |i.prefix| > 0 then i.prefix + [SLASH] + i.name else i.name
  }

  function ItemPath(i: Item): Path
    requires !i.PaxItem?
  {
    PathOf(FullName(i))
  }

  function Payload(i: Item): Name {
    match i
    case FileItem(_, _, content, _) => content
    case PaxItem(payload) => payload
    case _ => []
  }

  function Power8(w: nat): nat {
    if w == 0 then 1 else 8 * Power8(w - 1)
  }

  function OctalDigits(n: nat, w: nat): (s: Name)
    ensures |s| == w && forall i :: 0 <= i < w ==> IsOctal(s[i])
  {
    if w == 0 then [] else OctalDigits(n / 8, w - 1) + [48 + n % 8]
  }

  /** A text field: the text, then NULs up to the width. */
  predicate HasText(field: Name, text: Name) {
    text <= field && 0 !in text && AllZero(field[|text|..])
  }

  /** A number field: leading zeros, and a NUL or a blank at the end. */
  predicate HasOctal(field: Name, n: nat) {
    && |field| > 0 && n < Power8(|field| - 1)
    && field[..|field| - 1] == OctalDigits(n, |field| - 1)
    && (field[|field| - 1] == 0 || field[|field| - 1] == 32)
  }

  predicate HasName(header: Name, i: Item)
    requires |header| == 512 && !i.PaxItem?
  {
    HasText(header[0..100], i.name) && HasText(header[345..500], i.prefix)
  }

  predicate HeaderOf(header: Name, i: Item) {
    && |header| == 512
    && HasOctal(header[124..136], |Payload(i)|)
    && match i
       case FileItem(_, _, _, mode) =>
         (header[156] == 48 || header[156] == 0) && HasName(header, i) && HasOctal(header[100..108], mode)
       case FolderItem(_, _) => header[156] == 53 && HasName(header, i)
       case LinkItem(_, _, target) => header[156] == 50 && HasName(header, i) && HasText(header[157..257], target)
       case PaxItem(_) => header[156] == 120
  }

  /** A text that is there and does not begin at the root. */
  predicate Relative(s: Name) {
    |s| > 0 && s[0] != SLASH
  }

  /** Items that the extractor takes: relative names and targets, names that lead to where their
      plain parts say, links that stay inside, no backslashes. */
  predicate Legal(destination: Path, i: Item) {
    i.PaxItem? ||
    (&& Relative(FullName(i)) && BACKSLASH !in FullName(i)
     && Walk(destination, Split(FullName(i))) == destination + ItemPath(i)
     && (i.LinkItem? ==>
           && Relative(i.target) && BACKSLASH !in i.target
           && destination <= Walk(Parent(destination + ItemPath(i)), Split(i.target))))
  }

  /** The bytes that an item takes: its header, and its payload in whole blocks. */
  function Blocks(i: Item): nat {
    512 + |Payload(i)| + Padding(|Payload(i)|)
  }

  /** The data begins with the item. */
  predicate Laid(i: Item, data: Name) {
    && Blocks(i) <= |data|
    && HeaderOf(data[..512], i)
    && data[512..512 + |Payload(i)|] == Payload(i)
  }

  /** The data is the items in order, and nothing but zeros after the last one. */
  predicate Written(items: seq<Item>, data: Name)
    decreases |items|
  {
    if |items| == 0 then AllZero(data)
    else Laid(items[0], data) && Written(items[1..], data[Blocks(items[0])..])
  }

  /** The data is the items in order, and then the tail. */
  predicate WrittenThen(items: seq<Item>, data: Name, tail: Name)
    decreases |items|
  {
    if |items| == 0 then data == tail
    else Laid(items[0], data) && WrittenThen(items[1..], data[Blocks(items[0])..], tail)
  }

  // ---------- Fields ----------

  lemma {:induction false} CutNulSkips(s: Name, text: Name, i: nat)
    requires i <= |text| && HasText(s, text)
    ensures CutNulFrom(s, i) == text
    decreases |text| - i
  {
    if i < |text| {
      assert s[i] == text[i] && text[i] in text;
      CutNulSkips(s, text, i + 1);
    } else if i < |s| {
      assert s[i] == s[|text|..][0];
      forall j | i < j < |s|
        ensures !LineEndsAt(s, j)
      {
        assert s[j] == s[|text|..][j - |text|];
      }
    }
  }

  lemma {:induction false} OctalPrefixJoins(a: Name, b: Name, value: nat)
    requires forall i :: 0 <= i < |a| ==> IsOctal(a[i])
    ensures OctalPrefix(a + b, value) == OctalPrefix(b, OctalPrefix(a, value))
    decreases |a|
  {
    if |a| == 0 {
      assert a + b == b;
    } else {
      assert (a + b)[1..] == a[1..] + b;
      OctalPrefixJoins(a[1..], b, 8 * value + Digit(a[0]));
    }
  }

  lemma {:induction false} OctalReadsBack(n: nat, w: nat)
    requires n < Power8(w)
    ensures OctalPrefix(OctalDigits(n, w), 0) == n
  {
    if w > 0 {
      OctalReadsBack(n / 8, w - 1);
      OctalPrefixJoins(OctalDigits(n / 8, w - 1), [48 + n % 8], 0);
    }
  }

  lemma NumberReadsBack(header: Name, offset: nat, length: nat, n: nat)
    requires offset + length <= |header| && length > 1 && HasOctal(header[offset..offset + length], n)
    ensures TarNumber(header, offset, length) == Some(n)
  {
    hide OctalPrefix, OctalDigits, Power8;
    var field := header[offset..offset + length];
    var digits := OctalDigits(n, length - 1);
    OctalReadsBack(n, length - 1);
    assert field == digits + [field[length - 1]];
    assert Ascii(field) == field;
    if field[length - 1] == 0 {
      assert field[|digits|..] == [0];
      CutNulSkips(field, digits, 0);
      assert TrimLeft(digits) == digits && TrimRight(digits) == digits;
    } else {
      assert HasText(field, field);
      CutNulSkips(field, field, 0);
      assert TrimLeft(field) == field;
      assert field[..|field| - 1] == digits;
      assert TrimRight(field) == TrimRight(digits) == digits;
    }
  }

  lemma NameReadsBack(header: Name, i: Item)
    requires |header| == 512 && !i.PaxItem? && HasName(header, i) && BACKSLASH !in FullName(i)
    ensures Slashes(TarName(header)) == FullName(i)
  {
    CutNulSkips(header[0..100], i.name, 0);
    CutNulSkips(header[345..500], i.prefix, 0);
    SlashesNothing(FullName(i));
  }

  lemma SlashesNothing(s: Name)
    requires BACKSLASH !in s
    ensures Slashes(s) == s
  {
    forall k | 0 <= k < |s|
      ensures Slashes(s)[k] == s[k]
    {
      assert s[k] in s;
    }
  }

  /** What the extractor understands of an item's header. */
  function EntryOf(i: Item): Entry {
    match i
    case FileItem(_, _, content, mode) => File(ItemPath(i), |content|, mode)
    case FolderItem(_, _) => Directory(ItemPath(i))
    case LinkItem(_, _, target) => Link(FullName(i), target)
    case PaxItem(payload) => Pax(|payload|)
  }

  lemma HeaderReadsBack(destination: Path, header: Name, i: Item)
    requires HeaderOf(header, i) && Legal(destination, i)
    ensures Decode(destination, header) == EntryOf(i) && !AllZero(header)
  {
    hide TarNumber, TarName, TarLinkName, Walk, HasText, HasOctal;
    NumberReadsBack(header, 124, 12, |Payload(i)|);
    assert header[124..136] == header[124..124 + 12];
    if !i.PaxItem? {
      NameReadsBack(header, i);
      WalkIsPlainIff(destination, Split(FullName(i)));
    }
    if i.FileItem? {
      NumberReadsBack(header, 100, 8, i.mode);
    }
    if i.LinkItem? {
      LinkReadsBack(header, i);
    }
    HeaderIsNotZero(header, i);
  }

  lemma LinkReadsBack(header: Name, i: Item)
    requires i.LinkItem? && HeaderOf(header, i) && BACKSLASH !in i.target
    ensures Slashes(TarLinkName(header)) == i.target
  {
    CutNulSkips(header[157..257], i.target, 0);
    SlashesNothing(i.target);
  }

  lemma HeaderIsNotZero(header: Name, i: Item)
    requires HeaderOf(header, i)
    ensures !AllZero(header)
  {
    var digits := OctalDigits(|Payload(i)|, 11);
    assert header[124] == header[124..136][..11][0] == digits[0];
  }

  // ---------- What extraction should build ----------

  /** The mode a file gets: its permission bits, or read and write for the owner. */
  function FileMode(mode: nat): nat {
    if mode % 512 == 0 then 0x180 else mode % 512
  }

  /** The effect of one item on the tree; none if something is in the way. */
  function Place(t: Tree, i: Item): Option<Tree> {
    match i
    case FileItem(_, _, content, mode) =>
      var p := ItemPath(i);
      var above := if |p| == 0 then Some(t.fs) else MkdirAll(t.fs, p[..|p| - 1]);
      if above.None? || p in above.value then None
      else Some(t.(fs := above.value[p := Regular(content, FileMode(mode))]))
    case FolderItem(_, _) =>
      var made := MkdirAll(t.fs, ItemPath(i));
      if made.None? then None else Some(t.(fs := made.value))
    case LinkItem(_, _, target) => Some(t.(links := t.links + [(FullName(i), target)]))
    case PaxItem(_) => Some(t)
  }

  function Build(t: Tree, items: seq<Item>): Option<Tree>
    decreases |items|
  {
    if |items| == 0 then Some(t)
    else
      var next := Place(t, items[0]);
      if next.None? then None else Build(next.value, items[1..])
  }

  function VerdictOf(built: Option<Tree>): Verdict {
    if built.None? then Refused(Storage) else Extracted(built.value)
  }

  // ---------- Reading what was written ----------

  /** From c on, the one-pass reader ends with the verdict, and chunks do not matter. */
  ghost predicate Reads(destination: Path, c: Core, data: Name, v: Verdict) {
    && NonNegative(destination, c, data) && InertTail(destination, c, data)
    && Read(destination, false, c, data) == v
  }

  lemma UnitReads(destination: Path, c: Core, data: Name, next: Core, rest: Name, v: Verdict)
    requires ModeOk(c.mode) && !AtZero(c, data)
    requires ReadUnit(destination, c, data) == Next(next, rest) && Reads(destination, next, rest, v)
    ensures Reads(destination, c, data, v)
  {
    hide ReadUnit, AtZero;
  }

  lemma ZerosRead(destination: Path, t: Tree, data: Name)
    requires AllZero(data)
    ensures Reads(destination, Core(t, Header), data, Extracted(t))
  {
    ZerosAreInert(destination, t, data);
    InertIsTail(destination, t, data);
    TailReadsAlike(destination, Core(t, Header), data);
  }

  lemma PadReads(destination: Path, t: Tree, data: Name, n: nat, v: Verdict)
    requires n <= |data| && Reads(destination, Core(t, Header), data[n..], v)
    ensures Reads(destination, AfterPad(t, n), data, v)
  {
    if n == 0 {
      assert data[n..] == data;
    } else {
      UnitReads(destination, AfterPad(t, n), data, Core(t, Header), data[n..], v);
    }
  }

  lemma SkipReads(destination: Path, t: Tree, data: Name, size: nat, v: Verdict)
    requires size + Padding(size) <= |data| && Reads(destination, Core(t, Header), data[size + Padding(size)..], v)
    ensures Reads(destination, AfterSkip(t, size, Padding(size)), data, v)
  {
    hide Reads, Padding, Enter;
    var n := size + Padding(size);
    if n == 0 {
      assert data[n..] == data;
    } else {
      UnitReads(destination, Core(t, Skip(size, Padding(size))), data, Core(t, Header), data[n..], v);
    }
  }

  lemma BodyReads(destination: Path, t: Tree, i: Item, data: Name, t': Tree, v: Verdict)
    requires i.FileItem? && Place(t, i) == Some(t')
    requires var n := |i.content|;
             n + Padding(n) <= |data| && data[..n] == i.content
             && Reads(destination, Core(t', Header), data[n + Padding(n)..], v)
    ensures var p := ItemPath(i);
            Create(t.fs, p).Some?
            && var file := Open(p, |i.content|, i.mode);
               Reads(destination, Core(t.(fs := Create(t.fs, p).value), Body(file, |i.content|)), data, v)
  {
    hide Reads, MkdirAll;
    var p, n := ItemPath(i), |i.content|;
    var created := t.(fs := Create(t.fs, p).value);
    var c := Core(created, Body(Open(p, n, i.mode), n));
    assert [] + i.content == i.content;
    assert data[n..][Padding(n)..] == data[n + Padding(n)..];
    PadReads(destination, t', data[n..], Padding(n), v);
    var next := Close(created.(fs := Append(created.fs, p, data[..n])), Open(p, n, i.mode));
    assert next.tree.fs == t'.fs;
    UnitReads(destination, c, data, next, data[n..], v);
  }

  /** An item whose effect is possible is read as that effect; otherwise the archive is refused. */
  lemma ItemReads(destination: Path, t: Tree, i: Item, data: Name, v: Verdict)
    requires Laid(i, data) && Legal(destination, i)
    requires if Place(t, i).Some? then Reads(destination, Core(Place(t, i).value, Header), data[Blocks(i)..], v)
             else v == Refused(Storage)
    ensures Reads(destination, Core(t, Header), data, v)
  {
    hide Reads, MkdirAll, Decode, Legal, HeaderOf;
    var header, rest := data[..512], data[512..];
    var n := |Payload(i)|;
    var c := Core(t, Header);
    HeaderReadsBack(destination, header, i);
    assert rest[n + Padding(n)..] == data[Blocks(i)..];
    assert rest[..n] == Payload(i);
    var next := Enter(destination, t, header);
    if next.Some? {
      match i {
        case FileItem(_, _, _, _) => BodyReads(destination, t, i, rest, Place(t, i).value, v);
        case PaxItem(_) => SkipReads(destination, t, rest, n, v);
        case _ => assert rest[n + Padding(n)..] == rest;
      }
      UnitReads(destination, c, data, next.value, rest, v);
    } else {
      RefusedReads(destination, c, data);
    }
  }

  lemma RefusedReads(destination: Path, c: Core, data: Name)
    requires c.mode.Header? && |data| >= 512 && !AllZero(data[..512]) && Enter(destination, c.tree, data[..512]).None?
    ensures Reads(destination, c, data, Refused(EnterError(destination, data[..512])))
  {
  }

  lemma {:induction false} WrittenReads(destination: Path, t: Tree, items: seq<Item>, data: Name)
    requires Written(items, data) && forall i :: i in items ==> Legal(destination, i)
    ensures Reads(destination, Core(t, Header), data, VerdictOf(Build(t, items)))
    decreases |items|
  {
    hide Reads, Legal, Place, HeaderOf;
    if |items| == 0 {
      ZerosRead(destination, t, data);
    } else {
      var next := Place(t, items[0]);
      if next.Some? {
        WrittenReads(destination, next.value, items[1..], data[Blocks(items[0])..]);
      }
      ItemReads(destination, t, items[0], data, VerdictOf(Build(t, items)));
    }
  }

  /** A header that cannot be entered ends the reading after the items before it. */
  lemma {:induction false} RefusalReads(destination: Path, t: Tree, items: seq<Item>, data: Name, tail: Name)
    requires WrittenThen(items, data, tail) && forall i :: i in items ==> Legal(destination, i)
    requires |tail| >= 512 && !AllZero(tail[..512]) && Build(t, items).Some?
    requires Enter(destination, Build(t, items).value, tail[..512]).None?
    ensures Reads(destination, Core(t, Header), data, Refused(EnterError(destination, tail[..512])))
    decreases |items|
  {
    hide Reads, Legal, Place, HeaderOf, Enter, EnterError;
    if |items| == 0 {
      RefusedReads(destination, Core(t, Header), data);
    } else {
      RefusalReads(destination, Place(t, items[0]).value, items[1..], data[Blocks(items[0])..], tail);
      ItemReads(destination, t, items[0], data, Refused(EnterError(destination, tail[..512])));
    }
  }

  /** Writing items and extracting the bytes, however they are cut, is building the items. */
  lemma ExtractionUndoesWriting(destination: Path, items: seq<Item>, chunks: seq<Name>)
    requires Written(items, Concat(chunks)) && forall i :: i in items ==> Legal(destination, i)
    ensures Extract(destination, chunks) == VerdictOf(Build(EMPTY.tree, items))
  {
    WrittenReads(destination, EMPTY.tree, items, Concat(chunks));
    ChunksDoNotMatter(destination, chunks);
  }

  /** The first header that is refused ends the extraction with its error, whatever follows it
      and however the bytes are cut. */
  lemma RefusalEnds(destination: Path, items: seq<Item>, tail: Name, chunks: seq<Name>)
    requires WrittenThen(items, Concat(chunks), tail) && forall i :: i in items ==> Legal(destination, i)
    requires Build(EMPTY.tree, items).Some? && |tail| >= 512 && !AllZero(tail[..512])
    requires Step(destination, Core(Build(EMPTY.tree, items).value, Header), tail).Stop?
    ensures Extract(destination, chunks)
            == Refused(Step(destination, Core(Build(EMPTY.tree, items).value, Header), tail).error)
  {
    hide Enter, EnterError, Build, WrittenThen, Legal, InertTail, Read, NonNegative;
    RefusalReads(destination, EMPTY.tree, items, Concat(chunks), tail);
    ChunksDoNotMatter(destination, chunks);
  }

  /** ... so an entry of any other kind ends it, and so does a name that leads up. */
  lemma BadHeaderEnds(destination: Path, items: seq<Item>, tail: Name, chunks: seq<Name>)
    requires WrittenThen(items, Concat(chunks), tail) && forall i :: i in items ==> Legal(destination, i)
    requires Build(EMPTY.tree, items).Some? && |tail| >= 512 && !AllZero(tail[..512])
    ensures var kind := tail[156];
            && (kind !in {0, 48, 50, 53, 120} ==> Extract(destination, chunks) == Refused(SpecialEntry))
            && (kind in {0, 48, 50, 53} && DOTDOT in Split(Slashes(TarName(tail[..512])))
                ==> Extract(destination, chunks) == Refused(UnsafePath))
  {
    hide Step, Build, WrittenThen, Legal, TarName, TarLinkName, TarNumber, Split, Walk, Plain, Slashes;
    var c := Core(Build(EMPTY.tree, items).value, Header);
    RefusedIff(destination, c, tail);
    WalkIsPlainIff(destination, Split(Slashes(TarName(tail[..512]))));
    assert tail[..512][156] == tail[156];
    if Step(destination, c, tail).Stop? {
      RefusalEnds(destination, items, tail, chunks);
    }
  }

  /** A link may take the destination's own place: a name of dots and slashes alone is accepted
      when the target is the destination itself. */
  lemma LinkInPlace(destination: Path, target: Name)
    requires |destination| > 0 && target == destination[|destination| - 1]
    requires Relative(target) && SLASH !in target && BACKSLASH !in target && target != DOT && target != DOTDOT
    ensures Legal(destination, LinkItem([], DOT, target)) && Walk(destination, Split(DOT)) == destination
  {
    var i := LinkItem([], DOT, target);
    assert FullName(i) == DOT;
    OnePart(DOT);
    assert Plain([DOT]) == [] && destination + [] == destination;
    OnePart(target);
    assert Walk(destination, [DOT]) == Walk(destination, []) == destination;
    var above := Parent(destination);
    assert Walk(above, [target]) == above + [target] == destination;
  }

  lemma {:induction false} OnePart(s: Name)
    requires SLASH !in s
    ensures Split(s) == [s]
  {
    if |s| > 0 {
      OnePart(s[1..]);
      assert [s[0]] + s[1..] == s;
    }
  }

  // ---------- Conflict-free lists ----------

  ghost predicate OnDisk(i: Item) {
    i.FileItem? || i.FolderItem?
  }

  /** No file lies on the way to another item. */
  ghost predicate ConflictFree(items: seq<Item>) {
    forall i, j :: 0 <= i < |items| && 0 <= j < |items| && i != j && items[i].FileItem? && OnDisk(items[j])
      ==> !(ItemPath(items[i]) <= ItemPath(items[j]))
  }

  /** Everything in the tree comes from the items: files from file items, folders from the
      paths above them and from folder items. */
  ghost predicate ComesFrom(fs: Files, items: seq<Item>) {
    forall p :: p in fs ==> Explained(p, fs[p], items)
  }

  ghost predicate Explained(p: Path, node: Node, items: seq<Item>) {
    if node.Regular? then exists k :: 0 <= k < |items| && items[k].FileItem? && ItemPath(items[k]) == p
    else exists k :: 0 <= k < |items| && OnDisk(items[k]) && p <= ItemPath(items[k])
                     && (items[k].FileItem? ==> p != ItemPath(items[k]))
  }

  /** The tree holds what the item says. */
  ghost predicate Holds(fs: Files, i: Item) {
    match i
    case FileItem(_, _, content, mode) => ItemPath(i) in fs && fs[ItemPath(i)] == Regular(content, FileMode(mode))
    case FolderItem(_, _) => ItemPath(i) in fs && fs[ItemPath(i)].Folder?
    case _ => true
  }

  lemma {:induction false} MkdirMakes(fs: Files, p: Path)
    requires forall q :: q <= p && q in fs ==> fs[q].Folder?
    ensures var made := MkdirAll(fs, p);
            && made.Some? && p in made.value && made.value[p].Folder?
            && (forall q :: q in fs ==> q in made.value && made.value[q] == fs[q])
            && (forall q :: q in made.value && q !in fs ==> q <= p && made.value[q].Folder?)
    decreases |p|
  {
    if |p| > 0 {
      MkdirMakes(fs, p[..|p| - 1]);
    }
  }

  lemma ExplainedStill(p: Path, node: Node, items: seq<Item>, k: nat)
    requires k < |items| && Explained(p, node, items[..k])
    ensures Explained(p, node, items[..k + 1])
  {
    var before, after := items[..k], items[..k + 1];
    if node.Regular? {
      var j :| 0 <= j < |before| && before[j].FileItem? && ItemPath(before[j]) == p;
      assert after[j] == before[j];
    } else {
      var j :| 0 <= j < |before| && OnDisk(before[j]) && p <= ItemPath(before[j])
               && (before[j].FileItem? ==> p != ItemPath(before[j]));
      assert after[j] == before[j];
    }
  }

  /** Nothing on the way to the next item is a file, and a file's own place is free. */
  lemma WayIsClear(fs: Files, items: seq<Item>, k: nat, q: Path)
    requires k < |items| && ConflictFree(items) && ComesFrom(fs, items[..k]) && OnDisk(items[k])
    requires q in fs && q <= ItemPath(items[k])
    ensures fs[q].Folder? && (items[k].FileItem? ==> q != ItemPath(items[k]))
  {
    hide PathOf;
    assert Explained(q, fs[q], items[..k]);
    assert forall j :: 0 <= j < k ==> items[..k][j] == items[j];
  }

  /** What placing adds to the files: the item, and folders above it. */
  lemma PlaceAdds(t: Tree, i: Item)
    requires OnDisk(i)
    requires forall q :: q in t.fs && q <= ItemPath(i) ==> t.fs[q].Folder? && (i.FileItem? ==> q != ItemPath(i))
    ensures Place(t, i).Some? && Place(t, i).value.links == t.links
    ensures var fs := Place(t, i).value.fs;
            && Holds(fs, i)
            && (forall q :: q in t.fs ==> q in fs && fs[q] == t.fs[q])
            && forall q :: q in fs && q !in t.fs ==>
                 q <= ItemPath(i) && (if i.FileItem? && q == ItemPath(i) then fs[q].Regular? else fs[q].Folder?)
  {
    hide PathOf;
    var p := ItemPath(i);
    var above := if i.FolderItem? || |p| == 0 then p else p[..|p| - 1];
    forall q | q in t.fs && q <= above
      ensures t.fs[q].Folder?
    {
      assert q <= p;
    }
    MkdirMakes(t.fs, above);
    forall q | q in MkdirAll(t.fs, above).value && q !in t.fs
      ensures q <= p && (above != p ==> q != p)
    {
      assert q <= above;
    }
  }

  lemma PlacedComesFrom(old_: Files, fs: Files, items: seq<Item>, k: nat)
    requires k < |items| && ComesFrom(old_, items[..k])
    requires forall q :: q in old_ ==> q in fs && fs[q] == old_[q]
    requires forall q :: q in fs && q !in old_ ==>
               && OnDisk(items[k]) && q <= ItemPath(items[k])
               && (if items[k].FileItem? && q == ItemPath(items[k]) then fs[q].Regular? else fs[q].Folder?)
    ensures ComesFrom(fs, items[..k + 1])
  {
    hide PathOf;
    forall q | q in fs
      ensures Explained(q, fs[q], items[..k + 1])
    {
      if q in old_ {
        assert Explained(q, old_[q], items[..k]);
        ExplainedStill(q, fs[q], items, k);
      } else {
        assert items[..k + 1][k] == items[k];
      }
    }
  }

  /** In a conflict-free list the next item can be placed, and everything before it stays. */
  lemma PlaceFits(t: Tree, items: seq<Item>, k: nat)
    requires k < |items| && ConflictFree(items) && ComesFrom(t.fs, items[..k])
    ensures Place(t, items[k]).Some?
    ensures var fs := Place(t, items[k]).value.fs;
            && Holds(fs, items[k]) && ComesFrom(fs, items[..k + 1])
            && forall q :: q in t.fs ==> q in fs && fs[q] == t.fs[q]
    ensures Place(t, items[k]).value.links == t.links + LinksOf([items[k]])
  {
    hide ConflictFree, ComesFrom, MkdirAll;
    var i := items[k];
    if OnDisk(i) {
      forall q | q in t.fs && q <= ItemPath(i)
        ensures t.fs[q].Folder? && (i.FileItem? ==> q != ItemPath(i))
      {
        WayIsClear(t.fs, items, k, q);
      }
      PlaceAdds(t, i);
    }
    PlacedComesFrom(t.fs, Place(t, i).value.fs, items, k);
  }

  function LinksOf(items: seq<Item>): seq<(Name, Name)> {
    if |items| == 0 then []
    else (if items[0].LinkItem? then [(FullName(items[0]), items[0].target)] else []) + LinksOf(items[1..])
  }

  lemma {:induction false} BuildFits(t: Tree, items: seq<Item>, k: nat)
    requires k <= |items| && ConflictFree(items) && ComesFrom(t.fs, items[..k])
    requires forall j :: 0 <= j < k ==> Holds(t.fs, items[j])
    ensures var built := Build(t, items[k..]);
            && built.Some? && built.value.links == t.links + LinksOf(items[k..])
            && forall i :: i in items ==> Holds(built.value.fs, i)
    decreases |items| - k
  {
    hide Place, ConflictFree, ComesFrom;
    if k == |items| {
      assert items[k..] == [];
    } else {
      PlaceFits(t, items, k);
      var next := Place(t, items[k]).value;
      assert items[k..][1..] == items[k + 1..];
      forall j | 0 <= j < k + 1
        ensures Holds(next.fs, items[j])
      {
        if j < k {
          assert Holds(t.fs, items[j]);
        }
      }
      BuildFits(next, items, k + 1);
      assert LinksOf(items[k..]) == LinksOf([items[k]]) + LinksOf(items[k + 1..]);
    }
  }

  /** A conflict-free archive gives back every name, every byte, every nonzero mode and every
      link target, whatever the chunks. */
  lemma EverythingComesBack(destination: Path, items: seq<Item>, chunks: seq<Name>)
    requires Written(items, Concat(chunks)) && forall i :: i in items ==> Legal(destination, i)
    requires ConflictFree(items)
    ensures var v := Extract(destination, chunks);
            && v.Extracted? && v.tree.links == LinksOf(items)
            && forall i :: i in items ==> Holds(v.tree.fs, i)
  {
    hide Extract, Build, Written, ConflictFree;
    ExtractionUndoesWriting(destination, items, chunks);
    assert items[0..] == items;
    BuildFits(EMPTY.tree, items, 0);
  }

  // ---------- Two archives for which chunks matter ----------

  /** A header whose size field starts with a minus sign. */
  predicate HasNegative(field: Name, n: nat) {
    && |field| > 1 && n < Power8(|field| - 2) && field[0] == 45
    && HasOctal(field[1..], n)
  }

  lemma NegativeReadsBack(header: Name, offset: nat, length: nat, n: nat)
    requires offset + length <= |header| && length > 2 && HasNegative(header[offset..offset + length], n)
    requires header[offset + length - 1] == 0
    ensures TarNumber(header, offset, length) == Some(0 - n)
  {
    var field := header[offset..offset + length];
    var digits := OctalDigits(n, length - 2);
    OctalReadsBack(n, length - 2);
    assert field == [45] + digits + [0];
    var text := [45] + digits;
    assert Ascii(field) == field && field[|text|..] == [0];
    CutNulSkips(field, text, 0);
    assert TrimLeft(text) == text && TrimRight(text) == text && text[1..] == digits;
  }

  /** An archive given in one piece, and the same archive given in two. */
  lemma OnePiece(destination: Path, whole: Name)
    ensures Feed(destination, EMPTY, [], [whole])
            == var turn := Drain(destination, EMPTY, whole);
               if turn.Stop? then turn else Wait(turn.core, turn.buffer)
  {
    hide Drain;
    assert [] + whole == whole;
  }

  lemma TwoPieces(destination: Path, first: Name, second: Name)
    requires Drain(destination, EMPTY, first) == Wait(EMPTY, [])
    ensures Feed(destination, EMPTY, [], [first, second]) == Feed(destination, EMPTY, [], [second])
  {
    hide Drain;
    assert [] + first == first && [first, second][1..] == [second];
  }

  lemma SpecialStops(destination: Path, special: Name)
    requires |special| == 512 && special[156] == 55
    ensures Drain(destination, EMPTY, special) == Stop(SpecialEntry)
  {
    hide TarNumber, TarName, TarLinkName, SafeName, SafeTarget;
    assert special[..512] == special && !AllZero(special);
  }

  lemma ZeroWaits(destination: Path, zeros: Name, rest: Name)
    requires |zeros| == 512 && AllZero(zeros)
    ensures Drain(destination, EMPTY, zeros + rest) == Wait(EMPTY, rest)
  {
    hide Enter, EnterError;
    assert (zeros + rest)[..512] == zeros && (zeros + rest)[512..] == rest;
  }

  /** After a zero header the rest of the same chunk is never read, but a later chunk is. */
  lemma ZeroHeaderSplits(destination: Path, zeros: Name, special: Name)
    requires |zeros| == 512 && AllZero(zeros)
    requires |special| == 512 && special[156] == 55
    ensures Extract(destination, [zeros + special]) == Extracted(EMPTY.tree)
    ensures Extract(destination, [zeros, special]) == Refused(SpecialEntry)
  {
    hide Drain, Feed;
    ZeroWaits(destination, zeros, special);
    ZeroWaits(destination, zeros, []);
    assert zeros + [] == zeros;
    SpecialStops(destination, special);
    OnePiece(destination, zeros + special);
    TwoPieces(destination, zeros, special);
    OnePiece(destination, special);
  }

  /** The bytes that follow a PAX header of size -512 in the same buffer are dropped, all but
      the last 512. */
  lemma NegativeDrops(destination: Path, pax: Name, rest: Name, kept: Name)
    requires |pax| == 512 && pax[156] == 120 && HasNegative(pax[124..136], 512) && pax[135] == 0
    requires kept == if |rest| <= 512 then rest else rest[|rest| - 512..]
    ensures Drain(destination, EMPTY, pax + rest) == Drain(destination, EMPTY, kept)
  {
    hide Drain, TarNumber, TarName, TarLinkName, SafeName, SafeTarget, HasNegative;
    NegativeReadsBack(pax, 124, 12, 512);
    assert pax[124..124 + 12] == pax[124..136];
    assert (pax + rest)[..512] == pax && (pax + rest)[512..] == rest && !AllZero(pax);
    var skip := Core(EMPTY.tree, Skip(-512, 0));
    assert Enter(destination, EMPTY.tree, pax) == Some(skip);
    DrainAgain(destination, EMPTY, pax + rest, skip, rest);
    DrainAgain(destination, skip, rest, EMPTY, kept);
  }

  lemma DrainAgain(destination: Path, c: Core, buffer: Name, next: Core, rest: Name)
    requires Step(destination, c, buffer) == Again(next, rest)
    ensures Drain(destination, c, buffer) == Drain(destination, next, rest)
  {
    hide Step;
  }

  /** A PAX record of negative size makes the reader keep the last bytes of its buffer, however
      many there are. */
  lemma NegativeSizeSplits(destination: Path, pax: Name, zeros: Name, special: Name)
    requires |pax| == 512 && pax[156] == 120 && HasNegative(pax[124..136], 512) && pax[135] == 0
    requires |zeros| == 512 && AllZero(zeros)
    requires |special| == 512 && special[156] == 55
    ensures Extract(destination, [pax + (zeros + special)]) == Refused(SpecialEntry)
    ensures Extract(destination, [pax, zeros + special]) == Extracted(EMPTY.tree)
  {
    hide Drain, Feed, HasNegative;
    var rest := zeros + special;
    assert rest[|rest| - 512..] == special;
    NegativeDrops(destination, pax, rest, special);
    SpecialStops(destination, special);
    OnePiece(destination, pax + rest);
    NegativeDrops(destination, pax, [], []);
    assert pax + [] == pax;
    NothingWaits(destination);
    TwoPieces(destination, pax, rest);
    ZeroWaits(destination, zeros, special);
    OnePiece(destination, rest);
  }

  lemma NothingWaits(destination: Path)
    ensures Drain(destination, EMPTY, []) == Wait(EMPTY, [])
  {
  }
}
