/** What reading a directory means without the reader: which lists of entries the bytes hold, which
    of them may be returned, and which rule is broken when none is. */
module ZipRules {
  import opened Bytes
  import opened Outcomes
  import opened ZipNames
  import opened ZipDirectory
  import opened ZipConflicts
  import opened ZipRoundTrip

  // ---------- The headers ----------

  function HeaderEnd(central: Bytes, offset: nat): nat
    requires offset + 46 <= |central|
  {
    offset + 46 + U16(central, offset + 28) + U16(central, offset + 30) + U16(central, offset + 32)
  }

  /** The name as it is written in a header. */
  function RawName(text: Text, central: Bytes, offset: nat): Option<string>
    requires offset + 46 <= |central| && HeaderEnd(central, offset) <= |central|
  {
    text.decode(central[offset + 46..offset + 46 + U16(central, offset + 28)])
  }

  /** A header that is whole, unencrypted, and of an entry that is in the archive, stored or
      deflated, and no link; the entry says what the header says. */
  ghost predicate Describes(text: Text, central: Bytes, archiveSize: nat, offset: nat, e: Entry) {
    && offset + 46 <= |central| && U32(central, offset) == CENTRAL_SIGNATURE
    && HeaderEnd(central, offset) <= |central|
    && U16(central, offset + 8) % 2 == 0 && U32(central, offset + 42) < archiveSize
    && e.compression == U16(central, offset + 10) && e.compression in {0, 8}
    && e.compressedSize == U32(central, offset + 20) && e.fileSize == U32(central, offset + 24)
    && e.attributes == U32(central, offset + 38) && e.attributes / 0x1000_0000 != 10
    && var raw := RawName(text, central, offset);
       && raw.Some? && NormalizeName(text.casing, raw.value) == Success(e.name)
       && e.key == Lower(text.casing, e.name)
       && e.directory == ((raw.value != "" && raw.value[|raw.value| - 1] == '/') || e.attributes / 0x1000_0000 == 4)
  }

  lemma EntryIff(text: Text, central: Bytes, archiveSize: nat, offset: nat, e: Entry, end: nat)
    ensures EntryAt(text, central, archiveSize, offset) == Success((e, end))
            <==> Describes(text, central, archiveSize, offset, e) && end == HeaderEnd(central, offset)
  {
    hide NormalizeName, U16, U32;
  }

  /** The entries are those of the headers from the offset on, one after the other to the end. */
  ghost predicate Chain(text: Text, central: Bytes, archiveSize: nat, offset: nat, es: seq<Entry>)
    decreases |es|
  {
    if |es| == 0 then offset >= |central|
    else Describes(text, central, archiveSize, offset, es[0])
         && Chain(text, central, archiveSize, HeaderEnd(central, offset), es[1..])
  }

  lemma {:induction false} WalkExtends(text: Text, central: Bytes, archiveSize: nat, offset: nat, st: State)
    requires Walk(text, central, archiveSize, offset, st).Success?
    ensures st.entries <= Walk(text, central, archiveSize, offset, st).value.entries
    decreases |central| - offset
  {
    hide EntryAt, Admit;
    if offset < |central| {
      EntriesHaveLength(text, central, archiveSize, offset);
      var (e, end) := EntryAt(text, central, archiveSize, offset).value;
      AdmitNotes(text.casing, st, e);
      WalkExtends(text, central, archiveSize, end, Admit(text.casing, st, e).value);
    }
  }

  /** Walking from an offset gives these entries exactly if they are the ones that follow and
      may be admitted. */
  lemma {:induction false} WalkIff(text: Text, central: Bytes, archiveSize: nat, offset: nat, st: State, es: seq<Entry>)
    requires AdmitAll(text.casing, st.entries) == Success(st)
    ensures var r := Walk(text, central, archiveSize, offset, st);
            r.Success? && r.value.entries == st.entries + es
            <==> Chain(text, central, archiveSize, offset, es) && AdmitAll(text.casing, st.entries + es).Success?
    decreases |central| - offset
  {
    hide EntryAt, Admit, Describes, AdmitAll;
    var casing, next := text.casing, EntryAt(text, central, archiveSize, offset);
    if offset >= |central| {
      assert st.entries + [] == st.entries;
      if |es| > 0 && Describes(text, central, archiveSize, offset, es[0]) {
        DescribesIsInside(text, central, archiveSize, offset, es[0]);
      }
    } else {
      if |es| > 0 && Describes(text, central, archiveSize, offset, es[0]) {
        DescribesIsInside(text, central, archiveSize, offset, es[0]);
        EntryIff(text, central, archiveSize, offset, es[0], HeaderEnd(central, offset));
      }
      if next.Success? {
        var (e, end) := next.value;
        EntriesHaveLength(text, central, archiveSize, offset);
        EntryIff(text, central, archiveSize, offset, e, end);
        AdmitOneMore(casing, st, e);
        var admitted := Admit(casing, st, e);
        if |es| > 0 && es[0] == e {
          assert st.entries + es == (st.entries + [e]) + es[1..];
          if admitted.Success? {
            WalkIff(text, central, archiveSize, end, admitted.value, es[1..]);
          } else {
            FailureStays(casing, st.entries + [e], es[1..]);
          }
        } else if admitted.Success? && Walk(text, central, archiveSize, end, admitted.value).Success? {
          WalkExtends(text, central, archiveSize, end, admitted.value);
          var r := Walk(text, central, archiveSize, end, admitted.value).value.entries;
          assert r[|st.entries|] == (st.entries + [e])[|st.entries|] == e;
        }
      }
    }
  }

  lemma DescribesIsInside(text: Text, central: Bytes, archiveSize: nat, offset: nat, e: Entry)
    requires Describes(text, central, archiveSize, offset, e)
    ensures offset + 46 <= |central| && HeaderEnd(central, offset) <= |central|
  {
  }

  lemma AdmitOneMore(casing: Casing, st: State, e: Entry)
    requires AdmitAll(casing, st.entries) == Success(st)
    ensures AdmitAll(casing, st.entries + [e]) == Admit(casing, st, e)
    ensures Admit(casing, st, e).Success? ==> Admit(casing, st, e).value.entries == st.entries + [e]
  {
    hide Admit;
    assert (st.entries + [e])[..|st.entries|] == st.entries;
    if Admit(casing, st, e).Success? {
      AdmitNotes(casing, st, e);
    }
  }

  // ---------- The whole directory ----------

  /** A list within the limits. */
  ghost predicate Allowed(casing: Casing, limits: Limits, archiveSize: nat, count: nat, es: seq<Entry>) {
    var t := TotalsOf(casing, es);
    && archiveSize <= limits.archiveBytes && count <= limits.files && t.largest <= limits.fileSize
    && t.total <= limits.totalSize && (t.compressed != 0 ==> t.total <= limits.ratio * t.compressed)
  }

  /** The archive has its end record there, and the directory it names holds these entries, which
      may stand together and are within the limits. */
  ghost predicate Holds(text: Text, limits: Limits, archive: Bytes, end: nat, es: seq<Entry>) {
    && EndAt(archive, end) && |archive| - end - 22 <= 65535 && !Misleading(archive, end)
    && var count, size, offset := U16(archive, end + 10), U32(archive, end + 12), U32(archive, end + 16);
       && count < 0xffff && size < 0xffff_ffff && offset < 0xffff_ffff
       && offset + size <= |archive| && size <= limits.archiveBytes
       && Chain(text, archive[offset..offset + size], |archive|, 0, es)
       && DistinctKeys(es) && NoClash(es) && Allowed(text.casing, limits, |archive|, count, es)
  }

  lemma {:induction false} LastEndFinds(tail: Bytes, from: int)
    requires from <= |tail| - 22 && LastEnd(tail, from).Some?
    ensures EndAt(tail, LastEnd(tail, from).value) && LastEnd(tail, from).value <= from
    decreases from + 1
  {
    hide EndAt;
    if !EndAt(tail, from) {
      LastEndFinds(tail, from - 1);
    }
  }

  /** The end record that is found is one of the archive, with none behind it. */
  lemma FoundIsLast(archive: Bytes)
    requires var tail := archive[|archive| - Min(|archive|, 22 + 65535)..]; LastEnd(tail, |tail| - 22).Some?
    ensures var start := |archive| - Min(|archive|, 22 + 65535);
            var tail := archive[start..];
            var end := start + LastEnd(tail, |tail| - 22).value;
            EndAt(archive, end) && |archive| - end - 22 <= 65535 && !Misleading(archive, end)
  {
    hide LastEnd, U32, Misleading, EndAt;
    var start := |archive| - Min(|archive|, 22 + 65535);
    var tail := archive[start..];
    LastEndFinds(tail, |tail| - 22);
    var k := LastEnd(tail, |tail| - 22).value;
    EndFits(tail, k);
    TailHasEnd(archive, start, start + k);
    EndIsFoundIff(archive, start + k);
  }

  lemma CountedIsAllowed(casing: Casing, limits: Limits, archiveSize: nat, count: nat, es: seq<Entry>)
    requires AdmitAll(casing, es).Success?
    ensures CheckLimits(limits, archiveSize, count, AdmitAll(casing, es).value).None?
            <==> Allowed(casing, limits, archiveSize, count, es)
  {
    hide AdmitAll, TotalsOf;
    TotalsAreCounted(casing, es);
  }

  lemma {:induction false} ChainIsWellNamed(text: Text, central: Bytes, archiveSize: nat, offset: nat, es: seq<Entry>)
    requires Chain(text, central, archiveSize, offset, es)
    ensures forall e :: e in es ==> WellNamed(text.casing, e)
    decreases |es|
  {
    hide Describes, WellNamed, EntryAt;
    if |es| > 0 {
      DescribesIsInside(text, central, archiveSize, offset, es[0]);
      EntryIff(text, central, archiveSize, offset, es[0], HeaderEnd(central, offset));
      EntriesAreWellNamed(text, central, archiveSize, offset);
      ChainIsWellNamed(text, central, archiveSize, HeaderEnd(central, offset), es[1..]);
    }
  }

  /** A directory is read as these entries exactly if the archive holds them. */
  lemma ReadIff(text: Text, limits: Limits, archive: Bytes, es: seq<Entry>)
    requires KeepsSlashes(text.casing)
    ensures ReadDirectory(text, limits, archive) == Success(es) <==> exists end :: Holds(text, limits, archive, end, es)
  {
    hide ReadDirectory, Holds, KeepsSlashes;
    if ReadDirectory(text, limits, archive) == Success(es) {
      var end := EndOfRead(text, limits, archive);
      ReadIffAt(text, limits, archive, end, es);
    }
    if end :| Holds(text, limits, archive, end, es) {
      HoldsAt(text, limits, archive, end, es);
      ReadIffAt(text, limits, archive, end, es);
    }
  }

  lemma {:induction false} ChainDescribes(text: Text, central: Bytes, archiveSize: nat, offset: nat, es: seq<Entry>, e: Entry)
    returns (o: nat)
    requires Chain(text, central, archiveSize, offset, es) && e in es
    ensures Describes(text, central, archiveSize, o, e)
    decreases |es|
  {
    if es[0] == e {
      o := offset;
    } else {
      o := ChainDescribes(text, central, archiveSize, HeaderEnd(central, offset), es[1..], e);
    }
  }

  /** Every entry of a directory that is read is no link, stored or deflated, and comes from an
      unencrypted header in the directory whose data is in the archive. */
  lemma EntriesAreUnpackable(text: Text, limits: Limits, archive: Bytes, e: Entry) returns (end: nat, o: nat)
    requires KeepsSlashes(text.casing) && ReadDirectory(text, limits, archive).Success?
    requires e in ReadDirectory(text, limits, archive).value
    ensures e.attributes / 0x1000_0000 != 10 && e.compression in {0, 8}
    ensures end + 22 <= |archive| && U32(archive, end) == END_SIGNATURE
    ensures var size, offset := U32(archive, end + 12), U32(archive, end + 16);
            && offset + size <= |archive| && o + 46 <= size
            && var header := archive[offset..offset + size][o..];
               && U32(header, 0) == CENTRAL_SIGNATURE && U16(header, 8) % 2 == 0 && U32(header, 42) < |archive|
               && U32(header, 38) == e.attributes && U16(header, 10) == e.compression
  {
    hide ReadDirectory, U16, U32, Misleading, Chain, DistinctKeys, NoClash, NormalizeName, KeepsSlashes;
    var es := ReadDirectory(text, limits, archive).value;
    ReadIff(text, limits, archive, es);
    end :| Holds(text, limits, archive, end, es);
    var size, offset := U32(archive, end + 12), U32(archive, end + 16);
    var central := archive[offset..offset + size];
    o := ChainDescribes(text, central, |archive|, 0, es, e);
    assert central[o..] == central[o..|central|];
    SliceReads(central, o, |central|, 0);
    SliceReads(central, o, |central|, 8);
    SliceReads(central, o, |central|, 10);
    SliceReads(central, o, |central|, 38);
    SliceReads(central, o, |central|, 42);
  }

  ghost predicate Framed(limits: Limits, archive: Bytes, end: nat) {
    && EndAt(archive, end) && |archive| - end - 22 <= 65535 && !Misleading(archive, end)
    && U16(archive, end + 10) < 0xffff && U32(archive, end + 12) < 0xffff_ffff && U32(archive, end + 16) < 0xffff_ffff
    && U16(archive, end + 10) <= limits.files && U32(archive, end + 16) + U32(archive, end + 12) <= |archive|
    && U32(archive, end + 12) <= limits.archiveBytes
  }

  lemma HoldsAt(text: Text, limits: Limits, archive: Bytes, end: nat, es: seq<Entry>)
    requires Holds(text, limits, archive, end, es)
    ensures Framed(limits, archive, end)
  {
    hide U16, U32, Misleading, Chain, DistinctKeys, NoClash;
  }

  lemma EndOfRead(text: Text, limits: Limits, archive: Bytes) returns (end: nat)
    requires ReadDirectory(text, limits, archive).Success?
    ensures Framed(limits, archive, end)
  {
    hide U16, U32, Misleading, Walk, LastEnd, CheckLimits, EndAt;
    FoundIsLast(archive);
    var start := |archive| - Min(|archive|, 22 + 65535);
    var tail := archive[start..];
    end := start + LastEnd(tail, |tail| - 22).value;
    TailReads(archive, end);
    EndFits(archive, end);
    FieldsAreBounded(archive, end + 10);
    FieldsAreBounded(archive, end + 12);
    FieldsAreBounded(archive, end + 16);
  }

  lemma FieldsAreBounded(data: Bytes, offset: nat)
    requires offset + 4 <= |data|
    ensures U16(data, offset) <= 0xffff && U32(data, offset) <= 0xffff_ffff
  {
  }

  lemma ReadIffAt(text: Text, limits: Limits, archive: Bytes, end: nat, es: seq<Entry>)
    requires KeepsSlashes(text.casing) && Framed(limits, archive, end)
    ensures ReadDirectory(text, limits, archive) == Success(es) <==> Holds(text, limits, archive, end, es)
  {
    hide ReadDirectory, U16, U32, Misleading, Walk, CheckLimits, EndAt, KeepsSlashes, WellNamed, AdmitAll, DistinctKeys,
         NoClash, Allowed, Chain;
    EndFits(archive, end);
    var count, size, offset := U16(archive, end + 10), U32(archive, end + 12), U32(archive, end + 16);
    var central := archive[offset..offset + size];
    ReadsAt(text, limits, archive, end, count, size, offset);
    NothingAdmitted(text.casing);
    assert NOTHING.entries + es == es;
    WalkIff(text, central, |archive|, 0, NOTHING, es);
    if Chain(text, central, |archive|, 0, es) {
      ChainIsWellNamed(text, central, |archive|, 0, es);
      AdmittedIff(text.casing, es);
    }
    if AdmitAll(text.casing, es).Success? {
      CountedIsAllowed(text.casing, limits, |archive|, count, es);
    }
    var walked := Walk(text, central, |archive|, 0, NOTHING);
    if walked.Success? {
      WalkGives(text, central, |archive|);
    }
  }

  lemma WalkGives(text: Text, central: Bytes, archiveSize: nat)
    requires Walk(text, central, archiveSize, 0, NOTHING).Success?
    ensures var st := Walk(text, central, archiveSize, 0, NOTHING).value;
            AdmitAll(text.casing, st.entries) == Success(st)
  {
    hide Walk, AdmitAll;
    NothingAdmitted(text.casing);
    WalkAdmits(text, central, archiveSize, 0, NOTHING);
  }

  // ---------- Which rule a refused entry breaks ----------

  /** The rules for an entry, one for each error. */
  ghost predicate BreaksRule(text: Text, archiveSize: nat, i: Item, error: Error) {
    match error
    case MalformedZip => i.localOffset >= archiveSize || i.flags % 2 != 0 || text.decode(i.raw).None?
    case Symlink => i.attributes / 0x1000_0000 == 10
    case UnsupportedCompression => i.compression !in {0, 8}
    case _ => text.decode(i.raw).Some? && BreaksNameRule(text.casing, text.decode(i.raw).value, error)
  }

  /** A written header is refused exactly if it breaks a rule, and with the error of one it breaks. */
  lemma HeaderRefused(text: Text, central: Bytes, archiveSize: nat, offset: nat, i: Item)
    requires offset + Length(i) <= |central| && HeaderOf(central[offset..offset + Length(i)], i)
    ensures var r := EntryAt(text, central, archiveSize, offset);
            && (r.Failure? <==> !Readable(text, archiveSize, i))
            && (r.Failure? <==> exists error :: BreaksRule(text, archiveSize, i, error))
            && (r.Failure? ==> BreaksRule(text, archiveSize, i, r.error))
  {
    hide NormalizeName, U16, U32, BreaksNameRule, IsDirectory, HeaderOf;
    FieldsRead(central, offset, i);
    if text.decode(i.raw).Some? {
      NameRefused(text.casing, text.decode(i.raw).value);
    }
    var r := EntryAt(text, central, archiveSize, offset);
    if r.Failure? {
      assert BreaksRule(text, archiveSize, i, r.error);
    }
  }

  lemma NameRefused(casing: Casing, raw: string)
    ensures NormalizeName(casing, raw).Failure? ==> BreaksNameRule(casing, raw, NormalizeName(casing, raw).error)
    ensures NormalizeName(casing, raw).Success? ==> forall error :: !BreaksNameRule(casing, raw, error)
    ensures forall error :: error in {MalformedZip, Symlink, UnsupportedCompression} ==> !BreaksNameRule(casing, raw, error)
  {
    hide NormalizeName;
    RefusedNameBreaksRule(casing, raw);
  }

  lemma FieldsRead(central: Bytes, offset: nat, i: Item)
    requires offset + Length(i) <= |central| && HeaderOf(central[offset..offset + Length(i)], i)
    ensures U32(central, offset) == CENTRAL_SIGNATURE
    ensures U16(central, offset + 8) == i.flags && U16(central, offset + 10) == i.compression
    ensures U32(central, offset + 20) == i.compressedSize && U32(central, offset + 24) == i.fileSize
    ensures U16(central, offset + 28) == |i.raw| && U16(central, offset + 30) == |i.extra|
    ensures U16(central, offset + 32) == |i.comment|
    ensures U32(central, offset + 38) == i.attributes && U32(central, offset + 42) == i.localOffset
    ensures central[offset + 46..offset + 46 + |i.raw|] == i.raw
  {
    hide U16, U32;
    var to := offset + Length(i);
    SliceReads(central, offset, to, 0);
    SliceReads(central, offset, to, 8);
    SliceReads(central, offset, to, 10);
    SliceReads(central, offset, to, 20);
    SliceReads(central, offset, to, 24);
    SliceReads(central, offset, to, 28);
    SliceReads(central, offset, to, 30);
    SliceReads(central, offset, to, 32);
    SliceReads(central, offset, to, 38);
    SliceReads(central, offset, to, 42);
    SliceOfSlice(central, offset, to, 46, 46 + |i.raw|);
  }

  /** The walk gets as far as the first header that breaks a rule. */
  lemma {:induction false} WalkRefuses(text: Text, central: Bytes, archiveSize: nat, offset: nat, items: seq<Item>, k: nat,
                                       st: State)
    requires HeadersFrom(central, offset, items) && k < |items|
    requires AllReadable(text, archiveSize, items[..k]) && !Readable(text, archiveSize, items[k])
    requires AdmitAll(text.casing, st.entries) == Success(st)
    requires AdmitAll(text.casing, st.entries + EntriesOf(text, archiveSize, items[..k])).Success?
    ensures var r := Walk(text, central, archiveSize, offset, st);
            r.Failure? && BreaksRule(text, archiveSize, items[k], r.error)
    decreases |items|
  {
    hide EntryAt, HeaderOf, EntryOf, Named, Admit, BreaksRule, AdmitAll, Readable;
    var end := offset + Length(items[0]);
    if k == 0 {
      HeaderRefused(text, central, archiveSize, offset, items[0]);
    } else {
      assert items[..k][0] == items[0] && items[..k][1..] == items[1..][..k - 1];
      assert items[0] in items[..k];
      var e := FirstEntry(text, archiveSize, items[..k]);
      var rest := EntriesOf(text, archiveSize, items[1..][..k - 1]);
      HeaderReads(text, central, archiveSize, offset, items[0]);
      WalkStep(text, central, archiveSize, offset, st, e, end);
      assert st.entries + ([e] + rest) == (st.entries + [e]) + rest;
      AdmitOneMore(text.casing, st, e);
      if Admit(text.casing, st, e).Failure? {
        FailureStays(text.casing, st.entries + [e], rest);
      } else {
        WalkRefuses(text, central, archiveSize, end, items[1..], k - 1, Admit(text.casing, st, e).value);
      }
    }
  }

  lemma FirstEntry(text: Text, archiveSize: nat, items: seq<Item>) returns (e: Entry)
    requires |items| > 0 && AllReadable(text, archiveSize, items)
    ensures Named(text, items[0]) && e == EntryOf(text, items[0]) && AllReadable(text, archiveSize, items[1..])
    ensures EntriesOf(text, archiveSize, items) == [e] + EntriesOf(text, archiveSize, items[1..])
  {
    assert Readable(text, archiveSize, items[0]);
    e := EntryOf(text, items[0]);
  }

  /** A written directory in which an entry breaks a rule, the ones before it being in order, is
      refused with the error of a rule that this entry breaks. */
  lemma BadEntryIsRefused(text: Text, limits: Limits, archive: Bytes, items: seq<Item>, k: nat, offset: nat, size: nat,
                          end: nat)
    requires Layout(archive, items, offset, size, end) && !Misleading(archive, end)
    requires |items| <= limits.files && size <= limits.archiveBytes && k < |items|
    requires AllReadable(text, |archive|, items[..k]) && !Readable(text, |archive|, items[k])
    requires AdmitAll(text.casing, EntriesOf(text, |archive|, items[..k])).Success?
    ensures var r := ReadDirectory(text, limits, archive);
            r.Failure? && BreaksRule(text, |archive|, items[k], r.error)
  {
    hide ReadDirectory, Walk, AdmitAll, AllReadable, HeadersFrom, CheckLimits, U16, U32, Misleading, EntriesOf, Readable,
         BreaksRule, EndAt;
    EndFits(archive, end);
    NothingAdmitted(text.casing);
    var es := EntriesOf(text, |archive|, items[..k]);
    assert NOTHING.entries + es == es;
    WalkRefuses(text, archive[offset..offset + size], |archive|, 0, items, k, NOTHING);
    ReadsAt(text, limits, archive, end, |items|, size, offset);
  }

  // ---------- Which error a conflict and a limit have ----------

  /** An entry whose key is taken is a collision; any other that does not fit is a conflict. */
  lemma ConflictErrors(casing: Casing, es: seq<Entry>, e: Entry)
    requires KeepsSlashes(casing) && WellNamed(casing, e) && AdmitAll(casing, es).Success?
    ensures var r := Admit(casing, AdmitAll(casing, es).value, e);
            && (r == Failure(CaseCollision) <==> exists i :: 0 <= i < |es| && es[i].key == e.key)
            && (r == Failure(ConflictingPath) <==> !Fits(es, e) && forall i :: 0 <= i < |es| ==> es[i].key != e.key)
  {
    hide FileParent, FileBelow, WellNamed, Above, Counted, KeepsSlashes, AdmitAll;
    AdmitIffFits(casing, es, e);
    KindsAreEntries(casing, es);
    var st := AdmitAll(casing, es).value;
    if e.key in st.kinds {
      assert HasKey(es, e.key, st.kinds[e.key]);
    }
    if i :| 0 <= i < |es| && es[i].key == e.key {
      assert HasKey(es, e.key, !es[i].directory);
    }
  }

  predicate BreaksLimit(limits: Limits, archiveSize: nat, count: nat, t: Totals, error: Error) {
    match error
    case ArchiveSize => archiveSize > limits.archiveBytes
    case FileCount => count > limits.files
    case FileSize => t.largest > limits.fileSize
    case TotalSize => t.total > limits.totalSize
    case CompressionRatio => t.compressed != 0 && t.total > limits.ratio * t.compressed
    case _ => false
  }

  /** A list is refused for its size with the error of a limit it breaks. */
  lemma LimitErrors(casing: Casing, limits: Limits, archiveSize: nat, count: nat, es: seq<Entry>)
    requires AdmitAll(casing, es).Success?
    ensures var error := CheckLimits(limits, archiveSize, count, AdmitAll(casing, es).value);
            error.Some? ==> BreaksLimit(limits, archiveSize, count, TotalsOf(casing, es), error.value)
  {
    hide AdmitAll, TotalsOf;
    TotalsAreCounted(casing, es);
  }

  // ---------- What does not count ----------

  function LowerAll(casing: Casing, parts: seq<string>): (r: seq<string>)
    ensures |r| == |parts| && forall i :: 0 <= i < |parts| ==> r[i] == Lower(casing, parts[i])
  {
    seq(|parts|, i requires 0 <= i < |parts| => Lower(casing, parts[i]))
  }

  lemma LowerAdds(casing: Casing, a: string, b: string)
    ensures Lower(casing, a + b) == Lower(casing, a) + Lower(casing, b)
  {
  }

  lemma {:induction false} LowerJoins(casing: Casing, parts: seq<string>)
    requires KeepsSlashes(casing) && |parts| > 0
    ensures Lower(casing, Join(parts)) == Join(LowerAll(casing, parts))
  {
    hide KeepsSlashes;
    if |parts| > 1 {
      LowerJoins(casing, parts[1..]);
      assert LowerAll(casing, parts)[1..] == LowerAll(casing, parts[1..]);
      LowerSlash(casing, parts[0], "");
      LowerAdds(casing, parts[0] + "/", Join(parts[1..]));
    }
  }

  lemma LowerIsClean(casing: Casing, parts: seq<string>)
    requires KeepsSlashes(casing) && Clean(parts)
    ensures Clean(LowerAll(casing, parts))
  {
    forall p | p in LowerAll(casing, parts)
      ensures p != "" && '/' !in p
    {
      var i :| 0 <= i < |parts| && p == Lower(casing, parts[i]);
      assert parts[i] in parts;
      forall k | 0 <= k < |p|
        ensures p[k] != '/'
      {
        assert parts[i][k] in parts[i];
      }
    }
  }

  lemma AboveMeans(a: string, b: string)
    ensures Above(a, b) <==> |a| < |b| && b[|a|] == '/' && b[..|a|] == a
  {
    if Above(a, b) {
      assert (a + "/")[|a|] == '/' && (a + "/")[..|a|] == a;
    }
  }

  lemma BeginIsClean(parts: seq<string>, n: nat)
    requires Clean(parts) && n <= |parts|
    ensures Clean(parts[..n])
  {
    assert forall p :: p in parts[..n] ==> p in parts;
  }

  /** A list of parts is the other or begins it exactly if its join is the other or is above it. */
  lemma BeginsIff(a: seq<string>, b: seq<string>)
    requires |a| > 0 && |b| > 0 && Clean(a) && Clean(b)
    ensures a <= b <==> Join(a) == Join(b) || Above(Join(a), Join(b))
  {
    hide Join, Split, Above, Clean;
    SplitJoin(a);
    SplitJoin(b);
    if a <= b {
      assert b[..|a|] == a;
      if |a| == |b| {
        assert b[..|b|] == b;
      } else {
        JoinPrefix(b, |a|);
      }
    }
    if Above(Join(a), Join(b)) {
      AboveBegins(a, b);
    }
    if Join(a) == Join(b) {
      assert a == Split(Join(a)) == Split(Join(b)) == b;
      assert b[..|b|] == b;
    }
  }

  lemma AboveBegins(a: seq<string>, b: seq<string>)
    requires |a| > 0 && |b| > 0 && Clean(a) && Clean(b) && Above(Join(a), Join(b))
    ensures a <= b
  {
    hide Join, Split, Clean, Above;
    AboveMeans(Join(a), Join(b));
    var index := SlashEndsParent(b, |Join(a)|);
    BeginIsClean(b, index);
    SplitJoin(a);
    SplitJoin(b[..index]);
    assert b[..index] == a;
  }

  const RUNTIME_FILES: set<string> :=
    {"RunningChromeVersion", "SingletonCookie", "SingletonLock", "SingletonSocket", "BrowserMetrics-spare.pma"}

  lemma CachesAreClean(i: nat)
    requires i < |CACHE_DIRECTORIES|
    ensures |CACHE_DIRECTORIES[i]| > 0 && Clean(CACHE_DIRECTORIES[i])
  {
  }

  /** An entry does not count exactly if it is a runtime file by its very name, or, whatever its
      case, one of the cache directories or something below one. */
  lemma DisposableIff(casing: Casing, e: Entry)
    requires KeepsSlashes(casing) && WellNamed(casing, e)
    ensures Disposable(casing, e.name)
            <==> e.name in RUNTIME_FILES
                 || exists i :: 0 <= i < |CACHE_DIRECTORIES|
                      && (e.key == Lower(casing, Join(CACHE_DIRECTORIES[i]))
                          || Above(Lower(casing, Join(CACHE_DIRECTORIES[i])), e.key))
  {
    hide KeepsSlashes, Above, Safe, Join, Split;
    var parts := Split(e.name);
    assert |parts| > 0 && Clean(parts) by { SafeIsClean(casing, parts); }
    LowerJoins(casing, parts);
    LowerIsClean(casing, parts);
    forall i | 0 <= i < |CACHE_DIRECTORIES|
      ensures IsPrefix(casing, CACHE_DIRECTORIES[i], parts)
              <==> e.key == Lower(casing, Join(CACHE_DIRECTORIES[i]))
                   || Above(Lower(casing, Join(CACHE_DIRECTORIES[i])), e.key)
    {
      var cache := CACHE_DIRECTORIES[i];
      CachesAreClean(i);
      LowerJoins(casing, cache);
      LowerIsClean(casing, cache);
      BeginsIff(LowerAll(casing, cache), LowerAll(casing, parts));
      PrefixIsBegin(casing, cache, parts);
    }
  }

  lemma SafeIsClean(casing: Casing, parts: seq<string>)
    requires Safe(casing, parts)
    ensures |parts| > 0 && Clean(parts)
  {
  }

  lemma PrefixIsBegin(casing: Casing, prefix: seq<string>, parts: seq<string>)
    ensures IsPrefix(casing, prefix, parts) <==> LowerAll(casing, prefix) <= LowerAll(casing, parts)
  {
    if |prefix| <= |parts| {
      assert LowerAll(casing, parts)[..|prefix|] == LowerAll(casing, prefix)
             <==> forall i :: 0 <= i < |prefix| ==> Lower(casing, prefix[i]) == Lower(casing, parts[i]);
    }
  }
}
