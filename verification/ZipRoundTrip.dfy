/** Archives as a ZIP writer lays out their directory, and what reading it gives back (sections
    4.3.12 and 4.3.16 of PKWARE APPNOTE.TXT). Fields the reader does not look at are arbitrary. */
module ZipRoundTrip {
  import opened Bytes
  import opened Outcomes
  import opened ZipNames
  import opened ZipDirectory
  import opened ZipConflicts

  /** What a central header says. */
  datatype Item = Item(raw: Bytes, extra: Bytes, comment: Bytes, flags: nat, compression: nat, compressedSize: nat,
                       fileSize: nat, attributes: nat, localOffset: nat)

  function Length(i: Item): nat {
    46 + |i.raw| + |i.extra| + |i.comment|
  }

  predicate HeaderOf(header: Bytes, i: Item) {
    && |header| == Length(i)
    && U32(header, 0) == CENTRAL_SIGNATURE
    && U16(header, 8) == i.flags && U16(header, 10) == i.compression
    && U32(header, 20) == i.compressedSize && U32(header, 24) == i.fileSize
    && U16(header, 28) == |i.raw| && U16(header, 30) == |i.extra| && U16(header, 32) == |i.comment|
    && U32(header, 38) == i.attributes && U32(header, 42) == i.localOffset
    && header[46..46 + |i.raw|] == i.raw
  }

  /** The headers of the items, one after the other up to the end. */
  predicate HeadersFrom(central: Bytes, offset: nat, items: seq<Item>)
    decreases |items|
  {
    if |items| == 0 then offset == |central|
    else
      var end := offset + Length(items[0]);
      end <= |central| && HeaderOf(central[offset..end], items[0]) && HeadersFrom(central, end, items[1..])
  }

  /** The directory and its end record, with a comment behind it. */
  predicate Layout(archive: Bytes, items: seq<Item>, offset: nat, size: nat, end: nat) {
    && offset + size <= |archive| && HeadersFrom(archive[offset..offset + size], 0, items)
    && EndAt(archive, end) && |archive| - end - 22 <= 65535
    && U16(archive, end + 10) == |items| && U32(archive, end + 12) == size && U32(archive, end + 16) == offset
    && |items| < 0xffff && size < 0xffff_ffff && offset < 0xffff_ffff
  }

  /** An entry the reader takes: unencrypted, stored or deflated, no link, with a proper name. */
  predicate Readable(text: Text, archiveSize: nat, i: Item) {
    && i.localOffset < archiveSize && i.flags % 2 == 0 && (i.compression == 0 || i.compression == 8)
    && Top(i.attributes) != 10
    && Named(text, i)
  }

  predicate Named(text: Text, i: Item) {
    text.decode(i.raw).Some? && NormalizeName(text.casing, text.decode(i.raw).value).Success?
  }

  function EntryOf(text: Text, i: Item): Entry
    requires Named(text, i)
  {
    var raw := text.decode(i.raw).value;
    var name := NormalizeName(text.casing, raw).value;
    Entry(name, Lower(text.casing, name), IsDirectory(raw, i.attributes), i.fileSize, i.compressedSize, i.compression,
          i.attributes)
  }

  predicate AllReadable(text: Text, archiveSize: nat, items: seq<Item>) {
    forall i :: i in items ==> Readable(text, archiveSize, i)
  }

  function EntriesOf(text: Text, archiveSize: nat, items: seq<Item>): (es: seq<Entry>)
    requires AllReadable(text, archiveSize, items)
    ensures |es| == |items|
  {
    if |items| == 0 then []
    else
      assert Readable(text, archiveSize, items[0]);
      [EntryOf(text, items[0])] + EntriesOf(text, archiveSize, items[1..])
  }

  lemma SliceReads(data: Bytes, from: nat, to: nat, k: nat)
    requires from <= to <= |data|
    ensures from + k + 2 <= to ==> U16(data[from..to], k) == U16(data, from + k)
    ensures from + k + 4 <= to ==> U32(data[from..to], k) == U32(data, from + k)
  {
  }

  lemma SliceOfSlice(data: Bytes, from: nat, to: nat, a: nat, b: nat)
    requires from <= to <= |data| && a <= b <= to - from
    ensures data[from..to][a..b] == data[from + a..from + b]
  {
    var part := data[from..to];
    forall k | 0 <= k < b - a
      ensures part[a..b][k] == data[from + a..from + b][k]
    {
      assert part[a..b][k] == part[a + k] == data[from + a + k];
    }
  }

  lemma HeaderReads(text: Text, central: Bytes, archiveSize: nat, offset: nat, i: Item)
    requires offset + Length(i) <= |central| && HeaderOf(central[offset..offset + Length(i)], i)
    requires Readable(text, archiveSize, i)
    ensures EntryAt(text, central, archiveSize, offset) == Success((EntryOf(text, i), offset + Length(i)))
  {
    hide U16, U32, NormalizeName, IsDirectory, Top;
    var to := offset + Length(i);
    SliceReads(central, offset, to, 0);
    SliceReads(central, offset, to, 8);
    SliceReads(central, offset, to, 10);
    SliceReads(central, offset, to, 20);
    SliceReads(central, offset, to, 24);
    SliceReads(central, offset, to, 28);
    SliceReads(central, offset, to, 30);
    SliceReads(central, offset, to, 32);
    SliceReads(central, offset, to, 38);
    SliceReads(central, offset, to, 42);
    SliceOfSlice(central, offset, to, 46, 46 + |i.raw|);
  }

  lemma {:induction false} FailureStays(casing: Casing, es: seq<Entry>, more: seq<Entry>)
    requires AdmitAll(casing, es).Failure?
    ensures AdmitAll(casing, es + more) == AdmitAll(casing, es)
    decreases |more|
  {
    hide Admit;
    if |more| == 0 {
      assert es + more == es;
    } else {
      FailureStays(casing, es, more[..|more| - 1]);
      assert (es + more)[..|es + more| - 1] == es + more[..|more| - 1];
    }
  }

  lemma WalkEnds(text: Text, central: Bytes, archiveSize: nat, offset: nat, st: State)
    requires offset >= |central|
    ensures Walk(text, central, archiveSize, offset, st) == Success(st)
  {
  }

  lemma WalkStep(text: Text, central: Bytes, archiveSize: nat, offset: nat, st: State, e: Entry, end: nat)
    requires offset < |central| && EntryAt(text, central, archiveSize, offset) == Success((e, end))
    ensures Walk(text, central, archiveSize, offset, st)
            == match Admit(text.casing, st, e)
               case Failure(error) => Failure(error)
               case Success(next) => Walk(text, central, archiveSize, end, next)
  {
    hide EntryAt, Admit;
  }

  lemma AdmitAppends(casing: Casing, st: State, e: Entry)
    requires Admit(casing, st, e).Success?
    ensures Admit(casing, st, e).value.entries == st.entries + [e]
  {
    hide FileParent, FileBelow, Counted;
  }

  /** Walking over written headers admits the items' entries, one by one. */
  lemma {:induction false} WalkReads(text: Text, central: Bytes, archiveSize: nat, offset: nat, items: seq<Item>, st: State)
    requires HeadersFrom(central, offset, items) && AllReadable(text, archiveSize, items)
    requires AdmitAll(text.casing, st.entries) == Success(st)
    ensures Walk(text, central, archiveSize, offset, st)
            == AdmitAll(text.casing, st.entries + EntriesOf(text, archiveSize, items))
    decreases |items|
  {
    hide Walk, EntryAt, HeaderOf, EntryOf, Named, Admit;
    if |items| == 0 {
      WalkEnds(text, central, archiveSize, offset, st);
      assert st.entries + [] == st.entries;
    } else {
      assert Readable(text, archiveSize, items[0]);
      var e, end := EntryOf(text, items[0]), offset + Length(items[0]);
      HeaderReads(text, central, archiveSize, offset, items[0]);
      WalkStep(text, central, archiveSize, offset, st, e, end);
      var rest := EntriesOf(text, archiveSize, items[1..]);
      assert st.entries + ([e] + rest) == (st.entries + [e]) + rest;
      assert (st.entries + [e])[..|st.entries|] == st.entries;
      var next := Admit(text.casing, st, e);
      if next.Success? {
        AdmitAppends(text.casing, st, e);
        WalkReads(text, central, archiveSize, end, items[1..], next.value);
      } else {
        FailureStays(text.casing, st.entries + [e], rest);
      }
    }
  }

  // ---------- The end record ----------

  /** A later place that looks like an end record. */
  ghost predicate Misleading(archive: Bytes, end: nat) {
    exists i :: end < i && EndAt(archive, i)
  }

  lemma {:induction false} LastEndIs(tail: Bytes, from: int, end: nat)
    requires end <= from <= |tail| - 22 && EndAt(tail, end)
    ensures LastEnd(tail, from) == Some(end) <==> forall i :: end < i <= from ==> !EndAt(tail, i)
    decreases from
  {
    if from > end && !EndAt(tail, from) {
      LastEndIs(tail, from - 1, end);
    }
  }

  lemma TailHasEnd(archive: Bytes, start: nat, i: nat)
    requires start <= i <= |archive| - 22
    ensures EndAt(archive, i) <==> EndAt(archive[start..], i - start)
  {
    hide U32;
    assert archive[start..] == archive[start..|archive|];
    SliceReads(archive, start, |archive|, i - start);
  }

  /** The reader finds the end record exactly if nothing behind it looks like one. */
  lemma EndIsFoundIff(archive: Bytes, end: nat)
    requires EndAt(archive, end) && |archive| - end - 22 <= 65535
    ensures var start := |archive| - Min(|archive|, 22 + 65535);
            var tail := archive[start..];
            && start <= end
            && (LastEnd(tail, |tail| - 22) == Some(end - start) <==> !Misleading(archive, end))
  {
    hide U32, EndAt, LastEnd;
    var start := |archive| - Min(|archive|, 22 + 65535);
    var tail := archive[start..];
    EndFits(archive, end);
    TailHasEnd(archive, start, end);
    LastEndIs(tail, |tail| - 22, end - start);
    if Misleading(archive, end) {
      var i: nat :| end < i && EndAt(archive, i);
      EndFits(archive, i);
      TailHasEnd(archive, start, i);
    } else {
      forall i | end - start < i <= |tail| - 22
        ensures !EndAt(tail, i)
      {
        TailHasEnd(archive, start, i + start);
      }
    }
  }

  lemma EndFits(archive: Bytes, i: int)
    requires EndAt(archive, i)
    ensures 0 <= i <= |archive| - 22
  {
  }

  /** The signature need not be inside the comment to mislead: the length of this comment ends
      with the first half of a signature, the comment starts with the second half. */
  lemma StraddlingSignature(archive: Bytes, end: nat)
    requires EndAt(archive, end) && |archive| == end + 22 + 0x4b50 && U16(archive, end + 20) == 0x4b50
    requires archive[end + 22] == 5 && archive[end + 23] == 6
    requires forall i :: end + 24 <= i < |archive| ==> archive[i] == 0
    ensures Misleading(archive, end) && forall i :: end + 22 <= i ==> !EndAt(archive, i)
  {
    assert U16(archive, end + 22) == 0x0605;
    assert EndAt(archive, end + 20);
  }

  // ---------- Reading undoes writing ----------

  /** A written directory is read as exactly the entries that were written, provided that these
      may stand together and are within the limits. */
  lemma ReadingUndoesWriting(text: Text, limits: Limits, archive: Bytes, items: seq<Item>, offset: nat, size: nat, end: nat)
    requires Layout(archive, items, offset, size, end) && !Misleading(archive, end)
    requires AllReadable(text, |archive|, items) && |items| <= limits.files && size <= limits.archiveBytes
    ensures var es := EntriesOf(text, |archive|, items);
            var st := AdmitAll(text.casing, es);
            ReadDirectory(text, limits, archive)
            == if st.Failure? then Failure(st.error)
               else if CheckLimits(limits, |archive|, |items|, st.value).Some?
                 then Failure(CheckLimits(limits, |archive|, |items|, st.value).value)
               else Success(es)
  {
    hide ReadDirectory, Walk, AdmitAll, AllReadable, HeadersFrom, LastEnd, CheckLimits, U16, U32, Misleading, EntriesOf;
    TailReads(archive, end);
    DirectoryReads(text, archive[offset..offset + size], |archive|, items);
    AdmittedEntries(text.casing, EntriesOf(text, |archive|, items));
    ReadsAt(text, limits, archive, end, |items|, size, offset);
  }

  /** Reading, once the end record is found and its fields are known. */
  lemma ReadsAt(text: Text, limits: Limits, archive: Bytes, end: nat, count: nat, size: nat, offset: nat)
    requires EndAt(archive, end) && |archive| - end - 22 <= 65535 && !Misleading(archive, end)
    requires U16(archive, end + 10) == count && U32(archive, end + 12) == size && U32(archive, end + 16) == offset
    requires count < 0xffff && size < 0xffff_ffff && offset < 0xffff_ffff
    requires count <= limits.files && offset + size <= |archive| && size <= limits.archiveBytes
    ensures ReadDirectory(text, limits, archive)
            == match Walk(text, archive[offset..offset + size], |archive|, 0, NOTHING)
               case Failure(error) => Failure(error)
               case Success(st) =>
                 var error := CheckLimits(limits, |archive|, count, st);
                 if error.Some? then Failure(error.value) else Success(st.entries)
  {
    hide Walk, LastEnd, CheckLimits, U16, U32, Misleading;
    TailReads(archive, end);
  }

  lemma AdmittedEntries(casing: Casing, es: seq<Entry>)
    ensures AdmitAll(casing, es).Success? ==> AdmitAll(casing, es).value.entries == es
  {
    if AdmitAll(casing, es).Success? {
      KindsAreEntries(casing, es);
    }
  }

  lemma DirectoryReads(text: Text, central: Bytes, archiveSize: nat, items: seq<Item>)
    requires HeadersFrom(central, 0, items) && AllReadable(text, archiveSize, items)
    ensures Walk(text, central, archiveSize, 0, NOTHING) == AdmitAll(text.casing, EntriesOf(text, archiveSize, items))
  {
    hide Walk, AdmitAll, AllReadable, HeadersFrom, EntriesOf;
    NothingAdmitted(text.casing);
    WalkReads(text, central, archiveSize, 0, items, NOTHING);
    var es := EntriesOf(text, archiveSize, items);
    assert NOTHING.entries + es == es;
  }

  /** In the tail the fields of the end record are where they are in the archive. */
  lemma TailReads(archive: Bytes, end: nat)
    requires EndAt(archive, end) && |archive| - end - 22 <= 65535 && !Misleading(archive, end)
    ensures var start := |archive| - Min(|archive|, 22 + 65535);
            var tail := archive[start..];
            && start <= end && LastEnd(tail, |tail| - 22) == Some(end - start) && EndAt(tail, end - start)
            && U16(tail, end - start + 10) == U16(archive, end + 10)
            && U32(tail, end - start + 12) == U32(archive, end + 12)
            && U32(tail, end - start + 16) == U32(archive, end + 16)
  {
    hide LastEnd, U16, U32, Misleading;
    EndIsFoundIff(archive, end);
    var start := |archive| - Min(|archive|, 22 + 65535);
    assert archive[start..] == archive[start..|archive|];
    SliceReads(archive, start, |archive|, end - start);
    SliceReads(archive, start, |archive|, end - start + 10);
    SliceReads(archive, start, |archive|, end - start + 12);
    SliceReads(archive, start, |archive|, end - start + 16);
  }
}
