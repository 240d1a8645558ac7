/** Which lists of entries are admitted: no key twice, and no file above another entry - except
    where the walk over the directory does not look. */
module ZipConflicts {
  import opened Bytes
  import opened Outcomes
  import opened ZipNames
  import opened ZipDirectory

  /** The walk, once the headers have been read. */
  function AdmitAll(casing: Casing, es: seq<Entry>): Result<State, Error> {
    if |es| == 0 then Success(NOTHING)
    else
      match AdmitAll(casing, es[..|es| - 1])
      case Failure(error) => Failure(error)
      case Success(st) => Admit(casing, st, es[|es| - 1])
  }

  /** Entries as reading a header makes them: a normal name and its key. */
  predicate WellNamed(casing: Casing, e: Entry) {
    Safe(casing, Split(e.name)) && Join(Split(e.name)) == e.name && e.key == Lower(casing, e.name)
  }

  lemma EntriesAreWellNamed(text: Text, central: Bytes, archiveSize: nat, offset: nat)
    requires EntryAt(text, central, archiveSize, offset).Success?
    ensures WellNamed(text.casing, EntryAt(text, central, archiveSize, offset).value.0)
  {
    hide NormalizeName, Split, Safe, U16, U32;
    var nameLength := U16(central, offset + 28);
    var raw := text.decode(central[offset + 46..offset + 46 + nameLength]).value;
    NormalIsSafe(text.casing, raw);
    SafeSplits(text.casing, NonEmpty(Split(Slashed(raw))));
  }

  lemma SafeSplits(casing: Casing, parts: seq<string>)
    requires Safe(casing, parts)
    ensures Split(Join(parts)) == parts
  {
    SplitJoin(parts);
  }

  // ---------- Parents and prefixes ----------

  lemma {:induction false} JoinPrefix(parts: seq<string>, index: nat)
    requires Clean(parts) && 1 <= index < |parts|
    ensures Above(Join(parts[..index]), Join(parts))
  {
    if index == 1 {
      assert parts[..1] == [parts[0]];
      assert Join(parts) == parts[0] + "/" + Join(parts[1..]);
    } else {
      assert forall p :: p in parts[1..] ==> p in parts;
      JoinPrefix(parts[1..], index - 1);
      assert parts[..index][1..] == parts[1..][..index - 1];
      var front, all := Join(parts[1..][..index - 1]), Join(parts[1..]);
      assert Join(parts[..index]) == parts[0] + "/" + front;
      assert Join(parts) == parts[0] + "/" + all;
      assert (parts[0] + "/" + front) + "/" == (parts[0] + "/") + (front + "/");
    }
  }

  /** Every slash of a joined name ends one of its parents. */
  lemma {:induction false} SlashEndsParent(parts: seq<string>, i: nat) returns (index: nat)
    requires |parts| > 0 && Clean(parts) && i < |Join(parts)| && Join(parts)[i] == '/'
    ensures 1 <= index < |parts| && Join(parts[..index]) == Join(parts)[..i]
  {
    var name, first := Join(parts), parts[0];
    assert first in parts;
    assert |parts| > 1 ==> name == first + "/" + Join(parts[1..]);
    if i < |first| {
      NoSlash(first, i);
      assert false;
    } else if i == |first| {
      index := 1;
      assert parts[..1] == [first] && name[..i] == first;
    } else {
      assert forall p :: p in parts[1..] ==> p in parts;
      var rest := Join(parts[1..]);
      var j := i - |first| - 1;
      assert rest[j] == '/';
      var k := SlashEndsParent(parts[1..], j);
      index := k + 1;
      assert parts[..index][1..] == parts[1..][..k];
      assert name[..i] == first + "/" + rest[..j];
    }
  }

  lemma NoSlash(s: string, i: nat)
    requires '/' !in s && i < |s|
    ensures s[i] != '/'
  {
  }

  lemma LowerSlash(casing: Casing, a: string, b: string)
    requires KeepsSlashes(casing)
    ensures Lower(casing, a + "/") == Lower(casing, a) + "/"
    ensures Above(a, b) ==> Above(Lower(casing, a), Lower(casing, b))
  {
    assert Lower(casing, a + "/") == Lower(casing, a) + "/";
    if Above(a, b) {
      assert Lower(casing, a + "/") == Lower(casing, b)[..|a| + 1];
    }
  }

  predicate IsParentKey(casing: Casing, parts: seq<string>, index: nat, key: string) {
    1 <= index < |parts| && key == Lower(casing, Join(parts[..index]))
  }

  /** The parents that are looked up are exactly the keys above the entry's key. */
  lemma ParentsAreAbove(casing: Casing, parts: seq<string>, key: string)
    requires KeepsSlashes(casing) && |parts| > 0 && Clean(parts)
    ensures Above(key, Lower(casing, Join(parts))) <==> exists index: nat :: IsParentKey(casing, parts, index, key)
  {
    var name := Join(parts);
    if Above(key, Lower(casing, name)) {
      var i := |key|;
      assert (key + "/")[i] == Lower(casing, name)[i] == casing.lower(name[i]);
      var index := SlashEndsParent(parts, i);
      assert Lower(casing, name[..i]) == Lower(casing, name)[..i] == (key + "/")[..i] == key;
      assert IsParentKey(casing, parts, index, key);
    }
    forall index: nat | IsParentKey(casing, parts, index, key)
      ensures Above(key, Lower(casing, name))
    {
      JoinPrefix(parts, index);
      LowerSlash(casing, Join(parts[..index]), name);
    }
  }

  lemma {:induction false} FileParentMeans(casing: Casing, kinds: map<string, bool>, parts: seq<string>, index: nat)
    requires index >= 1
    ensures FileParent(casing, kinds, parts, index)
            <==> exists i: nat, key :: i >= index && IsParentKey(casing, parts, i, key) && key in kinds && kinds[key]
    decreases |parts| - index
  {
    if index < |parts| {
      FileParentMeans(casing, kinds, parts, index + 1);
      var key := Lower(casing, Join(parts[..index]));
      assert IsParentKey(casing, parts, index, key);
    }
  }

  /** A file parent is a file whose key is above. */
  lemma FileParentIsAbove(casing: Casing, kinds: map<string, bool>, e: Entry)
    requires KeepsSlashes(casing) && WellNamed(casing, e)
    ensures FileParent(casing, kinds, Split(e.name), 1)
            <==> exists key :: key in kinds && kinds[key] && Above(key, e.key)
  {
    hide FileParent, IsParentKey, Above;
    var parts := Split(e.name);
    FileParentMeans(casing, kinds, parts, 1);
    if i: nat, key :| i >= 1 && IsParentKey(casing, parts, i, key) && key in kinds && kinds[key] {
      ParentsAreAbove(casing, parts, key);
    }
    if key :| key in kinds && kinds[key] && Above(key, e.key) {
      ParentsAreAbove(casing, parts, key);
      var i: nat :| IsParentKey(casing, parts, i, key);
      ParentIndex(casing, parts, i, key);
    }
  }

  lemma ParentIndex(casing: Casing, parts: seq<string>, index: nat, key: string)
    requires IsParentKey(casing, parts, index, key)
    ensures index >= 1
  {
  }

  // ---------- What is admitted ----------

  predicate DistinctKeys(es: seq<Entry>) {
    forall i, j :: 0 <= i < j < |es| ==> es[i].key != es[j].key
  }

  /** A file above another entry, in a position in which the walk notices: anything below a file
      that comes later, and files below a file that came earlier. */
  predicate Clash(es: seq<Entry>, i: nat, j: nat)
    requires i < |es| && j < |es|
  {
    i != j && !es[i].directory && Above(es[i].key, es[j].key) && (i < j || !es[j].directory)
  }

  predicate NoClash(es: seq<Entry>) {
    forall i, j :: 0 <= i < |es| && 0 <= j < |es| ==> !Clash(es, i, j)
  }

  predicate HasKey(es: seq<Entry>, key: string, file: bool) {
    exists i :: 0 <= i < |es| && es[i].key == key && es[i].directory == !file
  }

  lemma HasKeyMore(before: seq<Entry>, e: Entry, key: string, file: bool)
    ensures HasKey(before + [e], key, file) <==> HasKey(before, key, file) || (key == e.key && file == !e.directory)
  {
    var es := before + [e];
    if HasKey(es, key, file) {
      var i :| 0 <= i < |es| && es[i].key == key && es[i].directory == !file;
      assert i < |before| ==> es[i] == before[i];
    }
    if HasKey(before, key, file) {
      var i :| 0 <= i < |before| && before[i].key == key && before[i].directory == !file;
      assert es[i] == before[i];
    }
    if key == e.key && file == !e.directory {
      assert es[|before|] == e;
    }
  }

  lemma AdmitNotes(casing: Casing, st: State, e: Entry)
    requires Admit(casing, st, e).Success?
    ensures var next := Admit(casing, st, e).value;
            e.key !in st.kinds && next.kinds == st.kinds[e.key := !e.directory] && next.entries == st.entries + [e]
  {
    hide FileParent, FileBelow, Counted;
  }

  /** The kinds are those of the entries so far. */
  lemma {:induction false} KindsAreEntries(casing: Casing, es: seq<Entry>)
    requires AdmitAll(casing, es).Success?
    ensures var kinds := AdmitAll(casing, es).value.kinds;
            && (forall key, file :: HasKey(es, key, file) <==> key in kinds && kinds[key] == file)
            && AdmitAll(casing, es).value.entries == es
    decreases |es|
  {
    hide Admit;
    if |es| > 0 {
      hide HasKey;
      var before, e := es[..|es| - 1], es[|es| - 1];
      KindsAreEntries(casing, before);
      AdmitNotes(casing, AdmitAll(casing, before).value, e);
      var kinds := AdmitAll(casing, es).value.kinds;
      assert es == before + [e];
      forall key, file
        ensures HasKey(es, key, file) <==> key in kinds && kinds[key] == file
      {
        HasKeyMore(before, e, key, file);
      }
    }
  }

  lemma AboveIsOther(key: string)
    ensures !Above(key, key)
  {
  }

  /** The condition under which one more entry is admitted. */
  predicate Fits(es: seq<Entry>, e: Entry) {
    forall i :: 0 <= i < |es| ==>
      && es[i].key != e.key
      && (!es[i].directory ==> !Above(es[i].key, e.key))
      && (!es[i].directory && !e.directory ==> !Above(e.key, es[i].key))
  }

  lemma AdmitIffFits(casing: Casing, es: seq<Entry>, e: Entry)
    requires KeepsSlashes(casing) && WellNamed(casing, e) && AdmitAll(casing, es).Success?
    ensures Admit(casing, AdmitAll(casing, es).value, e).Success? <==> Fits(es, e)
  {
    hide FileParent, WellNamed, Above, Counted, KeepsSlashes, AdmitAll;
    var st := AdmitAll(casing, es).value;
    KindsAreEntries(casing, es);
    AboveIsOther(e.key);
    var kinds := st.kinds[e.key := !e.directory];
    FileParentIsAbove(casing, kinds, e);
    if e.key !in st.kinds {
      forall i | 0 <= i < |es|
        ensures es[i].key in st.kinds && st.kinds[es[i].key] == !es[i].directory && es[i].key != e.key
      {
        assert HasKey(es, es[i].key, !es[i].directory);
      }
      forall key | key in kinds && kinds[key] && key != e.key
        ensures exists i :: 0 <= i < |es| && es[i].key == key && !es[i].directory
      {
        assert HasKey(es, key, true);
      }
    } else {
      assert HasKey(es, e.key, st.kinds[e.key]);
    }
  }

  /** Exactly the lists with distinct keys and without a clash are admitted. */
  lemma {:induction false} AdmittedIff(casing: Casing, es: seq<Entry>)
    requires KeepsSlashes(casing) && forall e :: e in es ==> WellNamed(casing, e)
    ensures AdmitAll(casing, es).Success? <==> DistinctKeys(es) && NoClash(es)
    decreases |es|
  {
    hide Admit, WellNamed, Above, KeepsSlashes;
    if |es| > 0 {
      var before, e := es[..|es| - 1], es[|es| - 1];
      assert es == before + [e];
      AdmittedIff(casing, before);
      if AdmitAll(casing, before).Success? {
        AdmitIffFits(casing, before, e);
      }
      OneMore(before, e);
    }
  }

  lemma OneMore(before: seq<Entry>, e: Entry)
    ensures DistinctKeys(before + [e]) && NoClash(before + [e])
            <==> DistinctKeys(before) && NoClash(before) && Fits(before, e)
  {
    hide Above;
    var es := before + [e];
    AboveIsOther(e.key);
    if DistinctKeys(es) && NoClash(es) {
      forall i, j | 0 <= i < |before| && 0 <= j < |before|
        ensures !Clash(before, i, j)
      {
        assert !Clash(es, i, j);
      }
      forall i | 0 <= i < |before|
        ensures before[i].key != e.key
        ensures !before[i].directory ==> !Above(before[i].key, e.key)
        ensures !before[i].directory && !e.directory ==> !Above(e.key, before[i].key)
      {
        assert es[i] == before[i] && es[|before|] == e;
        assert !Clash(es, i, |before|) && !Clash(es, |before|, i);
      }
      assert forall i, j :: 0 <= i < j < |before| ==> es[i] == before[i] && es[j] == before[j];
    }
    if DistinctKeys(before) && NoClash(before) && Fits(before, e) {
      forall i, j | 0 <= i < |es| && 0 <= j < |es|
        ensures !Clash(es, i, j)
      {
        if i < |before| && j < |before| {
          assert !Clash(before, i, j);
        }
      }
    }
  }

  /** In an admitted list no key comes twice and no file is above another file. */
  lemma AdmittedIsSafe(casing: Casing, es: seq<Entry>, i: nat, j: nat)
    requires KeepsSlashes(casing) && (forall e :: e in es ==> WellNamed(casing, e)) && AdmitAll(casing, es).Success?
    requires i < |es| && j < |es| && i != j
    ensures es[i].key != es[j].key
    ensures !es[i].directory && !es[j].directory ==> !Above(es[i].key, es[j].key)
  {
    hide AdmitAll, WellNamed, Above, KeepsSlashes;
    AdmittedIff(casing, es);
    assert !Clash(es, i, j);
  }

  /** What the walk does not notice: a directory comes first, then a file above it. */
  lemma FileAfterDirectory(casing: Casing, directory: Entry, file: Entry)
    requires KeepsSlashes(casing)
    requires directory.name == "a/b" && directory.key == Lower(casing, "a/b") && directory.directory
    requires file.name == "a" && file.key == Lower(casing, "a") && !file.directory
    ensures AdmitAll(casing, [directory, file]).Success? && Above(file.key, directory.key)
    ensures AdmitAll(casing, [file, directory]).Failure?
  {
    hide AdmitAll, KeepsSlashes;
    SafeSplits(casing, ["a", "b"]);
    SafeSplits(casing, ["a"]);
    assert Join(["a", "b"]) == "a/b" && Join(["a"]) == "a";
    LowerSlash(casing, "a", "a/b");
    AdmittedIff(casing, [directory, file]);
    AdmittedIff(casing, [file, directory]);
    assert Clash([file, directory], 0, 1);
  }

  // ---------- Lists of files, in any order ----------

  datatype Totals = Totals(total: nat, compressed: nat, largest: nat)

  function Count(casing: Casing, t: Totals, e: Entry): Totals {
    if Counted(casing, e) then
      Totals(t.total + e.fileSize, t.compressed + e.compressedSize, if e.fileSize > t.largest then e.fileSize else t.largest)
    else t
  }

  function TotalsOf(casing: Casing, es: seq<Entry>): Totals {
    if |es| == 0 then Totals(0, 0, 0) else Count(casing, TotalsOf(casing, es[..|es| - 1]), es[|es| - 1])
  }

  lemma {:induction false} TotalsAreCounted(casing: Casing, es: seq<Entry>)
    requires AdmitAll(casing, es).Success?
    ensures var st := AdmitAll(casing, es).value;
            Totals(st.total, st.compressed, st.largest) == TotalsOf(casing, es)
    decreases |es|
  {
    hide Counted, FileParent, FileBelow;
    if |es| > 0 {
      TotalsAreCounted(casing, es[..|es| - 1]);
    }
  }

  predicate NewKey(es: seq<Entry>, key: string) {
    forall i :: 0 <= i < |es| ==> es[i].key != key
  }

  lemma LastKey(es: seq<Entry>, e: Entry)
    ensures DistinctKeys(es + [e]) <==> DistinctKeys(es) && NewKey(es, e.key)
  {
    var more := es + [e];
    assert forall i :: 0 <= i < |es| ==> more[i] == es[i];
    assert more[|es|] == e;
  }

  function Dropped(es: seq<Entry>, k: nat): seq<Entry>
    requires k < |es|
  {
    es[..k] + es[k + 1..]
  }

  lemma MovedKeys(es: seq<Entry>, k: nat, key: string)
    requires k < |es|
    ensures NewKey(es, key) <==> NewKey(Dropped(es, k) + [es[k]], key)
  {
    var moved, n := Dropped(es, k) + [es[k]], |es| - 1;
    assert forall i :: 0 <= i < k ==> moved[i] == es[i];
    assert forall i :: k <= i < n ==> moved[i] == es[i + 1];
    assert moved[n] == es[k];
    forall i | 0 <= i < |es|
      ensures es[i] == moved[if i < k then i else if i == k then n else i - 1]
    {
    }
  }

  /** An entry may be moved to the end. */
  lemma {:induction false} MoveLast(casing: Casing, es: seq<Entry>, k: nat)
    requires k < |es|
    ensures TotalsOf(casing, es) == TotalsOf(casing, Dropped(es, k) + [es[k]])
    ensures DistinctKeys(es) <==> DistinctKeys(Dropped(es, k) + [es[k]])
    decreases |es|
  {
    hide Counted, DistinctKeys;
    var n := |es| - 1;
    var e, last := es[k], es[n];
    if k == n {
      assert Dropped(es, k) + [e] == es;
    } else {
      MoveLast(casing, es[..n], k);
      var rest := Dropped(es[..n], k);
      assert Dropped(es, k) == rest + [last];
      assert es == es[..n] + [last];
      forall key
        ensures NewKey(es[..n], key) <==> NewKey(rest + [e], key)
      {
        MovedKeys(es[..n], k, key);
      }
      SwapLast(casing, es[..n], rest, e, last);
    }
  }

  lemma SwapLast(casing: Casing, front: seq<Entry>, rest: seq<Entry>, e: Entry, last: Entry)
    requires TotalsOf(casing, front) == TotalsOf(casing, rest + [e])
    requires DistinctKeys(front) <==> DistinctKeys(rest + [e])
    requires forall key :: NewKey(front, key) <==> NewKey(rest + [e], key)
    ensures TotalsOf(casing, front + [last]) == TotalsOf(casing, rest + [last] + [e])
    ensures DistinctKeys(front + [last]) <==> DistinctKeys(rest + [last] + [e])
  {
    hide Counted, DistinctKeys;
    LastKey(front, last);
    LastKey(rest, e);
    LastKey(rest, last);
    LastKey(rest + [last], e);
    assert (front + [last])[..|front|] == front;
    assert (rest + [e])[..|rest|] == rest && (rest + [last])[..|rest|] == rest;
    assert (rest + [last] + [e])[..|rest| + 1] == rest + [last];
  }

  lemma {:induction false} SameInAnyOrder(casing: Casing, a: seq<Entry>, b: seq<Entry>)
    requires multiset(a) == multiset(b)
    ensures TotalsOf(casing, a) == TotalsOf(casing, b) && (DistinctKeys(a) <==> DistinctKeys(b))
    decreases |a|
  {
    hide DistinctKeys, Counted, NewKey;
    assert |a| == |multiset(a)| == |multiset(b)| == |b|;
    if |a| > 0 {
      var front, e := a[..|a| - 1], a[|a| - 1];
      assert a == front + [e];
      var k := PlaceOf(b, front, e);
      var rest := Dropped(b, k);
      SameInAnyOrder(casing, front, rest);
      MoveLast(casing, b, k);
      LastKey(front, e);
      LastKey(rest, e);
      SameKeys(front, rest, e.key);
      SameTotals(casing, front, rest, e);
    }
  }

  /** Where the list in another order has the last entry of a list. */
  lemma PlaceOf(b: seq<Entry>, front: seq<Entry>, e: Entry) returns (k: nat)
    requires multiset(b) == multiset(front + [e])
    ensures k < |b| && b[k] == e && multiset(Dropped(b, k)) == multiset(front)
  {
    assert e in multiset(b);
    k :| k < |b| && b[k] == e;
    assert b == b[..k] + [e] + b[k + 1..];
    assert multiset(Dropped(b, k)) == multiset(b) - multiset{e};
  }

  lemma SameTotals(casing: Casing, a: seq<Entry>, b: seq<Entry>, e: Entry)
    requires TotalsOf(casing, a) == TotalsOf(casing, b)
    ensures TotalsOf(casing, a + [e]) == TotalsOf(casing, b + [e])
  {
    hide Counted;
    assert (a + [e])[..|a|] == a && (b + [e])[..|b|] == b;
  }

  lemma SameKeys(a: seq<Entry>, b: seq<Entry>, key: string)
    requires multiset(a) == multiset(b)
    ensures NewKey(a, key) <==> NewKey(b, key)
  {
    KeysCarry(a, b, key);
    KeysCarry(b, a, key);
  }

  lemma KeysCarry(a: seq<Entry>, b: seq<Entry>, key: string)
    requires multiset(a) == multiset(b)
    ensures NewKey(a, key) ==> NewKey(b, key)
  {
    forall i | NewKey(a, key) && 0 <= i < |b|
      ensures b[i].key != key
    {
      assert b[i] in multiset(b) && b[i] in multiset(a);
      var j :| 0 <= j < |a| && a[j] == b[i];
    }
  }

  lemma NoClashOfFiles(es: seq<Entry>)
    requires forall e :: e in es ==> !e.directory
    ensures NoClash(es) <==> forall x, y :: x in es && y in es ==> !Above(x.key, y.key)
  {
    hide Above;
    if NoClash(es) {
      forall x, y | x in es && y in es
        ensures !Above(x.key, y.key)
      {
        var i :| 0 <= i < |es| && es[i] == x;
        var j :| 0 <= j < |es| && es[j] == y;
        AboveIsOther(x.key);
        assert !Clash(es, i, j);
      }
    }
  }

  /** For files alone the order of the entries does not matter: neither to whether they are
      admitted nor to whether they are within the limits. */
  lemma FilesInAnyOrder(casing: Casing, a: seq<Entry>, b: seq<Entry>)
    requires KeepsSlashes(casing) && multiset(a) == multiset(b)
    requires forall e :: e in a ==> WellNamed(casing, e) && !e.directory
    ensures AdmitAll(casing, a).Success? <==> AdmitAll(casing, b).Success?
    ensures AdmitAll(casing, a).Success? ==>
              forall limits, size, count :: CheckLimits(limits, size, count, AdmitAll(casing, a).value)
                                            == CheckLimits(limits, size, count, AdmitAll(casing, b).value)
  {
    hide AdmitAll, WellNamed, Above, KeepsSlashes, DistinctKeys, NoClash, TotalsOf;
    assert forall e :: e in a <==> e in multiset(a);
    assert forall e :: e in b <==> e in multiset(b);
    AdmittedIff(casing, a);
    AdmittedIff(casing, b);
    NoClashOfFiles(a);
    NoClashOfFiles(b);
    SameInAnyOrder(casing, a, b);
    if AdmitAll(casing, a).Success? && AdmitAll(casing, b).Success? {
      TotalsAreCounted(casing, a);
      TotalsAreCounted(casing, b);
    }
  }

  // ---------- Directories that are accepted ----------

  lemma {:induction false} WalkAdmits(text: Text, central: Bytes, archiveSize: nat, offset: nat, st: State)
    requires AdmitAll(text.casing, st.entries) == Success(st) && forall e :: e in st.entries ==> WellNamed(text.casing, e)
    requires Walk(text, central, archiveSize, offset, st).Success?
    ensures var r := Walk(text, central, archiveSize, offset, st).value;
            AdmitAll(text.casing, r.entries) == Success(r) && forall e :: e in r.entries ==> WellNamed(text.casing, e)
    decreases |central| - offset
  {
    hide EntryAt, WellNamed, FileParent, FileBelow, Counted;
    if offset < |central| {
      EntriesAreWellNamed(text, central, archiveSize, offset);
      EntriesHaveLength(text, central, archiveSize, offset);
      var (e, end) := EntryAt(text, central, archiveSize, offset).value;
      var next := Admit(text.casing, st, e).value;
      assert (st.entries + [e])[..|st.entries|] == st.entries;
      WalkAdmits(text, central, archiveSize, end, next);
    }
  }

  /** Every directory that is read has safe names, distinct keys, no clash, and is within the
      limits. */
  lemma ReadIsSafe(text: Text, limits: Limits, archive: Bytes)
    requires KeepsSlashes(text.casing) && ReadDirectory(text, limits, archive).Success?
    ensures var es := ReadDirectory(text, limits, archive).value;
            && (forall e :: e in es ==> WellNamed(text.casing, e)) && DistinctKeys(es) && NoClash(es)
            && var t := TotalsOf(text.casing, es);
               && |archive| <= limits.archiveBytes && t.largest <= limits.fileSize && t.total <= limits.totalSize
               && (t.compressed != 0 ==> t.total <= limits.ratio * t.compressed)
  {
    hide Walk, WellNamed, KeepsSlashes, DistinctKeys, NoClash, LastEnd, AdmitAll, U16, U32;
    assert AdmitAll(text.casing, []) == Success(NOTHING) by {
      NothingAdmitted(text.casing);
    }
    var start := |archive| - Min(|archive|, 22 + 65535);
    var tail := archive[start..];
    var end := LastEnd(tail, |tail| - 22).value;
    var size, offset := U32(tail, end + 12), U32(tail, end + 16);
    WalkAdmits(text, archive[offset..offset + size], |archive|, 0, NOTHING);
    var es := ReadDirectory(text, limits, archive).value;
    AdmittedIff(text.casing, es);
    TotalsAreCounted(text.casing, es);
  }

  lemma NothingAdmitted(casing: Casing)
    ensures AdmitAll(casing, []) == Success(NOTHING)
  {
  }
}
