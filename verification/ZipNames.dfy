/** Names of archive entries: their normal form, the key that folds case, and the rules that make
    them safe on every platform. */
module ZipNames {
  import opened Outcomes

  datatype Error =
    | UnsafePath | AbsolutePath | DrivePath | InvalidName | ReservedName | CaseCollision | Symlink
    | ConflictingPath | FileCount | FileSize | TotalSize | ArchiveSize | CompressionRatio
    | MalformedZip | UnsupportedCompression

  /** Changing case, character by character. Lower case keeps slashes, and makes no new ones. */
  datatype Casing = Casing(lower: char -> char, upper: char -> char)

  ghost predicate KeepsSlashes(casing: Casing) {
    forall c :: casing.lower(c) == '/' <==> c == '/'
  }

  function Lower(casing: Casing, s: string): (r: string)
    ensures |r| == |s|
  {
    seq(|s|, i requires 0 <= i < |s| => casing.lower(s[i]))
  }

  function Upper(casing: Casing, s: string): string {
    seq(|s|, i requires 0 <= i < |s| => casing.upper(s[i]))
  }

  // ---------- Splitting and joining ----------

  function Split(s: string): (parts: seq<string>)
    ensures |parts| > 0 && forall p :: p in parts ==> '/' !in p
  {
    if |s| == 0 then [""]
    else
      var rest := Split(s[1..]);
      if s[0] == '/' then [""] + rest else [[s[0]] + rest[0]] + rest[1..]
  }

  function NonEmpty(parts: seq<string>): (r: seq<string>)
    ensures forall p :: p in r <==> p in parts && p != ""
  {
    if |parts| == 0 then []
    else (if parts[0] == "" then [] else [parts[0]]) + NonEmpty(parts[1..])
  }

  function Join(parts: seq<string>): string {
    if |parts| == 0 then "" else if |parts| == 1 then parts[0] else parts[0] + "/" + Join(parts[1..])
  }

  predicate Clean(parts: seq<string>) {
    forall p :: p in parts ==> p != "" && '/' !in p
  }

  lemma {:induction false} SplitStep(part: string, s: string)
    requires '/' !in part
    ensures Split(part + "/" + s) == [part] + Split(s)
    decreases |part|
  {
    if |part| == 0 {
      assert part + "/" + s == "/" + s && ("/" + s)[1..] == s;
      assert Split("/" + s) == [""] + Split(s);
    } else {
      SplitStep(part[1..], s);
      assert (part + "/" + s)[1..] == part[1..] + "/" + s;
      assert part[0] in part && (part + "/" + s)[0] == part[0];
      assert ([part[1..]] + Split(s))[1..] == Split(s);
      assert [part[0]] + part[1..] == part;
    }
  }

  lemma {:induction false} SplitPart(part: string)
    requires '/' !in part
    ensures Split(part) == [part]
    decreases |part|
  {
    if |part| > 0 {
      SplitPart(part[1..]);
      assert part[0] in part && [part[0]] + part[1..] == part;
      assert [part[1..]][1..] == [];
    }
  }

  lemma {:induction false} SplitJoin(parts: seq<string>)
    requires |parts| > 0 && Clean(parts)
    ensures Split(Join(parts)) == parts && NonEmpty(parts) == parts
  {
    assert parts[0] in parts;
    if |parts| == 1 {
      SplitPart(parts[0]);
      assert NonEmpty(parts[1..]) == [];
    } else {
      assert forall p :: p in parts[1..] ==> p in parts;
      SplitJoin(parts[1..]);
      SplitStep(parts[0], Join(parts[1..]));
    }
  }

  // ---------- The normal form ----------

  predicate Control(c: char) {
    c < ' '
  }

  predicate Letter(c: char) {
    'A' <= c <= 'Z' || 'a' <= c <= 'z'
  }

  predicate Forbidden(c: char) {
    c in {'<', '>', '"', '|', '?', '*'}
  }

  function BeforeDot(s: string): string {
    if |s| == 0 || s[0] == '.' then "" else [s[0]] + BeforeDot(s[1..])
  }

  predicate Reserved(s: string) {
    || s in {"CON", "PRN", "AUX", "NUL"}
    || (|s| == 4 && (s[..3] == "COM" || s[..3] == "LPT") && '1' <= s[3] <= '9')
  }

  function PartError(casing: Casing, part: string): Option<Error> {
    if part != "" && (part[|part| - 1] == ' ' || part[|part| - 1] == '.') then Some(InvalidName)
    else if exists i :: 0 <= i < |part| && (part[i] == ':' || Forbidden(part[i])) then Some(InvalidName)
    else if Reserved(Upper(casing, BeforeDot(part))) then Some(ReservedName)
    else None
  }

  function PartsError(casing: Casing, parts: seq<string>): Option<Error> {
    if |parts| == 0 then None
    else if PartError(casing, parts[0]).Some? then PartError(casing, parts[0])
    else PartsError(casing, parts[1..])
  }

  function Slashed(s: string): (r: string)
    ensures |r| == |s|
  {
    seq(|s|, i requires 0 <= i < |s| => if s[i] == '\\' then '/' else s[i])
  }

  function NormalizeName(casing: Casing, raw: string): Result<string, Error> {
    if raw == "" then Failure(UnsafePath)
    else if exists i :: 0 <= i < |raw| && Control(raw[i]) then Failure(InvalidName)
    else if |raw| >= 2 && (raw[..2] == "\\\\" || raw[..2] == "/\\") then Failure(DrivePath)
    else
      var path := Slashed(raw);
      if path[0] == '/' then Failure(AbsolutePath)
      else if |path| >= 2 && Letter(path[0]) && path[1] == ':' then Failure(DrivePath)
      else
        var parts := NonEmpty(Split(path));
        if |parts| == 0 || ".." in parts then Failure(UnsafePath)
        else if PartsError(casing, parts).Some? then Failure(PartsError(casing, parts).value)
        else Success(Join(parts))
  }

  /** The loop over the parts, which stops at the first that is not allowed. */
  method CheckParts(casing: Casing, parts: seq<string>) returns (error: Option<Error>)
    ensures error == PartsError(casing, parts)
  {
    for i := 0 to |parts|
      invariant PartsError(casing, parts[i..]) == PartsError(casing, parts)
    {
      assert parts[i..][1..] == parts[i + 1..];
      error := PartError(casing, parts[i]);
      if error.Some? { return; }
    }
    return None;
  }

  // ---------- What a normal name is ----------

  /** A name that can be used as it is: relative, with no part that means anything special. */
  predicate Safe(casing: Casing, parts: seq<string>) {
    |parts| > 0 && Clean(parts) && forall p :: p in parts ==> SafePart(casing, p)
  }

  predicate SafePart(casing: Casing, p: string) {
    && p != "." && p != ".." && !BadText(p) && !Device(casing, p)
    && forall i :: 0 <= i < |p| ==> p[i] != '\\' && p[i] >= ' '
  }

  /** Text that Windows does not take for a name. */
  predicate BadText(p: string) {
    || (p != "" && p[|p| - 1] in {' ', '.'})
    || exists i :: 0 <= i < |p| && p[i] in {':', '<', '>', '"', '|', '?', '*'}
  }

  predicate DeviceName(s: string) {
    || s in {"CON", "PRN", "AUX", "NUL"}
    || exists d :: d in "123456789" && (s == "COM" + [d] || s == "LPT" + [d])
  }

  /** The text before the first dot. */
  predicate Stem(p: string, k: nat) {
    k <= |p| && '.' !in p[..k] && (k == |p| || p[k] == '.')
  }

  /** In capitals, the name without its extensions is that of a device. */
  predicate Device(casing: Casing, p: string) {
    exists k :: 0 <= k <= |p| && Stem(p, k) && DeviceName(Upper(casing, p[..k]))
  }

  lemma ReservedAreDevices(s: string)
    ensures Reserved(s) <==> DeviceName(s)
  {
    if |s| == 4 {
      assert s == s[..3] + [s[3]];
      DigitsAre(s[3]);
    }
    if d: char :| d in "123456789" && (s == "COM" + [d] || s == "LPT" + [d]) {
      assert s[3] == d && (s[..3] == "COM" || s[..3] == "LPT");
      DigitsAre(d);
    }
  }

  lemma DigitsAre(d: char)
    ensures '1' <= d <= '9' <==> d in "123456789"
  {
    assert "123456789" == ['1', '2', '3', '4', '5', '6', '7', '8', '9'];
    if '1' <= d <= '9' {
      assert "123456789"[d as int - '1' as int] == d;
    }
  }

  lemma {:induction false} BeforeDotIsStem(p: string)
    ensures |BeforeDot(p)| <= |p| && BeforeDot(p) == p[..|BeforeDot(p)|]
    ensures forall k: nat :: Stem(p, k) <==> k == |BeforeDot(p)|
  {
    if |p| > 0 && p[0] != '.' {
      BeforeDotIsStem(p[1..]);
      var n := |BeforeDot(p)|;
      assert p[..n] == [p[0]] + p[1..][..n - 1];
      forall k: nat
        ensures Stem(p, k) <==> k == n
      {
        if 0 < k <= |p| {
          assert p[..k] == [p[0]] + p[1..][..k - 1];
          assert Stem(p, k) <==> Stem(p[1..], k - 1);
        }
      }
    } else {
      forall k: nat
        ensures Stem(p, k) <==> k == 0
      {
        if 0 < k <= |p| {
          assert p[..k][0] == '.';
        }
      }
    }
  }

  /** What is wrong with a part: its text comes first, then a device's name. */
  lemma PartErrorIs(casing: Casing, p: string)
    ensures PartError(casing, p)
            == if BadText(p) then Some(InvalidName) else if Device(casing, p) then Some(ReservedName) else None
  {
    BeforeDotIsStem(p);
    ReservedAreDevices(Upper(casing, BeforeDot(p)));
  }

  lemma {:induction false} SplitChars(s: string)
    ensures forall p, c :: p in Split(s) && c in p ==> c in s
    decreases |s|
  {
    if |s| > 0 {
      SplitChars(s[1..]);
      var rest := Split(s[1..]);
      forall p, c | p in Split(s) && c in p
        ensures c in s
      {
        if s[0] != '/' && p == [s[0]] + rest[0] && c != s[0] {
          assert c in rest[0];
        } else if s[0] == '/' && p != "" {
          assert p in rest;
        } else if s[0] != '/' && p != [s[0]] + rest[0] {
          assert p in rest[1..] && p in rest;
        }
      }
    }
  }

  lemma {:induction false} PartsAllowed(casing: Casing, parts: seq<string>)
    ensures PartsError(casing, parts).None? <==> forall p :: p in parts ==> PartError(casing, p).None?
  {
    if |parts| > 0 {
      PartsAllowed(casing, parts[1..]);
    }
  }

  /** Every accepted name is the join of safe parts. */
  lemma NormalIsSafe(casing: Casing, raw: string)
    requires NormalizeName(casing, raw).Success?
    ensures var parts := NonEmpty(Split(Slashed(raw)));
            NormalizeName(casing, raw).value == Join(parts) && Safe(casing, parts)
  {
    hide PartsError;
    hide BadText, Device, PartError;
    var path := Slashed(raw);
    var parts := NonEmpty(Split(path));
    PartsAllowed(casing, parts);
    SplitChars(path);
    forall p | p in parts
      ensures SafePart(casing, p)
    {
      PartErrorIs(casing, p);
      DotIsBad();
      forall i | 0 <= i < |p|
        ensures p[i] != '\\' && !Control(p[i])
      {
        assert p in Split(path) && p[i] in p;
        var k :| 0 <= k < |path| && path[k] == p[i];
        assert !Control(raw[k]);
      }
    }
  }

  lemma DotIsBad()
    ensures BadText(".")
  {
  }

  lemma {:induction false} JoinChars(casing: Casing, parts: seq<string>)
    requires |parts| > 0 && Safe(casing, parts)
    ensures var name := Join(parts);
            && (forall i :: 0 <= i < |name| ==> name[i] != '\\' && !Control(name[i]))
            && parts[0] <= name && (|name| > |parts[0]| ==> name[|parts[0]|] == '/')
  {
    assert SafePart(casing, parts[0]);
    if |parts| > 1 {
      assert forall p :: p in parts[1..] ==> p in parts;
      JoinChars(casing, parts[1..]);
      assert Join(parts) == parts[0] + "/" + Join(parts[1..]);
    }
  }

  /** A safe name is its own normal form. */
  lemma SafeIsNormal(casing: Casing, parts: seq<string>)
    requires Safe(casing, parts)
    ensures NormalizeName(casing, Join(parts)) == Success(Join(parts))
  {
    hide PartsError, PartError, Split, NonEmpty, Device;
    var name := Join(parts);
    JoinChars(casing, parts);
    SplitJoin(parts);
    PartsAllowed(casing, parts);
    forall p | p in parts
      ensures PartError(casing, p).None?
    {
      PartErrorIs(casing, p);
    }
    assert parts[0] in parts && SafePart(casing, parts[0]) && name[0] == parts[0][0];
    assert Slashed(name) == name;
    assert |parts[0]| > 1 ==> parts[0][1] != ':';
    assert ".." !in parts;
  }

  /** Normal names are fixed points, and no two normal names differ in how they are written. */
  lemma NormalIsFixed(casing: Casing, raw: string)
    requires NormalizeName(casing, raw).Success?
    ensures var name := NormalizeName(casing, raw).value; NormalizeName(casing, name) == Success(name)
  {
    NormalIsSafe(casing, raw);
    SafeIsNormal(casing, NonEmpty(Split(Slashed(raw))));
  }

  // ---------- Which rule a refused name breaks ----------

  /** The rules, one for each error; a network prefix counts as a drive. */
  predicate BreaksNameRule(casing: Casing, raw: string, error: Error) {
    var parts := NonEmpty(Split(Slashed(raw)));
    var network := |raw| >= 2 && (raw[..2] == "\\\\" || raw[..2] == "/\\");
    match error
    case UnsafePath => raw == "" || parts == [] || ".." in parts
    case InvalidName => (exists i :: 0 <= i < |raw| && raw[i] < ' ') || exists p :: p in parts && BadText(p)
    case DrivePath => network || (|raw| >= 2 && ('A' <= raw[0] <= 'Z' || 'a' <= raw[0] <= 'z') && raw[1] == ':')
    case AbsolutePath => raw != "" && raw[0] in {'/', '\\'} && !network
    case ReservedName => exists p :: p in parts && Device(casing, p)
    case _ => false
  }

  lemma {:induction false} FirstPartError(casing: Casing, parts: seq<string>)
    ensures PartsError(casing, parts).Some? ==>
              exists p :: p in parts && PartError(casing, p) == PartsError(casing, parts)
  {
    if |parts| > 0 {
      FirstPartError(casing, parts[1..]);
      assert parts[0] in parts;
    }
  }

  lemma PartsErrorIs(casing: Casing, parts: seq<string>)
    ensures PartsError(casing, parts).Some? <==> exists p :: p in parts && (BadText(p) || Device(casing, p))
    ensures PartsError(casing, parts) == Some(InvalidName) ==> exists p :: p in parts && BadText(p)
    ensures PartsError(casing, parts) == Some(ReservedName) ==> exists p :: p in parts && Device(casing, p)
    ensures PartsError(casing, parts).Some? ==> PartsError(casing, parts).value in {InvalidName, ReservedName}
  {
    hide PartError, PartsError, BadText, Device;
    PartsAllowed(casing, parts);
    FirstPartError(casing, parts);
    forall p | p in parts
      ensures PartError(casing, p)
              == if BadText(p) then Some(InvalidName) else if Device(casing, p) then Some(ReservedName) else None
    {
      PartErrorIs(casing, p);
    }
  }

  /** A name is refused exactly if it breaks a rule, and with the error of a rule it breaks. */
  lemma RefusedNameBreaksRule(casing: Casing, raw: string)
    ensures NormalizeName(casing, raw).Failure? <==> exists error :: BreaksNameRule(casing, raw, error)
    ensures NormalizeName(casing, raw).Failure? ==> BreaksNameRule(casing, raw, NormalizeName(casing, raw).error)
  {
    hide PartsError, BadText, Device, Split;
    PartsErrorIs(casing, NonEmpty(Split(Slashed(raw))));
    forall error | BreaksNameRule(casing, raw, error)
      ensures NormalizeName(casing, raw).Failure?
    {
      match error {
        case DrivePath => assert |raw| >= 2 && raw[1] == ':' ==> Slashed(raw)[1] == ':';
        case AbsolutePath => assert Slashed(raw)[0] == '/';
        case _ =>
      }
    }
    if NormalizeName(casing, raw).Failure? {
      assert BreaksNameRule(casing, raw, NormalizeName(casing, raw).error);
    }
  }

  /** Walking a name from a directory, as the system does. */
  function Descend(base: seq<string>, parts: seq<string>): seq<string>
    decreases |parts|
  {
    if |parts| == 0 then base
    else if parts[0] == "" || parts[0] == "." then Descend(base, parts[1..])
    else if parts[0] == ".." then Descend(if |base| == 0 then base else base[..|base| - 1], parts[1..])
    else Descend(base + [parts[0]], parts[1..])
  }

  lemma {:induction false} WalkSafe(casing: Casing, base: seq<string>, parts: seq<string>)
    requires forall p :: p in parts ==> SafePart(casing, p) && p != ""
    ensures Descend(base, parts) == base + parts
    decreases |parts|
  {
    hide BadText, Device;
    if |parts| > 0 {
      assert SafePart(casing, parts[0]);
      assert forall p :: p in parts[1..] ==> p in parts;
      WalkSafe(casing, base + [parts[0]], parts[1..]);
      assert base + [parts[0]] + parts[1..] == base + parts;
    } else {
      assert base + parts == base;
    }
  }

  /** An accepted name leads strictly below the directory it is unpacked in. */
  lemma StaysBelow(casing: Casing, raw: string, root: seq<string>)
    requires NormalizeName(casing, raw).Success?
    ensures root < Descend(root, Split(NormalizeName(casing, raw).value))
  {
    NormalIsSafe(casing, raw);
    var parts := NonEmpty(Split(Slashed(raw)));
    SplitJoin(parts);
    WalkSafe(casing, root, parts);
  }
}
