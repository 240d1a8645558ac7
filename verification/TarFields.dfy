/** What the fields of a tar header read as, whatever their bytes: where a text field is cut, and
    which number a number field holds. */
module TarFields {
  import opened Bytes
  import opened Outcomes
  import opened TarFormat

  // ---------- Text ----------

  /** A line feed, a carriage return, or one of the two Unicode line separators. */
  ghost predicate NewLine(s: Name, j: nat) {
    j <= |s| && ([10] <= s[j..] || [13] <= s[j..] || [0xE2, 0x80, 0xA8] <= s[j..] || [0xE2, 0x80, 0xA9] <= s[j..])
  }

  /** A NUL with nothing but one line behind it. */
  ghost predicate EndsText(s: Name, i: nat) {
    i < |s| && s[i] == 0 && forall j: nat :: j > i ==> !NewLine(s, j)
  }

  lemma NewLineIs(s: Name, j: nat)
    ensures NewLine(s, j) <==> j < |s| && LineEndsAt(s, j)
  {
    if j <= |s| {
      var rest := s[j..];
      assert [10] <= rest <==> |rest| > 0 && rest[0] == 10;
      assert [13] <= rest <==> |rest| > 0 && rest[0] == 13;
      assert [0xE2, 0x80, 0xA8] <= rest <==> |rest| > 2 && rest[0] == 0xE2 && rest[1] == 0x80 && rest[2] == 0xA8;
      assert [0xE2, 0x80, 0xA9] <= rest <==> |rest| > 2 && rest[0] == 0xE2 && rest[1] == 0x80 && rest[2] == 0xA9;
    }
  }

  lemma EndsTextIs(s: Name, i: nat)
    ensures EndsText(s, i) <==> i < |s| && s[i] == 0 && forall j :: i < j < |s| ==> !LineEndsAt(s, j)
  {
    hide NewLine, LineEndsAt;
    forall j: nat
      ensures NewLine(s, j) <==> j < |s| && LineEndsAt(s, j)
    {
      NewLineIs(s, j);
    }
  }

  /** A text field is cut at the first NUL that ends the text, or not at all. */
  lemma CutNulIff(s: Name, r: Name)
    ensures CutNul(s) == r
            <==> || (r == s && forall i: nat :: !EndsText(s, i))
                 || (r < s && EndsText(s, |r|) && forall i: nat :: i < |r| ==> !EndsText(s, i))
  {
    hide EndsText;
    CutFrom(s, 0);
    if r < s && EndsText(s, |r|) && forall i: nat :: i < |r| ==> !EndsText(s, i) {
      assert r == s[..|r|];
    }
    EndsTextIs(s, |s|);
  }

  lemma {:induction false} CutFrom(s: Name, k: nat)
    requires k <= |s|
    ensures var r := CutNulFrom(s, k);
            && r <= s && (r == s ==> forall i: nat :: i >= k ==> !EndsText(s, i))
            && (r != s ==> |r| >= k && EndsText(s, |r|) && forall i: nat :: k <= i < |r| ==> !EndsText(s, i))
    decreases |s| - k
  {
    hide LineEndsAt, EndsText;
    EndsTextIs(s, k);
    if k < |s| && !EndsText(s, k) {
      CutFrom(s, k + 1);
    }
    forall i: nat | i >= |s|
      ensures !EndsText(s, i)
    {
      EndsTextIs(s, i);
    }
  }

  // ---------- Numbers ----------

  /** The number that octal digits stand for. */
  function Value(digits: Name): nat
    requires forall i :: 0 <= i < |digits| ==> 48 <= digits[i] < 56
  {
    if |digits| == 0 then 0 else 8 * Value(digits[..|digits| - 1]) + (digits[|digits| - 1] - 48)
  }

  lemma {:induction false} PrefixIsValue(s: Name, n: nat, value: nat)
    requires n <= |s| && (forall i :: 0 <= i < n ==> 48 <= s[i] < 56) && (n < |s| ==> !(48 <= s[n] < 56))
    ensures OctalPrefix(s, value) == ValueAfter(value, s[..n])
    decreases n
  {
    if n > 0 {
      PrefixIsValue(s[1..], n - 1, 8 * value + Digit(s[0]));
      assert s[1..][..n - 1] == s[..n][1..];
    }
  }

  /** ... when a number was read before them. */
  function ValueAfter(value: nat, digits: Name): nat
    requires forall i :: 0 <= i < |digits| ==> 48 <= digits[i] < 56
    decreases |digits|
  {
    if |digits| == 0 then value else ValueAfter(8 * value + (digits[0] - 48), digits[1..])
  }

  lemma {:induction false} ValueAfterLast(value: nat, digits: Name)
    requires |digits| > 0 && forall i :: 0 <= i < |digits| ==> 48 <= digits[i] < 56
    ensures ValueAfter(value, digits) == 8 * ValueAfter(value, digits[..|digits| - 1]) + (digits[|digits| - 1] - 48)
    decreases |digits|
  {
    if |digits| > 1 {
      ValueAfterLast(8 * value + (digits[0] - 48), digits[1..]);
      assert digits[1..][..|digits| - 2] == digits[..|digits| - 1][1..];
    }
  }

  lemma {:induction false} ValueAfterNothing(digits: Name)
    requires forall i :: 0 <= i < |digits| ==> 48 <= digits[i] < 56
    ensures ValueAfter(0, digits) == Value(digits)
    decreases |digits|
  {
    if |digits| > 0 {
      ValueAfterLast(0, digits);
      ValueAfterNothing(digits[..|digits| - 1]);
    }
  }

  /** Blanks as the source trims them: the control characters from tab to carriage return, and
      the space. */
  predicate Blanks(s: Name) {
    forall i :: 0 <= i < |s| ==> s[i] in {9, 10, 11, 12, 13, 32}
  }

  lemma {:induction false} TrimLeftDrops(blanks: Name, s: Name)
    requires Blanks(blanks) && (|s| > 0 ==> s[0] !in {9, 10, 11, 12, 13, 32})
    ensures TrimLeft(blanks + s) == s
    decreases |blanks|
  {
    if |blanks| > 0 {
      TrimLeftDrops(blanks[1..], s);
      assert (blanks + s)[1..] == blanks[1..] + s;
    } else {
      assert blanks + s == s;
    }
  }

  lemma {:induction false} TrimRightKeeps(s: Name, n: nat)
    requires 0 < n <= |s| && s[n - 1] !in {9, 10, 11, 12, 13, 32}
    ensures TrimRight(s) <= s && n <= |TrimRight(s)|
    decreases |s|
  {
    if Blank(s[|s| - 1]) {
      TrimRightKeeps(s[..|s| - 1], n);
    }
  }

  lemma TrimRightAll(s: Name)
    requires Blanks(s)
    ensures TrimRight(s) == []
    decreases |s|
  {
    if |s| > 0 {
      TrimRightAll(s[..|s| - 1]);
    }
  }

  /** The text of a number field once the highest bit of each byte is cleared. */
  function Cleared(field: Name): (r: Name)
    ensures |r| == |field|
  {
    seq(|field|, i requires 0 <= i < |field| => if field[i] < 128 then field[i] else field[i] - 128)
  }

  lemma AsciiIsCleared(field: Name)
    ensures Ascii(field) == Cleared(field)
  {
  }

  /** Where the digits of a signed number start. */
  function SignLength(body: Name): nat {
    if |body| > 0 && (body[0] == 43 || body[0] == 45) then 1 else 0
  }

  /** The text goes on with this many octal digits, and no more. */
  predicate HasDigits(body: Name, n: nat) {
    var start := SignLength(body);
    && start + n <= |body| && (forall i :: start <= i < start + n ==> 48 <= body[i] < 56)
    && (start + n < |body| ==> !(48 <= body[start + n] < 56))
  }

  lemma ParseIs(body: Name, n: nat)
    requires n > 0 && HasDigits(body, n)
    ensures var start := SignLength(body);
            var value: int := Value(body[start..start + n]);
            ParseOctal(body) == Some(if body[0] == 45 then -value else value)
  {
    hide Value, OctalPrefix, ValueAfter;
    var start := SignLength(body);
    var tail := body[start..];
    assert tail[..n] == body[start..start + n];
    PrefixIsValue(tail, n, 0);
    ValueAfterNothing(tail[..n]);
    assert start == 0 ==> tail == body;
  }

  /** Blanks, perhaps a sign, then octal digits, then something else or nothing: the digits are the
      number, after a minus its negative. Bytes are taken without their highest bit, and the text
      ends where a text field is cut. */
  lemma NumberIs(header: Name, offset: nat, length: nat, blanks: Name, body: Name, n: nat)
    requires offset + length <= |header| && Blanks(blanks) && n > 0 && HasDigits(body, n)
    requires CutNul(Cleared(header[offset..offset + length])) == blanks + body
    ensures var start := SignLength(body);
            var value: int := Value(body[start..start + n]);
            TarNumber(header, offset, length) == Some(if body[0] == 45 then -value else value)
  {
    hide CutNul, Value, TrimLeft, TrimRight, ParseOctal;
    AsciiIsCleared(header[offset..offset + length]);
    TrimLeftDrops(blanks, body);
    var start := SignLength(body);
    TrimRightKeeps(body, start + n);
    var kept := TrimRight(body);
    assert kept[start..start + n] == body[start..start + n] && kept[0] == body[0];
    assert HasDigits(kept, n);
    ParseIs(kept, n);
  }

  /** Blanks alone are zero, and a text that begins otherwise is no number. */
  lemma NoNumber(header: Name, offset: nat, length: nat, blanks: Name, rest: Name)
    requires offset + length <= |header|
    requires CutNul(Cleared(header[offset..offset + length])) == blanks + rest
    requires Blanks(blanks) && (|rest| > 0 ==> rest[0] !in {9, 10, 11, 12, 13, 32, 43, 45} && !(48 <= rest[0] < 56))
    ensures TarNumber(header, offset, length) == if rest == [] then Some(0) else None
  {
    hide CutNul;
    AsciiIsCleared(header[offset..offset + length]);
    TrimLeftDrops(blanks, rest);
    if |rest| > 0 {
      TrimRightKeeps(rest, 1);
      assert TrimRight(rest)[0] == rest[0];
    }
  }
}
