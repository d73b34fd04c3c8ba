/** The string primitives the app relies on: white space and `trim`, ASCII
    lower-casing, substring search (`includes`), the decimal rendering of a
    number (`toString`) and the e-mail pattern of the validator. */
module Text {
  import opened Base

  /** JavaScript white space: the WhiteSpace and LineTerminator code points.
      The regular-expression class `\s` and `String.prototype.trim` both use
      exactly this set. */
  predicate IsSpace(c: char) {
    var n := c as int;
    || 0x09 <= n <= 0x0D
    || n == 0x20 || n == 0xA0 || n == 0x1680
    || 0x2000 <= n <= 0x200A
    || n == 0x2028 || n == 0x2029 || n == 0x202F || n == 0x205F
    || n == 0x3000 || n == 0xFEFF
  }

  /** Every character is white space (the empty string included). */
  predicate IsBlank(s: string) {
    forall i | 0 <= i < |s| :: IsSpace(s[i])
  }

  /** Drops the leading white space. */
  function TrimStart(s: string): (r: string)
    ensures |r| <= |s| && r == s[|s| - |r|..]
    ensures forall i | 0 <= i < |s| - |r| :: IsSpace(s[i])
    ensures r != [] ==> !IsSpace(r[0])
  {
    if s != [] && IsSpace(s[0]) then TrimStart(s[1..]) else s
  }

  /** Drops the trailing white space. */
  function TrimEnd(s: string): (r: string)
    ensures |r| <= |s| && r == s[..|r|]
    ensures forall i | |r| <= i < |s| :: IsSpace(s[i])
    ensures r != [] ==> !IsSpace(r[|r| - 1])
  {
    if s != [] && IsSpace(s[|s| - 1]) then TrimEnd(s[..|s| - 1]) else s
  }

  /** `s.trim()`. */
  function Trim(s: string): string {
    TrimEnd(TrimStart(s))
  }

  /** `value.trim() === ''` holds exactly of the blank strings. */
  lemma TrimEmptyIffBlank(s: string)
    ensures Trim(s) == [] <==> IsBlank(s)
  {
    var t := TrimStart(s);
    if t != [] {
      assert !IsSpace(s[|s| - |t|]) by { assert t[0] == s[|s| - |t|]; }
      assert TrimEnd(t) != [];
    }
  }

  /** ASCII upper-case letters map to lower case; every other character is kept. */
  function LowerChar(c: char): char {
    if 'A' <= c <= 'Z' then (c as int + 32) as char else c
  }

  /** `s.toLowerCase()`, restricted to ASCII letters. */
  function Lower(s: string): (r: string)
    ensures |r| == |s|
    ensures forall i | 0 <= i < |r| :: !('A' <= r[i] <= 'Z')
    ensures forall i | 0 <= i < |s| && 'A' <= s[i] <= 'Z' :: r[i] as int == s[i] as int + 32
    ensures forall i | 0 <= i < |s| && !('A' <= s[i] <= 'Z') :: r[i] == s[i]
  {
    seq(|s|, i requires 0 <= i < |s| => LowerChar(s[i]))
  }

  /** `a` and `b` agree up to the case of ASCII letters: at every position
      the characters are equal or are the upper- and lower-case forms of
      one letter. */
  predicate SameIgnoringCase(a: string, b: string) {
    && |a| == |b|
    && forall i | 0 <= i < |a| ::
      || a[i] == b[i]
      || ('A' <= a[i] <= 'Z' && b[i] as int == a[i] as int + 32)
      || ('A' <= b[i] <= 'Z' && a[i] as int == b[i] as int + 32)
  }

  /** Strings that differ only in the case of ASCII letters lower to the
      same string. */
  lemma LowerIgnoresCase(a: string, b: string)
    requires SameIgnoringCase(a, b)
    ensures Lower(a) == Lower(b)
  {
    assert forall i | 0 <= i < |a| :: Lower(a)[i] == Lower(b)[i];
  }

  /** `sub` occurs in `s` starting at position `i`. */
  ghost predicate OccursAt(s: string, sub: string, i: int) {
    0 <= i && i + |sub| <= |s| && s[i..i + |sub|] == sub
  }

  /** `s.includes(sub)`: scans `s` for a position where `sub` is a prefix. */
  function Includes(s: string, sub: string): (b: bool)
    ensures b <==> exists i :: OccursAt(s, sub, i)
    decreases |s|
  {
    if sub <= s then
      assert OccursAt(s, sub, 0);
      true
    else if s == [] then
      false
    else
      ShiftOccurrence(s, sub);
      Includes(s[1..], sub)
  }

  /** Past a position where `sub` does not start, the occurrences in `s` are
      those in `s[1..]`, shifted by one. */
  lemma ShiftOccurrence(s: string, sub: string)
    requires s != [] && !(sub <= s)
    ensures (exists i :: OccursAt(s[1..], sub, i)) <==> (exists i :: OccursAt(s, sub, i))
  {
    forall i ensures OccursAt(s[1..], sub, i) <==> OccursAt(s, sub, i + 1) {
      if 0 <= i && i + |sub| <= |s| - 1 {
        assert s[1..][i..i + |sub|] == s[i + 1..i + 1 + |sub|];
      }
    }
    if exists i :: OccursAt(s, sub, i) {
      var i :| OccursAt(s, sub, i);
      assert i != 0;
      assert OccursAt(s[1..], sub, i - 1);
    }
  }

  predicate IsDigit(c: char) {
    '0' <= c <= '9'
  }

  /** The character of a decimal digit. */
  function DigitChar(d: nat): (c: char)
    requires d < 10
    ensures IsDigit(c) && c as int - '0' as int == d
  {
    ('0' as int + d) as char
  }

  /** The number a string of decimal digits denotes, most significant first. */
  function DigitsValue(s: string): nat
    requires forall i | 0 <= i < |s| :: IsDigit(s[i])
  {
    if s == [] then 0
    else
      assert IsDigit(s[|s| - 1]);
      DigitsValue(s[..|s| - 1]) * 10 + (s[|s| - 1] as int - '0' as int)
  }

  /** `n.toString()` for a non-negative integer: its decimal digits, without
      leading zeros. */
  function Decimal(n: nat): (r: string)
    ensures |r| >= 1
    ensures forall i | 0 <= i < |r| :: IsDigit(r[i])
    ensures r[0] == '0' <==> n == 0
  {
    if n < 10 then [DigitChar(n)] else Decimal(n / 10) + [DigitChar(n % 10)]
  }

  /** Reading the rendered digits back yields the number. */
  lemma {:induction false} DecimalRoundTrip(n: nat)
    ensures DigitsValue(Decimal(n)) == n
  {
    if n >= 10 {
      DecimalRoundTrip(n / 10);
      var r := Decimal(n);
      assert r[..|r| - 1] == Decimal(n / 10);
    }
  }

  /** Distinct numbers render differently. */
  lemma DecimalInjective(m: nat, n: nat)
    ensures Decimal(m) == Decimal(n) ==> m == n
  {
    DecimalRoundTrip(m);
    DecimalRoundTrip(n);
  }

  /** A four-digit number renders as exactly four characters. */
  lemma FourDigits(n: nat)
    requires 1000 <= n <= 9999
    ensures |Decimal(n)| == 4
  {
    assert Decimal(n) == Decimal(n / 10) + [DigitChar(n % 10)];
    assert Decimal(n / 10) == Decimal(n / 100) + [DigitChar(n / 10 % 10)];
    assert Decimal(n / 100) == Decimal(n / 1000) + [DigitChar(n / 100 % 10)];
  }

  /** A character the class `[^\s@]` admits. */
  predicate IsPlain(c: char) {
    c != '@' && !IsSpace(c)
  }

  predicate AllPlain(s: string) {
    forall i | 0 <= i < |s| :: IsPlain(s[i])
  }

  /** The pattern `^[^\s@]+@[^\s@]+\.[^\s@]+$`, matched with the '@' at
      `at` and the separating '.' at `dot`: three non-empty runs of plain
      characters joined by '@' and '.'. */
  ghost predicate EmailSplit(s: string, at: int, dot: int) {
    && 0 < at && at + 1 < dot && dot + 1 < |s|
    && s[at] == '@' && s[dot] == '.'
    && AllPlain(s[..at]) && AllPlain(s[at + 1..dot]) && AllPlain(s[dot + 1..])
  }

  /** Position of the first occurrence of `c`, if any. */
  function IndexOf(s: string, c: char): (r: Option<nat>)
    ensures r.Some? ==> r.value < |s| && s[r.value] == c
    ensures r.Some? ==> forall i | 0 <= i < r.value :: s[i] != c
    ensures r.None? ==> forall i | 0 <= i < |s| :: s[i] != c
  {
    if s == [] then None
    else if s[0] == c then Some(0)
    else match IndexOf(s[1..], c)
      case None => None
      case Some(k) => Some(k + 1)
  }

  /** The e-mail check as the validator performs it, character by character:
      no white space, exactly one '@' with a non-empty part before it, and a
      '.' in the part after it that is neither its first nor its last character. */
  predicate IsEmail(s: string) {
    && (forall i | 0 <= i < |s| :: !IsSpace(s[i]))
    && match IndexOf(s, '@')
       case None => false
       case Some(at) =>
         && 0 < at
         && (forall i | at < i < |s| :: s[i] != '@')
         && exists j | at + 1 < j < |s| - 1 :: s[j] == '.'
  }

  /** The character check accepts exactly the strings the regular expression matches. */
  lemma EmailMatchesPattern(s: string)
    ensures IsEmail(s) <==> exists at, dot :: EmailSplit(s, at, dot)
  {
    if IsEmail(s) {
      var at := IndexOf(s, '@').value;
      var dot :| at + 1 < dot < |s| - 1 && s[dot] == '.';
      assert EmailSplit(s, at, dot);
    }
    if exists at, dot :: EmailSplit(s, at, dot) {
      var at, dot :| EmailSplit(s, at, dot);
      forall i | 0 <= i < |s| && i != at && i != dot
        ensures IsPlain(s[i])
      {
        if i < at {
          assert s[i] == s[..at][i];
        } else if i < dot {
          assert s[i] == s[at + 1..dot][i - at - 1];
        } else {
          assert s[i] == s[dot + 1..][i - dot - 1];
        }
      }
      assert IndexOf(s, '@') == Some(at);
    }
  }
}
