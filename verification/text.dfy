/**
 Character and string helpers the management pages rely on: ASCII case folding,
 substring search (`String.prototype.includes`), decimal rendering of counters,
 `padStart`, the date/time slices taken from an ISO timestamp, and newline
 joining/splitting of the receipt text.
 */
module Text {

  // ---------------------------------------------------------------------------
  // Case folding
  // ---------------------------------------------------------------------------

  predicate IsUpper(c: char) { 'A' <= c <= 'Z' }

  /** `toLowerCase` on one character, restricted to ASCII letters. */
  function LowerChar(c: char): char
  {
    if IsUpper(c) then (c as int + 32) as char else c
  }

  /** `toLowerCase` on a string: only A-Z change, everything else is kept. */
  function Lower(s: string): (r: string)
    ensures |r| == |s|
    ensures forall i :: 0 <= i < |s| ==> r[i] == LowerChar(s[i])
    ensures forall i :: 0 <= i < |r| ==> !IsUpper(r[i])
    ensures forall i :: 0 <= i < |s| && !IsUpper(s[i]) ==> r[i] == s[i]
  {
    seq(|s|, i requires 0 <= i < |s| => LowerChar(s[i]))
  }

  /** Lower-casing twice is lower-casing once. */
  lemma LowerIdempotent(s: string)
    ensures Lower(Lower(s)) == Lower(s)
  {
  }

  // ---------------------------------------------------------------------------
  // Substring search
  // ---------------------------------------------------------------------------

  /** `term` occurs in `text` starting at position `i`. */
  ghost predicate OccursAt(text: string, term: string, i: int)
  {
    0 <= i <= |text| - |term| && text[i..i + |term|] == term
  }

  /** `text.includes(term)`: a prefix test at every start position. */
  function Contains(text: string, term: string): (r: bool)
    ensures |term| == 0 ==> r
    ensures r ==> |term| <= |text|
    decreases |text|
  {
    term <= text || (|text| > 0 && Contains(text[1..], term))
  }

  /** The recursive search agrees with the positional definition of an occurrence. */
  lemma {:induction false} ContainsIffOccurs(text: string, term: string)
    ensures Contains(text, term) <==> exists i :: OccursAt(text, term, i)
    decreases |text|
  {
    if term <= text {
      assert OccursAt(text, term, 0);
    }
    if |text| > 0 {
      ContainsIffOccurs(text[1..], term);
      if Contains(text[1..], term) {
        var i :| OccursAt(text[1..], term, i);
        assert text[i + 1..i + 1 + |term|] == text[1..][i..i + |term|];
        assert OccursAt(text, term, i + 1);
      }
      if i :| OccursAt(text, term, i) {
        if i == 0 {
          assert term <= text;
        } else {
          assert text[1..][i - 1..i - 1 + |term|] == text[i..i + |term|];
          assert OccursAt(text[1..], term, i - 1);
        }
      }
    } else {
      if i :| OccursAt(text, term, i) {
        assert term <= text;
      }
    }
  }

  /** `field.toLowerCase().includes(term.toLowerCase())`. */
  function IncludesIgnoringCase(field: string, term: string): (r: bool)
    ensures r <==> exists i :: OccursAt(Lower(field), Lower(term), i)
    ensures |term| == 0 ==> r
    ensures r ==> |term| <= |field|
  {
    ContainsIffOccurs(Lower(field), Lower(term));
    Contains(Lower(field), Lower(term))
  }

  /** Lower-casing works character by character, so it distributes over concatenation. */
  lemma LowerConcat(a: string, b: string)
    ensures Lower(a + b) == Lower(a) + Lower(b)
  {
  }

  /** A term found in `a` is still found once more text is appended to `a`. */
  lemma ContainsExtend(a: string, b: string, term: string)
    requires Contains(a, term)
    ensures Contains(a + b, term)
  {
    ContainsIffOccurs(a, term);
    var i :| OccursAt(a, term, i);
    assert (a + b)[i..i + |term|] == a[i..i + |term|];
    assert OccursAt(a + b, term, i);
    ContainsIffOccurs(a + b, term);
  }

  /** The case-insensitive test depends only on the lower-cased strings. */
  lemma IncludesIgnoresCase(field: string, term: string)
    ensures IncludesIgnoringCase(field, term) == IncludesIgnoringCase(Lower(field), Lower(term))
  {
    LowerIdempotent(field);
    LowerIdempotent(term);
  }

  // ---------------------------------------------------------------------------
  // Decimal digits
  // ---------------------------------------------------------------------------

  predicate IsDigit(c: char) { '0' <= c <= '9' }

  predicate AllDigits(s: string) { forall i :: 0 <= i < |s| ==> IsDigit(s[i]) }

  function Pow10(k: nat): (r: nat)
    ensures r >= 1
  {
    if k == 0 then 1 else 10 * Pow10(k - 1)
  }

  lemma {:induction false} Pow10Monotone(j: nat, k: nat)
    requires j <= k
    ensures Pow10(j) <= Pow10(k)
    decreases k
  {
    if j < k {
      Pow10Monotone(j, k - 1);
    }
  }

  function DigitValue(c: char): nat
    requires IsDigit(c)
  {
    c as int - '0' as int
  }

  function DigitChar(d: nat): (c: char)
    requires d < 10
    ensures IsDigit(c) && DigitValue(c) == d
  {
    ('0' as int + d) as char
  }

  /** The number a string of decimal digits denotes, most significant digit first. */
  function DigitsValue(s: string): nat
    requires AllDigits(s)
  {
    if |s| == 0 then 0 else DigitValue(s[0]) * Pow10(|s| - 1) + DigitsValue(s[1..])
  }

  /** Appending one digit multiplies by ten and adds it. */
  lemma {:induction false} DigitsValueSnoc(s: string, c: char)
    requires AllDigits(s) && IsDigit(c)
    ensures AllDigits(s + [c])
    ensures DigitsValue(s + [c]) == DigitsValue(s) * 10 + DigitValue(c)
    decreases |s|
  {
    if |s| == 0 {
      assert s + [c] == [c];
    } else {
      var t := s + [c];
      assert t[0] == s[0] && t[1..] == s[1..] + [c];
      DigitsValueSnoc(s[1..], c);
      var d, p, v := DigitValue(s[0]), Pow10(|s| - 1), DigitsValue(s[1..]);
      assert DigitsValue(s) == d * p + v;
      assert DigitsValue(t) == d * Pow10(|s|) + (v * 10 + DigitValue(c));
      assert Pow10(|s|) == p * 10;
      ShiftByTen(d, p, v, DigitValue(c));
    }
  }

  lemma ShiftByTen(d: nat, p: nat, v: nat, e: nat)
    ensures d * (p * 10) + (v * 10 + e) == (d * p + v) * 10 + e
  {
  }

  /** Leading zeros do not change the value. */
  lemma {:induction false} DigitsValueLeadingZeros(z: string, s: string)
    requires AllDigits(s)
    requires forall i :: 0 <= i < |z| ==> z[i] == '0'
    ensures AllDigits(z + s)
    ensures DigitsValue(z + s) == DigitsValue(s)
    decreases |z|
  {
    if |z| == 0 {
      assert z + s == s;
    } else {
      assert (z + s)[0] == '0';
      assert (z + s)[1..] == z[1..] + s;
      DigitsValueLeadingZeros(z[1..], s);
    }
  }

  /**
   `String(n)` for a non-negative integer: the canonical decimal rendering,
   whose value is `n`, with no leading zero, and exactly as many digits as `n` needs.
   */
  function NatToString(n: nat): (r: string)
    ensures 1 <= |r|
    ensures AllDigits(r)
    ensures DigitsValue(r) == n
    ensures |r| > 1 ==> r[0] != '0'
    ensures n < Pow10(|r|)
    ensures |r| > 1 ==> Pow10(|r| - 1) <= n
    decreases n
  {
    if n < 10 then
      [DigitChar(n)]
    else
      var front := NatToString(n / 10);
      var last := DigitChar(n % 10);
      DigitsValueSnoc(front, last);
      assert (front + [last])[0] == front[0];
      front + [last]
  }

  /** Rendering is injective, because the value can be read back. */
  lemma NatToStringInjective(m: nat, n: nat)
    requires NatToString(m) == NatToString(n)
    ensures m == n
  {
  }

  /** Numbers below 1000 take at most three digits; from 1000 on at least four. */
  lemma NatToStringWidth(n: nat)
    ensures n < 1000 ==> |NatToString(n)| <= 3
    ensures n >= 1000 ==> |NatToString(n)| >= 4
  {
    var r := NatToString(n);
    if n < 1000 && |r| > 3 {
      Pow10Monotone(3, |r| - 1);
    }
    if n >= 1000 && |r| < 4 {
      Pow10Monotone(|r|, 3);
    }
  }

  // ---------------------------------------------------------------------------
  // Padding
  // ---------------------------------------------------------------------------

  function Repeat(c: char, k: nat): (r: string)
    ensures |r| == k
    ensures forall i :: 0 <= i < k ==> r[i] == c
  {
    if k == 0 then [] else [c] + Repeat(c, k - 1)
  }

  /**
   `s.padStart(width, fill)` for a one-character fill: `s` is kept whole as the
   suffix and only `fill` characters are put in front, up to `width` characters.
   */
  function PadStart(s: string, width: nat, fill: char): (r: string)
    ensures |r| == if |s| >= width then |s| else width
    ensures r[|r| - |s|..] == s
    ensures forall i :: 0 <= i < |r| - |s| ==> r[i] == fill
  {
    if |s| >= width then s else Repeat(fill, width - |s|) + s
  }

  // ---------------------------------------------------------------------------
  // Timestamps
  // ---------------------------------------------------------------------------

  /** Position of the first `c` in `s`, or `|s|` when there is none. */
  function IndexOf(s: string, c: char): (k: nat)
    ensures k <= |s|
    ensures k < |s| ==> s[k] == c
    ensures forall i :: 0 <= i < k ==> s[i] != c
  {
    if |s| == 0 then 0 else if s[0] == c then 0 else 1 + IndexOf(s[1..], c)
  }

  /** `iso.split('T')[0]`: the text before the first `T`, or all of it. */
  function DatePart(iso: string): (r: string)
    ensures r <= iso
    ensures forall i :: 0 <= i < |r| ==> r[i] != 'T'
    ensures r == iso || iso[|r|] == 'T'
  {
    iso[..IndexOf(iso, 'T')]
  }

  /** `s.replace('T', ' ')` with a string pattern: only the first `T` is replaced. */
  function ReplaceFirstT(s: string): (r: string)
    ensures |r| == |s|
    ensures forall i :: 0 <= i < |s| && i != IndexOf(s, 'T') ==> r[i] == s[i]
    ensures IndexOf(s, 'T') < |s| ==> r[IndexOf(s, 'T')] == ' '
  {
    var k := IndexOf(s, 'T');
    if k == |s| then s else s[..k] + " " + s[k + 1..]
  }

  /** `iso.slice(0, 16).replace('T', ' ')`: date and minutes, separated by a space. */
  function MinuteStamp(iso: string): (r: string)
    ensures |r| == if |iso| < 16 then |iso| else 16
  {
    ReplaceFirstT(iso[..if |iso| < 16 then |iso| else 16])
  }

  /** The shape `YYYY-MM-DDTHH:MM...` that `toISOString` produces. */
  predicate IsoShaped(iso: string)
  {
    && |iso| >= 16
    && iso[10] == 'T'
    && forall i :: 0 <= i < 10 ==> iso[i] != 'T'
  }

  /** On an ISO timestamp the date is the first ten characters and the stamp is `date + " " + HH:MM`. */
  lemma IsoSlices(iso: string)
    requires IsoShaped(iso)
    ensures DatePart(iso) == iso[..10]
    ensures MinuteStamp(iso) == iso[..10] + " " + iso[11..16]
  {
    assert IndexOf(iso, 'T') == 10;
    assert IndexOf(iso[..16], 'T') == 10;
  }

  // ---------------------------------------------------------------------------
  // Lines
  // ---------------------------------------------------------------------------

  predicate NoNewline(s: string) { forall i :: 0 <= i < |s| ==> s[i] != '\n' }

  /** `lines.join("\n")`. */
  function JoinLines(lines: seq<string>): string
  {
    if |lines| == 0 then ""
    else if |lines| == 1 then lines[0]
    else lines[0] + "\n" + JoinLines(lines[1..])
  }

  /** `s.split("\n")`: always at least one piece, and no piece contains a newline. */
  function SplitLines(s: string): (r: seq<string>)
    ensures |r| >= 1
    ensures forall i :: 0 <= i < |r| ==> NoNewline(r[i])
    decreases |s|
  {
    var k := IndexOf(s, '\n');
    if k == |s| then [s] else [s[..k]] + SplitLines(s[k + 1..])
  }

  /** Splitting undoes joining when no line holds a newline of its own. */
  lemma {:induction false} SplitJoin(lines: seq<string>)
    requires |lines| >= 1
    requires forall i :: 0 <= i < |lines| ==> NoNewline(lines[i])
    ensures SplitLines(JoinLines(lines)) == lines
    decreases |lines|
  {
    if |lines| == 1 {
      assert JoinLines(lines) == lines[0];
      assert IndexOf(lines[0], '\n') == |lines[0]|;
    } else {
      var head, rest := lines[0], JoinLines(lines[1..]);
      var s := head + "\n" + rest;
      assert JoinLines(lines) == s;
      IndexOfAfterPrefix(head, rest);
      assert s[..|head|] == head;
      assert s[|head| + 1..] == rest;
      SplitJoin(lines[1..]);
      assert SplitLines(s) == [head] + SplitLines(rest);
      assert lines == [head] + lines[1..];
    }
  }

  lemma IndexOfAfterPrefix(a: string, b: string)
    requires NoNewline(a)
    ensures IndexOf(a + "\n" + b, '\n') == |a|
  {
    var s := a + "\n" + b;
    assert forall i :: 0 <= i < |a| ==> s[i] == a[i];
    assert s[|a|] == '\n';
  }
}
