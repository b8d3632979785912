/**
 * The JavaScript string built-ins the server and the shared route table rely
 * on: `substring`, `toUpperCase` on ASCII, `replace` with a string pattern,
 * `String(n)` for an integer and `parseInt` with no radix.
 */
module JsText {
  import opened Wrappers

  // ---------------------------------------------------------- substring

  function Clamp(x: int, len: nat): (r: nat)
    ensures r <= len
  {
    if x < 0 then 0 else if x > len then len else x
  }

  /**
   * `s.substring(start, end)`: both bounds are clamped to [0, |s|] and swapped
   * when the start is past the end.
   */
  function Substring(s: string, start: int, end: int): (r: string)
    ensures |r| <= |s|
    ensures 0 <= start <= end ==> |r| <= end - start
    ensures 0 <= start <= end <= |s| ==> r == s[start..end]
    ensures 0 <= start <= |s| <= end ==> r == s[start..]
    ensures 0 <= |s| <= start <= end ==> r == []
    ensures 0 <= end <= start <= |s| ==> r == s[end..start]
    ensures start < 0 && 0 <= end <= |s| ==> r == s[..end]
    ensures end < 0 && 0 <= start <= |s| ==> r == s[..start]
  {
    var a, b := Clamp(start, |s|), Clamp(end, |s|);
    if a <= b then s[a..b] else s[b..a]
  }

  /** The order of the two bounds does not matter. */
  lemma SubstringSwaps(s: string, start: int, end: int)
    ensures Substring(s, start, end) == Substring(s, end, start)
  {
  }

  /** A bound below 0 acts as 0 and one past the end as `|s|`. */
  lemma SubstringClamps(s: string, start: int, end: int)
    ensures Substring(s, start, end) == Substring(s, Clamp(start, |s|), Clamp(end, |s|))
  {
  }

  // -------------------------------------------------------- toUpperCase

  function UpperChar(c: char): (u: char)
    ensures 'a' <= c <= 'z' ==> 'A' <= u <= 'Z' && u as int == c as int - 32
    ensures !('a' <= c <= 'z') ==> u == c
  {
    if 'a' <= c <= 'z' then (c as int - 32) as char else c
  }

  /** `s.toUpperCase()` on ASCII letters; every other character is left as it is. */
  function ToUpperCase(s: string): (r: string)
    ensures |r| == |s|
    ensures forall i :: 0 <= i < |s| ==> r[i] == UpperChar(s[i])
  {
    seq(|s|, i requires 0 <= i < |s| => UpperChar(s[i]))
  }

  // ------------------------------------------------------------ replace

  /** `pat` occurs in `s` at position `k`. */
  predicate OccursAt(s: string, pat: string, k: int) {
    0 <= k && k + |pat| <= |s| && s[k..k + |pat|] == pat
  }

  /** The first position at or after `from` where `pat` occurs in `s`. */
  function IndexFrom(s: string, pat: string, from: nat): (r: Option<nat>)
    ensures r.Some? ==> from <= r.value && OccursAt(s, pat, r.value)
                        && forall k :: from <= k < r.value ==> !OccursAt(s, pat, k)
    ensures r.None? ==> forall k :: from <= k ==> !OccursAt(s, pat, k)
    decreases |s| - from
  {
    if from + |pat| > |s| then None
    else if s[from..from + |pat|] == pat then Some(from)
    else IndexFrom(s, pat, from + 1)
  }

  /** A position whose character is not the pattern's first holds no occurrence. */
  lemma NotOccursAt(s: string, pat: string, k: int)
    requires |pat| > 0 && (0 <= k < |s| ==> s[k] != pat[0])
    ensures !OccursAt(s, pat, k)
  {
    if 0 <= k && k + |pat| <= |s| {
      assert s[k..k + |pat|][0] == s[k];
    }
  }

  /** A pattern whose first character is not in `s[..i]` does not occur before `i`. */
  lemma NoOccurrenceBefore(s: string, pat: string, i: nat)
    requires |pat| > 0 && i <= |s| && pat[0] !in s[..i]
    ensures forall k :: 0 <= k < i ==> !OccursAt(s, pat, k)
  {
    forall k | 0 <= k < i ensures !OccursAt(s, pat, k) {
      assert s[k] == s[..i][k];
      NotOccursAt(s, pat, k);
    }
  }

  /** A pattern whose first character is not in `s` does not occur in it. */
  lemma NoOccurrence(s: string, pat: string)
    requires |pat| > 0 && pat[0] !in s
    ensures forall k :: !OccursAt(s, pat, k)
  {
    forall k ensures !OccursAt(s, pat, k) {
      NotOccursAt(s, pat, k);
    }
  }

  /** `s.indexOf(pat)`, with `None` for -1. */
  function IndexOf(s: string, pat: string): (r: Option<nat>)
    ensures r.Some? ==> OccursAt(s, pat, r.value) && forall k :: 0 <= k < r.value ==> !OccursAt(s, pat, k)
    ensures r.None? ==> forall k :: !OccursAt(s, pat, k)
  {
    IndexFrom(s, pat, 0)
  }

  /**
   * The replacement text for one match (GetSubstitution, for a pattern without
   * capture groups): "$$" is "$", "$&" the match, "$`" the text before it,
   * "$'" the text after it; any other character, "$" included, stands for itself.
   */
  function Expand(rep: string, matched: string, before: string, after: string): string
    decreases |rep|
  {
    if |rep| == 0 then ""
    else if rep[0] == '$' && |rep| >= 2 && rep[1] == '$' then "$" + Expand(rep[2..], matched, before, after)
    else if rep[0] == '$' && |rep| >= 2 && rep[1] == '&' then matched + Expand(rep[2..], matched, before, after)
    else if rep[0] == '$' && |rep| >= 2 && rep[1] == '`' then before + Expand(rep[2..], matched, before, after)
    else if rep[0] == '$' && |rep| >= 2 && rep[1] == '\'' then after + Expand(rep[2..], matched, before, after)
    else [rep[0]] + Expand(rep[1..], matched, before, after)
  }

  /** A replacement text without "$" is inserted as it is. */
  lemma {:induction false} ExpandPlain(rep: string, matched: string, before: string, after: string)
    requires '$' !in rep
    ensures Expand(rep, matched, before, after) == rep
  {
    if |rep| > 0 {
      assert rep[0] != '$';
      assert '$' !in rep[1..];
      ExpandPlain(rep[1..], matched, before, after);
      assert rep == [rep[0]] + rep[1..];
    }
  }

  /** `i` is the first position where `pat` occurs in `s`. */
  predicate FirstAt(s: string, pat: string, i: int) {
    OccursAt(s, pat, i) && forall k :: 0 <= k < i ==> !OccursAt(s, pat, k)
  }

  /** There is at most one first occurrence. */
  lemma FirstAtUnique(s: string, pat: string, i: int, j: int)
    requires FirstAt(s, pat, i) && FirstAt(s, pat, j)
    ensures i == j
  {
  }

  /** `s.replace(pat, rep)` with a string pattern: only the first occurrence is replaced. */
  function Replace(s: string, pat: string, rep: string): (r: string)
    ensures (forall k :: !OccursAt(s, pat, k)) ==> r == s
    ensures forall i {:trigger FirstAt(s, pat, i)} :: FirstAt(s, pat, i) ==>
              r == s[..i] + Expand(rep, pat, s[..i], s[i + |pat|..]) + s[i + |pat|..]
  {
    match IndexOf(s, pat)
    case None => s
    case Some(i) =>
      assert FirstAt(s, pat, i);
      assert forall j {:trigger FirstAt(s, pat, j)} :: FirstAt(s, pat, j) ==> j == i by {
        forall j | FirstAt(s, pat, j) ensures j == i {
          FirstAtUnique(s, pat, i, j);
        }
      }
      s[..i] + Expand(rep, pat, s[..i], s[i + |pat|..]) + s[i + |pat|..]
  }

  /** With a "$"-free replacement, `replace` puts it in place of the first occurrence. */
  lemma ReplaceFirst(s: string, pat: string, rep: string, i: nat)
    requires '$' !in rep
    requires FirstAt(s, pat, i)
    ensures Replace(s, pat, rep) == s[..i] + rep + s[i + |pat|..]
  {
    ExpandPlain(rep, pat, s[..i], s[i + |pat|..]);
  }

  /** The replacement "$&" puts the matched text back: `replace` then leaves `s` as it was. */
  lemma ReplaceWithMatch(s: string, pat: string, i: nat)
    requires FirstAt(s, pat, i)
    ensures Replace(s, pat, "$&") == s
  {
    var before, after := s[..i], s[i + |pat|..];
    assert Expand("$&", pat, before, after) == pat + Expand("", pat, before, after);
    assert s == before + s[i..i + |pat|] + after;
  }

  // ----------------------------------------------------- numbers as text

  function DigitChar(d: nat): (c: char)
    requires d < 10
    ensures '0' <= c <= '9' && c as int - '0' as int == d
  {
    (d + '0' as int) as char
  }

  /** The decimal digits of `n`, most significant first, without leading zeros. */
  function Decimal(n: nat): (r: string)
    ensures |r| >= 1
    ensures forall c :: c in r ==> '0' <= c <= '9'
    ensures forall i :: 0 <= i < |r| ==> IsDigit(r[i])
    ensures r[0] == '0' ==> n == 0
    decreases n
  {
    if n < 10 then [DigitChar(n)] else Decimal(n / 10) + [DigitChar(n % 10)]
  }

  /** `String(n)` for an integer `n`: its decimal digits, after "-" when negative. */
  function NumberToString(n: int): (r: string)
    ensures |r| >= 1
    ensures forall c :: c in r ==> ('0' <= c <= '9') || c == '-'
    ensures '$' !in r
  {
    if n < 0 then "-" + Decimal(-n) else Decimal(n)
  }

  predicate IsDigit(c: char) { '0' <= c <= '9' }

  /**
   * The value of `c` as a digit of a base up to 36: "0".."9" count from 0,
   * letters of either case from 10; any other character gets 36, a digit of
   * no base.
   */
  function DigitOf(c: char): (d: nat)
    ensures d <= 36
    ensures d < 10 <==> IsDigit(c)
    ensures IsDigit(c) ==> d == c as int - '0' as int
  {
    if '0' <= c <= '9' then c as int - '0' as int
    else if 'a' <= c <= 'z' then c as int - 'a' as int + 10
    else if 'A' <= c <= 'Z' then c as int - 'A' as int + 10
    else 36
  }

  predicate IsDigitIn(c: char, radix: nat) { DigitOf(c) < radix }

  /** How many digits of base `radix` `s` starts with. */
  function LeadingDigits(s: string, radix: nat): (k: nat)
    ensures k <= |s|
    ensures forall i :: 0 <= i < k ==> IsDigitIn(s[i], radix)
    ensures k < |s| ==> !IsDigitIn(s[k], radix)
  {
    if |s| == 0 || !IsDigitIn(s[0], radix) then 0 else 1 + LeadingDigits(s[1..], radix)
  }

  /** The value of a string of digits of base `radix`, most significant first. */
  function DigitsValue(s: string, radix: nat): nat
    requires forall i :: 0 <= i < |s| ==> IsDigitIn(s[i], radix)
  {
    if |s| == 0 then 0
    else
      var high := DigitsValue(s[..|s| - 1], radix);
      MulNonNegative(high, radix);
      high * radix + DigitOf(s[|s| - 1])
  }

  lemma MulNonNegative(a: nat, b: nat)
    ensures a * b >= 0
  {
  }

  /**
   * The white space `parseInt` skips: the ECMAScript WhiteSpace characters
   * (tab, vertical tab, form feed, space, no-break space, the byte order mark
   * and the other space separators) and the line terminators.
   */
  predicate IsSpace(c: char) {
    c == '\t' || c == '\U{0B}' || c == '\U{0C}' || c == ' ' || c == '\U{A0}' || c == '\U{FEFF}'
    || c == '\U{1680}' || ('\U{2000}' <= c <= '\U{200A}') || c == '\U{202F}' || c == '\U{205F}' || c == '\U{3000}'
    || c == '\n' || c == '\r' || c == '\U{2028}' || c == '\U{2029}'
  }

  /** How many white-space characters `s` starts with. */
  function LeadingSpace(s: string): (k: nat)
    ensures k <= |s|
    ensures forall i :: 0 <= i < k ==> IsSpace(s[i])
    ensures k < |s| ==> !IsSpace(s[k])
  {
    if |s| == 0 || !IsSpace(s[0]) then 0 else 1 + LeadingSpace(s[1..])
  }

  predicate HexPrefixed(u: string) { |u| >= 2 && u[0] == '0' && (u[1] == 'x' || u[1] == 'X') }

  /**
   * `u` starts with a numeral `parseInt` accepts after the sign: a decimal
   * digit, or "0x" or "0X" followed by a hexadecimal digit.
   */
  predicate StartsWithNumeral(u: string) {
    if HexPrefixed(u) then |u| > 2 && IsDigitIn(u[2], 16) else |u| > 0 && IsDigit(u[0])
  }

  /** The value of the longest numeral at the start of `u`. */
  function NumeralValue(u: string): nat
    requires StartsWithNumeral(u)
  {
    if HexPrefixed(u) then
      var h := u[2..];
      DigitsValue(h[..LeadingDigits(h, 16)], 16)
    else
      DigitsValue(u[..LeadingDigits(u, 10)], 10)
  }

  /**
   * What `parseInt` reads once the white space is skipped: one optional sign,
   * then base 16 after "0x" or "0X" and base 10 otherwise, and the longest run
   * of digits of that base; `None` (NaN) when the run is empty.
   */
  function ParseSigned(t: string): (r: Option<int>)
    ensures r.Some? <==> StartsWithNumeral(t) || (|t| > 0 && (t[0] == '-' || t[0] == '+') && StartsWithNumeral(t[1..]))
    ensures StartsWithNumeral(t) ==> r == Some(NumeralValue(t))
    ensures |t| > 0 && t[0] == '+' && StartsWithNumeral(t[1..]) ==> r == Some(NumeralValue(t[1..]))
    ensures |t| > 0 && t[0] == '-' && StartsWithNumeral(t[1..]) ==> r == Some(-(NumeralValue(t[1..]) as int))
  {
    var negative := |t| > 0 && t[0] == '-';
    var u := if |t| > 0 && (t[0] == '-' || t[0] == '+') then t[1..] else t;
    var radix := if HexPrefixed(u) then 16 else 10;
    var d := if radix == 16 then u[2..] else u;
    var k := LeadingDigits(d, radix);
    if k == 0 then None
    else if negative then Some(-(DigitsValue(d[..k], radix) as int))
    else Some(DigitsValue(d[..k], radix))
  }

  /** `parseInt(s)` with no radix: leading white space is skipped, then the number is read. */
  function ParseInt(s: string): (r: Option<int>)
    ensures var t := s[LeadingSpace(s)..];
            r.Some? <==> StartsWithNumeral(t) || (|t| > 0 && (t[0] == '-' || t[0] == '+') && StartsWithNumeral(t[1..]))
    ensures var t := s[LeadingSpace(s)..];
            StartsWithNumeral(t) ==> r == Some(NumeralValue(t))
    ensures var t := s[LeadingSpace(s)..];
            |t| > 0 && t[0] == '+' && StartsWithNumeral(t[1..]) ==> r == Some(NumeralValue(t[1..]))
    ensures var t := s[LeadingSpace(s)..];
            |t| > 0 && t[0] == '-' && StartsWithNumeral(t[1..]) ==> r == Some(-(NumeralValue(t[1..]) as int))
  {
    ParseSigned(s[LeadingSpace(s)..])
  }

  lemma {:induction false} LeadingSpaceAppend(w: string, s: string)
    requires forall c :: c in w ==> IsSpace(c)
    ensures LeadingSpace(w + s) == |w| + LeadingSpace(s)
    decreases |w|
  {
    if |w| == 0 {
      assert w + s == s;
    } else {
      assert w[0] in w && (w + s)[0] == w[0];
      assert (w + s)[1..] == w[1..] + s;
      assert forall c :: c in w[1..] ==> c in w;
      LeadingSpaceAppend(w[1..], s);
    }
  }

  /** White space before the number changes nothing. */
  lemma ParseIntSkipsSpace(w: string, s: string)
    requires forall c :: c in w ==> IsSpace(c)
    ensures ParseInt(w + s) == ParseInt(s)
  {
    LeadingSpaceAppend(w, s);
    assert (w + s)[LeadingSpace(w + s)..] == s[LeadingSpace(s)..];
  }

  lemma {:induction false} DecimalValue(n: nat)
    ensures DigitsValue(Decimal(n), 10) == n
    decreases n
  {
    if n >= 10 {
      var d := Decimal(n / 10) + [DigitChar(n % 10)];
      DecimalValue(n / 10);
      assert d[..|d| - 1] == Decimal(n / 10);
    }
  }

  lemma AllDigitsLead(s: string, radix: nat)
    requires forall i :: 0 <= i < |s| ==> IsDigitIn(s[i], radix)
    ensures LeadingDigits(s, radix) == |s|
  {
    if |s| > 0 {
      AllDigitsLead(s[1..], radix);
    }
  }

  /** The numeral `Decimal` writes is read whole. */
  lemma DecimalIsNumeral(n: nat)
    ensures StartsWithNumeral(Decimal(n)) && NumeralValue(Decimal(n)) == n
  {
    var d := Decimal(n);
    assert !HexPrefixed(d) by {
      if |d| >= 2 { assert d[1] in d; }
    }
    assert d[0] in d;
    AllDigitsLead(d, 10);
    assert d[..|d|] == d;
    DecimalValue(n);
  }

  /** Text that starts with a digit or a minus sign has no white space to skip. */
  lemma NothingToSkip(t: string)
    requires |t| > 0 && (IsDigit(t[0]) || t[0] == '-')
    ensures ParseInt(t) == ParseSigned(t)
  {
    assert !IsSpace(t[0]);
    assert t[0..] == t;
  }

  lemma DecimalReadsBack(n: nat)
    ensures ParseSigned(Decimal(n)) == Some(n)
  {
    DecimalIsNumeral(n);
  }

  lemma NegatedDecimalReadsBack(m: nat)
    ensures ParseSigned("-" + Decimal(m)) == Some(-(m as int))
  {
    var text := "-" + Decimal(m);
    DecimalIsNumeral(m);
    assert text[1..] == Decimal(m);
    assert !HexPrefixed(text) && !IsDigit(text[0]);
  }

  /** The server's `parseInt` reads back every integer `String` wrote. */
  lemma ParseIntReadsNumber(n: int)
    ensures ParseInt(NumberToString(n)) == Some(n)
  {
    var text := NumberToString(n);
    if n < 0 {
      NegatedDecimalReadsBack(-n);
      assert text == "-" + Decimal(-n) && text[0] == '-';
    } else {
      DecimalReadsBack(n);
      assert text == Decimal(n) && IsDigit(text[0]);
    }
    NothingToSkip(text);
  }

  /** A hexadecimal id is read in base 16. */
  lemma ParseIntHex()
    ensures ParseInt("0x1A") == Some(26)
  {
    var s := "0x1A";
    assert LeadingSpace(s) == 0 && s[0..] == s;
    var h := s[2..];
    assert h == "1A" && h[1..] == "A" && h[1..][1..] == "";
    assert LeadingDigits(h, 16) == 2 && h[..2] == h;
    assert h[..1] == "1" && "1"[..0] == "";
    assert DigitsValue(h, 16) == 26;
  }

  /** White space before an id is skipped. */
  lemma ParseIntAfterSpace()
    ensures ParseInt(" 7") == Some(7)
  {
  }

  /** Reading stops at the first character that is not a digit. */
  lemma ParseIntStopsAtLetter()
    ensures ParseInt("12abc") == Some(12)
  {
    var s := "12abc";
    assert LeadingSpace(s) == 0 && s[0..] == s;
    assert s[1..] == "2abc" && s[1..][1..] == "abc";
    assert LeadingDigits(s, 10) == 2 && s[..2] == "12";
    assert "12"[..1] == "1" && "1"[..0] == "";
    assert DigitsValue("12", 10) == 12;
  }

  /** An id without a leading digit is NaN. */
  lemma ParseIntNoDigit()
    ensures ParseInt("abc") == None
  {
  }
}
