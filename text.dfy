/** The string primitives of JavaScript that the migrations and the preview
    formatters use: `toLowerCase`, `includes`, `startsWith`, `replace` with a
    string pattern, `trim` and `Array.prototype.join`. */
module Text {

  datatype Option<+T> = None | Some(value: T)

  /** ASCII lower-casing of one character. */
  function LowerChar(c: char): char {
    if 'A' <= c <= 'Z' then (c as int + 32) as char else c
  }

  /** `s.toLowerCase()`, restricted to ASCII letters. */
  function Lower(s: string): (r: string)
    ensures |r| == |s|
    ensures forall i :: 0 <= i < |s| ==> r[i] == LowerChar(s[i])
  {
    if s == [] then [] else [LowerChar(s[0])] + Lower(s[1..])
  }

  lemma {:induction false} LowerConcat(a: string, b: string)
    ensures Lower(a + b) == Lower(a) + Lower(b)
  {
    var l, r := Lower(a + b), Lower(a) + Lower(b);
    assert |l| == |r|;
    forall i | 0 <= i < |l| ensures l[i] == r[i] {
      if i < |a| {
        assert (a + b)[i] == a[i];
      } else {
        assert (a + b)[i] == b[i - |a|];
      }
    }
  }

  /** `sub` occurs in `s` at index `i`. */
  predicate OccursAt(s: string, sub: string, i: nat) {
    i + |sub| <= |s| && s[i..i + |sub|] == sub
  }

  /** `s.includes(sub)`. */
  predicate Contains(s: string, sub: string) {
    exists i: nat | i <= |s| :: OccursAt(s, sub, i)
  }

  /** `s.startsWith(p)`. */
  predicate StartsWith(s: string, p: string) {
    |p| <= |s| && s[..|p|] == p
  }

  /** The index of the first occurrence of `pat` in `s` at or after `from`. */
  function IndexOfFrom(s: string, pat: string, from: nat): (r: Option<nat>)
    requires from <= |s|
    decreases |s| - from
    ensures r.Some? ==> from <= r.value && OccursAt(s, pat, r.value)
    ensures r.Some? ==> forall j: nat :: from <= j < r.value ==> !OccursAt(s, pat, j)
    ensures r.None? ==> forall j: nat :: from <= j ==> !OccursAt(s, pat, j)
  {
    if from + |pat| > |s| then None
    else if s[from..from + |pat|] == pat then Some(from)
    else IndexOfFrom(s, pat, from + 1)
  }

  /** `s.replace(pat, rep)` with a string pattern: only the first occurrence is replaced. */
  function ReplaceFirst(s: string, pat: string, rep: string): (r: string)
  {
    match IndexOfFrom(s, pat, 0)
    case None => s
    case Some(i) => s[..i] + rep + s[i + |pat|..]
  }

  /** Removing the pattern from a string that starts with it strips that prefix. */
  lemma StripLeadingPattern(s: string, pat: string)
    requires StartsWith(s, pat)
    ensures ReplaceFirst(s, pat, "") == s[|pat|..]
  {
    assert OccursAt(s, pat, 0);
  }

  /** A string without the pattern is left alone. */
  lemma ReplaceAbsent(s: string, pat: string, rep: string)
    requires !Contains(s, pat)
    ensures ReplaceFirst(s, pat, rep) == s
  {
    match IndexOfFrom(s, pat, 0)
    case None =>
    case Some(i) =>
      assert false;
  }

  /** The white space that `String.prototype.trim` and `parseInt` skip
      (the ASCII ones, no-break space and the byte-order mark). */
  predicate IsSpace(c: char) {
    c == ' ' || c == '\t' || c == '\n' || c == '\r' || c == '\U{000B}' || c == '\U{000C}'
    || c == '\U{00A0}' || c == '\U{FEFF}'
  }

  function TrimStart(s: string): (r: string)
    ensures |r| <= |s| && r == s[|s| - |r|..]
    ensures r == [] || !IsSpace(r[0])
    ensures forall i :: 0 <= i < |s| - |r| ==> IsSpace(s[i])
  {
    if s != [] && IsSpace(s[0]) then TrimStart(s[1..]) else s
  }

  function TrimEnd(s: string): (r: string)
    ensures |r| <= |s| && r == s[..|r|]
    ensures r == [] || !IsSpace(r[|r| - 1])
    ensures forall i :: |r| <= i < |s| ==> IsSpace(s[i])
  {
    if s != [] && IsSpace(s[|s| - 1]) then TrimEnd(s[..|s| - 1]) else s
  }

  /** `s.trim()`: the input without the white space at either end. */
  function Trim(s: string): (r: string)
    ensures r == [] || (!IsSpace(r[0]) && !IsSpace(r[|r| - 1]))
    ensures |r| <= |s|
    ensures exists i: nat | i + |r| <= |s| :: TrimmedAt(s, r, i)
  {
    var t := TrimStart(s);
    var i := |s| - |t|;
    assert TrimmedAt(s, TrimEnd(t), i);
    TrimEnd(t)
  }

  /** `r` is `s` with the `i` characters before it and all characters after
      it removed, every one of them white space. */
  predicate TrimmedAt(s: string, r: string, i: nat)
    requires i + |r| <= |s|
  {
    && r == s[i..i + |r|]
    && (forall j :: 0 <= j < i ==> IsSpace(s[j]))
    && (forall j :: i + |r| <= j < |s| ==> IsSpace(s[j]))
  }

  /** `s` has no white space at either end, so `trim` leaves it alone. */
  predicate Unpadded(s: string) {
    s == [] || (!IsSpace(s[0]) && !IsSpace(s[|s| - 1]))
  }

  lemma TrimUnpadded(s: string)
    requires Unpadded(s)
    ensures Trim(s) == s
  {
  }

  /** Leading white space of a concatenation comes from its first part
      unless that part is all white space. */
  lemma {:induction false} TrimStartConcat(s: string, t: string)
    ensures TrimStart(s + t) == if TrimStart(s) == [] then TrimStart(t) else TrimStart(s) + t
  {
    if s == [] {
      assert s + t == t;
    } else {
      assert (s + t)[0] == s[0];
      assert (s + t)[1..] == s[1..] + t;
      TrimStartConcat(s[1..], t);
    }
  }

  /** Trailing white space of a concatenation comes from its last part
      unless that part is all white space. */
  lemma {:induction false} TrimEndConcat(s: string, t: string)
    ensures TrimEnd(s + t) == if TrimEnd(t) == [] then TrimEnd(s) else s + TrimEnd(t)
    decreases |t|
  {
    if t == [] {
      assert s + t == s;
    } else {
      assert (s + t)[|s + t| - 1] == t[|t| - 1];
      assert (s + t)[..|s + t| - 1] == s + t[..|t| - 1];
      TrimEndConcat(s, t[..|t| - 1]);
    }
  }

  /** Trimming "s t": the leading white space comes off `s` and the trailing
      white space off `t`, unless one of them is all white space, in which
      case the result is the other one trimmed. */
  lemma TrimJoin(s: string, t: string)
    ensures TrimStart(s) != [] && TrimEnd(t) != [] ==> Trim(s + " " + t) == TrimStart(s) + " " + TrimEnd(t)
    ensures TrimStart(s) == [] ==> Trim(s + " " + t) == Trim(t)
    ensures TrimEnd(t) == [] ==> Trim(s + " " + t) == Trim(s)
  {
    TrimStartJoin(s, t);
    TrimEndJoin(TrimStart(s), t);
    if TrimEnd(t) == [] {
      AllSpaceStart(t);
    }
  }

  /** A string all of white space has nothing left after the leading trim. */
  lemma AllSpaceStart(t: string)
    requires TrimEnd(t) == []
    ensures TrimStart(t) == []
  {
  }

  lemma TrimStartJoin(s: string, t: string)
    ensures TrimStart(s) == [] ==> TrimStart(s + " " + t) == TrimStart(t)
    ensures TrimStart(s) != [] ==> TrimStart(s + " " + t) == TrimStart(s) + " " + t
  {
    var u := " " + t;
    assert s + " " + t == s + u;
    TrimStartConcat(s, u);
    if TrimStart(s) == [] {
      TrimStartSpace(t);
    } else {
      assert TrimStart(s) + u == TrimStart(s) + " " + t;
    }
  }

  /** A leading space is trimmed away. */
  lemma TrimStartSpace(t: string)
    ensures TrimStart(" " + t) == TrimStart(t)
  {
    var u := " " + t;
    assert IsSpace(u[0]) && u[1..] == t;
  }

  lemma TrimEndJoin(u: string, t: string)
    ensures TrimEnd(t) != [] ==> TrimEnd(u + " " + t) == u + " " + TrimEnd(t)
    ensures TrimEnd(t) == [] ==> TrimEnd(u + " " + t) == TrimEnd(u)
  {
    TrimEndConcat(u + " ", t);
    TrimEndConcat(u, " ");
    assert TrimEnd(" ") == [];
  }

  /** `parts.join(sep)`. */
  function Join(parts: seq<string>, sep: string): string {
    if parts == [] then ""
    else if |parts| == 1 then parts[0]
    else parts[0] + sep + Join(parts[1..], sep)
  }

  /** The decimal digit of value `d`. */
  function DigitChar(d: nat): (c: char)
    requires d < 10
    ensures IsDecimalDigit(c) && DecimalValue(c) == d
  {
    ('0' as int + d) as char
  }

  /** Decimal notation of a natural number, as `String(n)` writes it: decimal
      digits denoting `n`, with no leading zero. */
  function NatText(n: nat): (r: string)
    ensures |r| > 0
    ensures forall i :: 0 <= i < |r| ==> IsDecimalDigit(r[i])
    ensures DigitsValue(r, 10) == n
    ensures r[0] == '0' ==> r == "0"
    decreases n
  {
    if n < 10 then
      var r := [DigitChar(n)];
      assert r[..0] == [];
      r
    else
      var p := NatText(n / 10);
      var r := p + [DigitChar(n % 10)];
      assert r[..|r| - 1] == p;
      r
  }

  /** `String(n)` of an integer: a minus sign before a negative number's
      magnitude. */
  function IntText(n: int): (r: string)
    ensures n >= 0 ==> r == NatText(n)
    ensures n < 0 ==> r == "-" + NatText(-n)
  {
    if n < 0 then "-" + NatText(-n) else NatText(n)
  }

  /** The value of `c` as a digit in base 10 or 16. */
  function DigitValue(c: char, radix: nat): (r: Option<nat>)
    ensures r.Some? ==> r.value < radix || (radix < 10 && r.value < 10)
    ensures IsDecimalDigit(c) ==> r == Some(DecimalValue(c))
    ensures r.Some? <==> IsDecimalDigit(c) || (radix == 16 && IsHexLetter(c))
    ensures radix == 16 && 'a' <= c <= 'f' ==> r == Some(c as int - 'a' as int + 10)
    ensures radix == 16 && 'A' <= c <= 'F' ==> r == Some(c as int - 'A' as int + 10)
  {
    if '0' <= c <= '9' then Some(c as int - '0' as int)
    else if radix == 16 && 'a' <= c <= 'f' then Some(c as int - 'a' as int + 10)
    else if radix == 16 && 'A' <= c <= 'F' then Some(c as int - 'A' as int + 10)
    else None
  }

  /** The length of the longest prefix of `s` made of digits. */
  function DigitRun(s: string, radix: nat): (n: nat)
    ensures n <= |s|
    ensures forall i :: 0 <= i < n ==> DigitValue(s[i], radix).Some?
    ensures n < |s| ==> DigitValue(s[n], radix).None?
  {
    if s == [] || DigitValue(s[0], radix).None? then 0 else 1 + DigitRun(s[1..], radix)
  }

  /** The number a string of digits denotes, most significant digit first. */
  function DigitsValue(ds: string, radix: nat): nat
    requires forall i :: 0 <= i < |ds| ==> DigitValue(ds[i], radix).Some?
  {
    if ds == [] then 0
    else
      var init := ds[..|ds| - 1];
      assert forall i :: 0 <= i < |init| ==> init[i] == ds[i];
      DigitsValue(init, radix) * radix + DigitValue(ds[|ds| - 1], radix).value
  }

  /** `parseInt(s)` with no radix: leading white space and one sign are
      skipped, a `0x`/`0X` prefix selects base 16, and the longest run of
      digits is read; `None` is NaN (no digit at all). */
  function ParseInt(s: string): Option<int> {
    ParseSigned(TrimStart(s))
  }

  /** One optional sign, then the digits. */
  function ParseSigned(t: string): Option<int> {
    if |t| > 0 && (t[0] == '-' || t[0] == '+') then Signed(t[0] == '-', ReadPrefixed(t[1..]))
    else Signed(false, ReadPrefixed(t))
  }

  function Signed(negative: bool, r: Option<nat>): (v: Option<int>)
    ensures r.None? <==> v.None?
    ensures r.Some? && !negative ==> v == Some(r.value)
    ensures r.Some? && negative ==> v == Some(-(r.value as int))
  {
    match r
    case None => None
    case Some(n) => Some(if negative then -(n as int) else n)
  }

  /** Base 16 after a `0x`/`0X` prefix, base 10 otherwise. */
  function ReadPrefixed(u: string): Option<nat> {
    if |u| >= 2 && u[0] == '0' && (u[1] == 'x' || u[1] == 'X') then ReadDigits(u[2..], 16)
    else ReadDigits(u, 10)
  }

  /** The number denoted by the longest run of digits that starts `s`, if any. */
  function ReadDigits(s: string, radix: nat): Option<nat> {
    var n := DigitRun(s, radix);
    if n == 0 then None
    else
      assert forall i :: 0 <= i < n ==> s[..n][i] == s[i];
      Some(DigitsValue(s[..n], radix))
  }

  /** A letter that is a digit in base 16. */
  predicate IsHexLetter(c: char) {
    'a' <= c <= 'f' || 'A' <= c <= 'F'
  }

  predicate IsDecimalDigit(c: char) {
    '0' <= c <= '9'
  }

  /** The value of one decimal digit. */
  function DecimalValue(c: char): nat
    requires IsDecimalDigit(c)
  {
    c as int - '0' as int
  }

  /** A string that starts with two decimal digits has no sign, no white
      space and no `0x` prefix, so it is read in base 10 from its start. */
  lemma ParseUnsigned(s: string)
    requires |s| >= 2 && IsDecimalDigit(s[0]) && IsDecimalDigit(s[1])
    ensures ParseInt(s) == ReadDigits(s, 10)
  {
    NoLeadingSpace(s);
    UnsignedText(s);
    DecimalText(s);
  }

  lemma NoLeadingSpace(s: string)
    requires s != [] && IsDecimalDigit(s[0])
    ensures TrimStart(s) == s
  {
  }

  lemma UnsignedText(t: string)
    requires t != [] && t[0] != '-' && t[0] != '+'
    ensures ParseSigned(t) == Signed(false, ReadPrefixed(t))
  {
  }

  lemma DecimalText(u: string)
    requires |u| >= 2 && IsDecimalDigit(u[1])
    ensures ReadPrefixed(u) == ReadDigits(u, 10)
  {
  }

  lemma {:induction false} FourDigitRun(y: string)
    requires |y| == 4 && forall i :: 0 <= i < 4 ==> IsDecimalDigit(y[i])
    ensures DigitRun(y, 10) == 4
  {
    assert DigitRun(y[3..], 10) == 1 by { assert y[3..][1..] == []; }
    assert DigitRun(y[2..], 10) == 2 by { assert y[2..][1..] == y[3..]; }
    assert DigitRun(y[1..], 10) == 3 by { assert y[1..][1..] == y[2..]; }
  }

  lemma {:induction false} FourDigitsValue(y: string)
    requires |y| == 4 && forall i :: 0 <= i < 4 ==> IsDecimalDigit(y[i])
    ensures DigitsValue(y, 10) == 1000 * DecimalValue(y[0]) + 100 * DecimalValue(y[1])
                                  + 10 * DecimalValue(y[2]) + DecimalValue(y[3])
  {
    assert y[..3][..2] == y[..2];
    assert y[..2][..1] == y[..1];
    assert y[..1][..0] == [];
    assert DigitsValue(y[..1], 10) == DecimalValue(y[0]);
    assert DigitsValue(y[..2], 10) == 10 * DecimalValue(y[0]) + DecimalValue(y[1]);
    assert DigitsValue(y[..3], 10) == 100 * DecimalValue(y[0]) + 10 * DecimalValue(y[1]) + DecimalValue(y[2]);
  }

  /** Four decimal digits, as in the year of an ISO date, parse as that year. */
  lemma ParseFourDigits(y: string)
    requires |y| == 4 && forall i :: 0 <= i < 4 ==> IsDecimalDigit(y[i])
    ensures ParseInt(y) == Some(1000 * DecimalValue(y[0]) + 100 * DecimalValue(y[1])
                                + 10 * DecimalValue(y[2]) + DecimalValue(y[3]))
  {
    ParseUnsigned(y);
    ReadFourDigits(y);
  }

  lemma ReadFourDigits(y: string)
    requires |y| == 4 && forall i :: 0 <= i < 4 ==> IsDecimalDigit(y[i])
    ensures ReadDigits(y, 10) == Some(1000 * DecimalValue(y[0]) + 100 * DecimalValue(y[1])
                                      + 10 * DecimalValue(y[2]) + DecimalValue(y[3]))
  {
    FourDigitRun(y);
    assert y[..4] == y;
    FourDigitsValue(y);
  }

  /** A string whose first character, after white space, is neither a sign
      nor a digit parses as NaN. */
  lemma ParseNoDigits(s: string)
    requires s != [] && !IsSpace(s[0]) && s[0] != '-' && s[0] != '+' && !IsDecimalDigit(s[0])
    ensures ParseInt(s) == None
  {
  }
}
