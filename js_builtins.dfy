/**
 * Models of the few JavaScript built-ins the two pages lean on:
 * `Array.prototype.find`/`findIndex`, `String.prototype.toLowerCase`,
 * `String.prototype.includes` and the global `parseFloat`.
 */
module JsBuiltins {

  /** A value that may be missing (JavaScript's `undefined`/`null`, or the empty form field). */
  datatype Option<T> = None | Some(value: T) {
    function GetOr(default: T): T {
      if Some? then value else default
    }
  }

  // ---------------------------------------------------------------------------
  // Array.prototype.findIndex / find
  // ---------------------------------------------------------------------------

  /** The first index whose element satisfies `p`, or None when no element does. */
  function FindIndex<T>(s: seq<T>, p: T -> bool): (r: Option<nat>)
    ensures r.Some? ==> r.value < |s| && p(s[r.value])
    ensures r.Some? ==> forall j :: 0 <= j < r.value ==> !p(s[j])
    ensures r.None? <==> forall j :: 0 <= j < |s| ==> !p(s[j])
  {
    if s == [] then None
    else if p(s[0]) then Some(0)
    else
      match FindIndex(s[1..], p)
      case None =>
        assert forall j :: 1 <= j < |s| ==> s[j] == s[1..][j - 1];
        None
      case Some(i) =>
        assert forall j :: 1 <= j < i + 1 ==> s[j] == s[1..][j - 1];
        Some(i + 1)
  }

  /** `s.find(p)`: the first element satisfying `p`. */
  function Find<T>(s: seq<T>, p: T -> bool): (r: Option<T>)
    ensures r.Some? ==> exists i :: 0 <= i < |s| && s[i] == r.value && p(s[i]) && forall j :: 0 <= j < i ==> !p(s[j])
    ensures r.None? <==> forall j :: 0 <= j < |s| ==> !p(s[j])
  {
    match FindIndex(s, p)
    case None => None
    case Some(i) => Some(s[i])
  }

  // ---------------------------------------------------------------------------
  // String.prototype.toLowerCase and case-insensitive comparison
  // ---------------------------------------------------------------------------

  /** Lower-case mapping of one character (the ASCII letters; every other character is kept). */
  function LowerChar(c: char): char {
    if 'A' <= c <= 'Z' then (c as int + 32) as char else c
  }

  /** `s.toLowerCase()`: the string with every character lower-cased, same length. */
  function Lower(s: string): (r: string)
    ensures |r| == |s|
    ensures forall i :: 0 <= i < |s| ==> r[i] == LowerChar(s[i])
  {
    if s == [] then [] else [LowerChar(s[0])] + Lower(s[1..])
  }

  /** Lower-casing twice changes nothing more than lower-casing once. */
  lemma LowerIdempotent(s: string)
    ensures Lower(Lower(s)) == Lower(s)
  {
  }

  /** Lower-casing a prefix gives the prefix of the lower-cased string. */
  lemma LowerPrefix(s: string, n: nat)
    requires n <= |s|
    ensures Lower(s)[..n] == Lower(s[..n])
  {
  }

  /** `a.toLowerCase() === b.toLowerCase()`. */
  predicate SameText(a: string, b: string) {
    Lower(a) == Lower(b)
  }

  // ---------------------------------------------------------------------------
  // String.prototype.includes
  // ---------------------------------------------------------------------------

  /** `t` occurs in `s` starting at index `i`. */
  predicate OccursAt(s: string, t: string, i: int) {
    0 <= i && i + |t| <= |s| && s[i..i + |t|] == t
  }

  /** `s.includes(t)`: `t` occurs somewhere in `s` (the empty string occurs everywhere). */
  function Includes(s: string, t: string): (b: bool)
    ensures b <==> exists i :: OccursAt(s, t, i)
  {
    if |t| <= |s| && s[..|t|] == t then
      assert OccursAt(s, t, 0);
      true
    else if s == [] then
      assert forall i :: !OccursAt(s, t, i);
      false
    else
      var rest := Includes(s[1..], t);
      assert forall i :: 1 <= i ==> (OccursAt(s, t, i) <==> OccursAt(s[1..], t, i - 1));
      assert rest ==> exists i :: OccursAt(s[1..], t, i) && OccursAt(s, t, i + 1);
      assert !OccursAt(s, t, 0);
      rest
  }

  // ---------------------------------------------------------------------------
  // parseFloat
  // ---------------------------------------------------------------------------

  predicate IsDigit(c: char) {
    '0' <= c <= '9'
  }

  /**
   * The white-space characters `parseFloat` skips before the number: the
   * ECMAScript WhiteSpace and LineTerminator characters, including the
   * Unicode space separators.
   */
  predicate IsSpace(c: char) {
    c == ' ' || c == '\t' || c == '\n' || c == '\r' || c == '\U{B}' || c == '\U{C}' || c == '\U{A0}' || c == '\U{FEFF}'
    || c == '\U{1680}' || ('\U{2000}' <= c <= '\U{200A}') || c == '\U{2028}' || c == '\U{2029}'
    || c == '\U{202F}' || c == '\U{205F}' || c == '\U{3000}'
  }

  function SkipSpace(s: string): (r: string)
    ensures |r| <= |s| && r == s[|s| - |r|..]
    ensures r == [] || !IsSpace(r[0])
  {
    if s != [] && IsSpace(s[0]) then SkipSpace(s[1..]) else s
  }

  /** The longest prefix of `s` made of decimal digits. */
  function LeadingDigits(s: string): (ds: string)
    ensures |ds| <= |s| && ds == s[..|ds|]
    ensures forall i :: 0 <= i < |ds| ==> IsDigit(ds[i])
    ensures |ds| < |s| ==> !IsDigit(s[|ds|])
  {
    if s != [] && IsDigit(s[0]) then [s[0]] + LeadingDigits(s[1..]) else []
  }

  function DigitValue(c: char): nat
    requires IsDigit(c)
  {
    c as int - '0' as int
  }

  /** The number a string of decimal digits denotes (most significant digit first). */
  function DigitsValue(ds: string): nat
    requires forall i :: 0 <= i < |ds| ==> IsDigit(ds[i])
  {
    if ds == [] then 0 else DigitsValue(ds[..|ds| - 1]) * 10 + DigitValue(ds[|ds| - 1])
  }

  /** A string made only of digits is its own longest digit prefix. */
  lemma {:induction false} LeadingDigitsOfDigits(ds: string)
    requires forall i :: 0 <= i < |ds| ==> IsDigit(ds[i])
    ensures LeadingDigits(ds) == ds
  {
    if ds != [] {
      LeadingDigitsOfDigits(ds[1..]);
    }
  }

  /** Digits followed by a non-digit (or by nothing): the digit prefix is exactly those digits. */
  lemma {:induction false} LeadingDigitsThen(ds: string, tail: string)
    requires forall i :: 0 <= i < |ds| ==> IsDigit(ds[i])
    requires tail == [] || !IsDigit(tail[0])
    ensures LeadingDigits(ds + tail) == ds
  {
    if ds == [] {
      assert ds + tail == tail;
    } else {
      assert (ds + tail)[0] == ds[0];
      assert (ds + tail)[1..] == ds[1..] + tail;
      LeadingDigitsThen(ds[1..], tail);
    }
  }

  function Pow10(n: nat): (r: nat)
    ensures r >= 1
  {
    if n == 0 then 1 else 10 * Pow10(n - 1)
  }

  /** 10 raised to an integer power, as a real. */
  function Scale(e: int): (r: real)
    ensures r > 0.0
  {
    if e >= 0 then Pow10(e) as real else 1.0 / (Pow10(-e) as real)
  }

  /**
   * The exponent of an `e`/`E` suffix (`e5`, `E-2`, `e+3`), or 0 when `s` does
   * not start with a complete one (a bare `e` is not part of the number).
   */
  function Exponent(s: string): int {
    if s == [] || (s[0] != 'e' && s[0] != 'E') then 0
    else
      var signed := |s| > 1 && (s[1] == '+' || s[1] == '-');
      var ds := LeadingDigits(if signed then s[2..] else s[1..]);
      if ds == [] then 0
      else if signed && s[1] == '-' then -(DigitsValue(ds) as int)
      else DigitsValue(ds)
  }

  /** The fraction digits after a leading `.`, if `s` starts with one. */
  function FractionDigits(s: string): (ds: string)
    ensures forall i :: 0 <= i < |ds| ==> IsDigit(ds[i])
    ensures ds != [] ==> 1 + |ds| <= |s| && s[0] == '.'
  {
    if s != [] && s[0] == '.' then LeadingDigits(s[1..]) else []
  }

  /** The value of `whole.fraction`, scaled by `10^exponent`. */
  function DecimalValue(whole: string, fraction: string, exponent: int): real
    requires forall i :: 0 <= i < |whole| ==> IsDigit(whole[i])
    requires forall i :: 0 <= i < |fraction| ==> IsDigit(fraction[i])
  {
    (DigitsValue(whole) as real + DigitsValue(fraction) as real / Pow10(|fraction|) as real) * Scale(exponent)
  }

  /**
   * The longest unsigned decimal literal at the start of `u` (integer digits,
   * an optional fraction, an optional exponent); None when there is not one
   * digit before or after the point.
   */
  function UnsignedPrefix(u: string): (r: Option<real>)
    ensures r.None? <==> LeadingDigits(u) == [] && FractionDigits(u) == []
  {
    var whole := LeadingDigits(u);
    var afterWhole := u[|whole|..];
    var fraction := FractionDigits(afterWhole);
    if whole == [] && fraction == [] then None
    else
      var afterFraction := if afterWhole != [] && afterWhole[0] == '.' then afterWhole[1 + |fraction|..] else afterWhole;
      Some(DecimalValue(whole, fraction, Exponent(afterFraction)))
  }

  /**
   * `parseFloat(s)`: skip leading white space, read an optional sign and the
   * longest decimal literal prefix, ignore the rest. None stands for NaN.
   */
  function ParseFloat(s: string): (r: Option<real>)
    ensures r.None? <==> UnsignedPrefix(Unsigned(SkipSpace(s))).None?
  {
    var t := SkipSpace(s);
    match UnsignedPrefix(Unsigned(t))
    case None => None
    case Some(m) => Some(if t != [] && t[0] == '-' then -m else m)
  }

  /** The text after an optional leading sign. */
  function Unsigned(t: string): string {
    if t != [] && (t[0] == '+' || t[0] == '-') then t[1..] else t
  }

  /** `parseFloat(s) || 0`: NaN (and zero) become 0. */
  function ParsedOrZero(s: string): real {
    ParseFloat(s).GetOr(0.0)
  }

  /** The unsigned literal from its stages: the whole digits, the text after them, the fraction digits and the text after the fraction. */
  lemma UnsignedFromStages(u: string, w: string, a: string, f: string, t: string)
    requires LeadingDigits(u) == w && u[|w|..] == a && FractionDigits(a) == f
    requires w != [] || f != []
    requires t == if a != [] && a[0] == '.' then a[1 + |f|..] else a
    ensures UnsignedPrefix(u) == Some(DecimalValue(w, f, Exponent(t)))
  {
    assert UnsignedPrefix(u).Some? && UnsignedPrefix(u).value == DecimalValue(w, f, Exponent(t));
  }

  /** Dropping a prefix from a concatenation leaves the second part. */
  lemma DropFront(w: string, a: string)
    ensures (w + a)[|w|..] == a
  {
  }

  /** Dropping `.f` from `.f` followed by `tail` leaves `tail`. */
  lemma DropFraction(f: string, tail: string)
    ensures (['.'] + (f + tail))[1 + |f|..] == tail
  {
    assert (['.'] + (f + tail))[1 + |f|..] == (f + tail)[|f|..];
  }

  /** The fraction digits of `.f` followed by a non-digit are `f`. */
  lemma FractionThen(f: string, tail: string)
    requires forall i :: 0 <= i < |f| ==> IsDigit(f[i])
    requires tail == [] || !IsDigit(tail[0])
    ensures FractionDigits(['.'] + (f + tail)) == f
  {
    TailOfCons('.', f + tail);
    LeadingDigitsThen(f, tail);
  }

  /** The grouping of the parts of a fixed-point literal does not matter. */
  lemma PointGrouping(w: string, f: string, tail: string)
    ensures w + "." + f + tail == w + (['.'] + (f + tail))
  {
  }

  /** `w.f` followed by text that cannot continue the fraction: the literal is `w.f` with the exponent that text starts with. */
  lemma UnsignedPoint(w: string, f: string, tail: string)
    requires w != []
    requires forall i :: 0 <= i < |w| ==> IsDigit(w[i])
    requires forall i :: 0 <= i < |f| ==> IsDigit(f[i])
    requires tail == [] || !IsDigit(tail[0])
    ensures UnsignedPrefix(w + "." + f + tail) == Some(DecimalValue(w, f, Exponent(tail)))
  {
    var a := ['.'] + (f + tail);
    PointGrouping(w, f, tail);
    TailOfCons('.', f + tail);
    LeadingDigitsThen(w, a);
    DropFront(w, a);
    FractionThen(f, tail);
    DropFraction(f, tail);
    UnsignedFromStages(w + a, w, a, f, tail);
  }

  /** White space is skipped only at the front: text that starts with something else is kept whole. */
  lemma SkipSpaceStops(s: string)
    requires s != [] && !IsSpace(s[0])
    ensures SkipSpace(s) == s
  {
  }

  /** A leading minus sign is taken off before the literal is read. */
  lemma UnsignedAfterSign(c: char, u: string)
    requires c == '-' || c == '+'
    ensures Unsigned([c] + u) == u
  {
    assert ([c] + u)[1..] == u;
  }

  /** Text that starts with a digit has no sign to take off. */
  lemma UnsignedStopsAtDigit(u: string)
    requires u != [] && IsDigit(u[0])
    ensures Unsigned(u) == u
  {
  }

  /** `parseFloat` from its stages: the sign read off the text, the value from the unsigned literal. */
  lemma ParseFromStages(s: string, u: string, m: real)
    requires SkipSpace(s) == s && Unsigned(s) == u && UnsignedPrefix(u) == Some(m)
    ensures ParseFloat(s) == Some(if s != [] && s[0] == '-' then -m else m)
  {
    assert ParseFloat(s).Some? && ParseFloat(s).value == if s != [] && s[0] == '-' then -m else m;
  }

  /** A literal that starts with a digit parses to the value of its longest literal prefix. */
  lemma ParseUnsigned(u: string, m: real)
    requires u != [] && IsDigit(u[0])
    requires UnsignedPrefix(u) == Some(m)
    ensures ParseFloat(u) == Some(m)
  {
    SkipSpaceStops(u);
    UnsignedStopsAtDigit(u);
    ParseFromStages(u, u, m);
  }

  /** Text that starts with a digit always parses to a number. */
  lemma ParseDigitLed(u: string)
    requires u != [] && IsDigit(u[0])
    ensures ParseFloat(u).Some?
  {
    SkipSpaceStops(u);
    UnsignedStopsAtDigit(u);
    assert LeadingDigits(u) != [];
  }

  /** A minus sign before a literal that starts with a digit negates its value. */
  lemma ParseNegative(u: string, m: real)
    requires u != [] && IsDigit(u[0])
    requires UnsignedPrefix(u) == Some(m)
    ensures ParseFloat(['-'] + u) == Some(-m)
  {
    SkipSpaceStops(['-'] + u);
    UnsignedAfterSign('-', u);
    ParseFromStages(['-'] + u, u, m);
  }

  /** The rest of a text after its first character. */
  lemma TailOfCons(c: char, t: string)
    ensures ([c] + t)[1..] == t && ([c] + t)[0] == c
  {
  }

  /** The second character of `c` before `x + rest` is the first of `x`. */
  lemma SecondOfCons(c: char, x: string, rest: string)
    requires x != []
    ensures |[c] + (x + rest)| > 1 && ([c] + (x + rest))[1] == x[0]
  {
  }

  /** The exponent from its stages: an `e`, no sign, and the digits after it. */
  lemma ExponentFromStages(s: string, x: string)
    requires |s| > 1 && s[0] == 'e' && IsDigit(s[1])
    requires LeadingDigits(s[1..]) == x
    ensures Exponent(s) == DigitsValue(x)
  {
  }

  /** The exponent of `e<x>` followed by a non-digit. */
  lemma ExponentPlain(x: string, rest: string)
    requires x != []
    requires forall i :: 0 <= i < |x| ==> IsDigit(x[i])
    requires rest == [] || !IsDigit(rest[0])
    ensures Exponent(['e'] + (x + rest)) == DigitsValue(x)
  {
    TailOfCons('e', x + rest);
    SecondOfCons('e', x, rest);
    LeadingDigitsThen(x, rest);
    ExponentFromStages(['e'] + (x + rest), x);
  }

  /** The exponent from its stages: an `e`, a minus sign, and the digits after them. */
  lemma NegativeExponentFromStages(s: string, x: string)
    requires |s| > 2 && s[0] == 'e' && s[1] == '-'
    requires LeadingDigits(s[2..]) == x && x != []
    ensures Exponent(s) == -(DigitsValue(x) as int)
  {
  }

  /** The text after the first two characters of `c` and `d` before `t`. */
  lemma DropTwo(c: char, d: char, t: string)
    ensures |[c] + ([d] + t)| == |t| + 2
    ensures ([c] + ([d] + t))[2..] == t && ([c] + ([d] + t))[0] == c && ([c] + ([d] + t))[1] == d
  {
    assert ([c] + ([d] + t))[2..] == ([d] + t)[1..];
  }

  /** The exponent of `e-<x>` followed by a non-digit. */
  lemma ExponentNegative(x: string, rest: string)
    requires x != []
    requires forall i :: 0 <= i < |x| ==> IsDigit(x[i])
    requires rest == [] || !IsDigit(rest[0])
    ensures Exponent(['e'] + (['-'] + (x + rest))) == -(DigitsValue(x) as int)
  {
    DropTwo('e', '-', x + rest);
    LeadingDigitsThen(x, rest);
    NegativeExponentFromStages(['e'] + (['-'] + (x + rest)), x);
  }

  /** A fixed-point literal `w.f`, followed by text that cannot continue it, is read as `w.f`. */
  lemma PointLiteral(w: string, f: string, rest: string)
    requires w != []
    requires forall i :: 0 <= i < |w| ==> IsDigit(w[i])
    requires forall i :: 0 <= i < |f| ==> IsDigit(f[i])
    requires rest == [] || (!IsDigit(rest[0]) && rest[0] != 'e' && rest[0] != 'E')
    ensures w + "." + f + rest != [] && IsDigit((w + "." + f + rest)[0])
    ensures UnsignedPrefix(w + "." + f + rest) == Some(DecimalValue(w, f, 0))
  {
    UnsignedPoint(w, f, rest);
    assert Exponent(rest) == 0;
    assert (w + "." + f + rest)[0] == w[0];
  }

  /** A fixed-point literal `w.f`, followed by text that cannot continue it, parses to its value. */
  lemma ParseFixedPoint(w: string, f: string, rest: string)
    requires w != []
    requires forall i :: 0 <= i < |w| ==> IsDigit(w[i])
    requires forall i :: 0 <= i < |f| ==> IsDigit(f[i])
    requires rest == [] || (!IsDigit(rest[0]) && rest[0] != 'e' && rest[0] != 'E')
    ensures ParseFloat(w + "." + f + rest) == Some(DecimalValue(w, f, 0))
  {
    PointLiteral(w, f, rest);
    ParseUnsigned(w + "." + f + rest, DecimalValue(w, f, 0));
  }

  /** A literal `w.f` followed by an exponent part `e` parses to `w.f` scaled by that exponent. */
  lemma ParseWithExponent(w: string, f: string, e: string, n: int)
    requires w != []
    requires forall i :: 0 <= i < |w| ==> IsDigit(w[i])
    requires forall i :: 0 <= i < |f| ==> IsDigit(f[i])
    requires e != [] && !IsDigit(e[0]) && Exponent(e) == n
    ensures ParseFloat(w + "." + f + e) == Some(DecimalValue(w, f, n))
  {
    UnsignedPoint(w, f, e);
    assert (w + "." + f + e)[0] == w[0];
    ParseUnsigned(w + "." + f + e, DecimalValue(w, f, n));
  }

  /** A literal `w.f` with an exponent `e<x>`, followed by a non-digit, parses to `w.f` times `10^x`. */
  lemma ParseScientific(w: string, f: string, x: string, rest: string)
    requires w != [] && x != []
    requires forall i :: 0 <= i < |w| ==> IsDigit(w[i])
    requires forall i :: 0 <= i < |f| ==> IsDigit(f[i])
    requires forall i :: 0 <= i < |x| ==> IsDigit(x[i])
    requires rest == [] || !IsDigit(rest[0])
    ensures ParseFloat(w + "." + f + (['e'] + (x + rest))) == Some(DecimalValue(w, f, DigitsValue(x)))
  {
    ExponentPlain(x, rest);
    ParseWithExponent(w, f, ['e'] + (x + rest), DigitsValue(x));
  }

  /** A plain run of digits is read as the number it denotes. */
  lemma DigitsLiteral(ds: string)
    requires ds != []
    requires forall i :: 0 <= i < |ds| ==> IsDigit(ds[i])
    ensures UnsignedPrefix(ds) == Some(DigitsValue(ds) as real)
  {
    LeadingDigitsOfDigits(ds);
    DropFront(ds, []);
    assert ds + [] == ds;
    assert FractionDigits([]) == [];
    UnsignedFromStages(ds, ds, [], [], []);
    WholeValue(ds);
  }

  /** A number with no fraction digits and no exponent is its whole part. */
  lemma WholeValue(ds: string)
    requires forall i :: 0 <= i < |ds| ==> IsDigit(ds[i])
    ensures DecimalValue(ds, [], Exponent([])) == DigitsValue(ds) as real
  {
    assert DigitsValue([]) == 0 && Pow10(0) == 1 && Scale(0) == 1.0 && Exponent([]) == 0;
  }

  /** A plain run of digits parses to the number it denotes. */
  lemma ParseDigits(ds: string)
    requires ds != []
    requires forall i :: 0 <= i < |ds| ==> IsDigit(ds[i])
    ensures ParseFloat(ds) == Some(DigitsValue(ds) as real)
  {
    DigitsLiteral(ds);
    ParseUnsigned(ds, DigitsValue(ds) as real);
  }

  /** A single digit parses to its value. */
  lemma ParseSingleDigit(c: char)
    requires IsDigit(c)
    ensures ParseFloat([c]) == Some(DigitValue(c) as real)
  {
    ParseDigits([c]);
    assert [c][..0] == [];
    assert DigitsValue([c]) == DigitValue(c);
  }

  /** The text "0" (the initial paid and pending fields) parses to 0. */
  lemma ParseZero()
    ensures ParseFloat("0") == Some(0.0)
  {
    ParseSingleDigit('0');
  }

  /** The empty field is NaN, so `parseFloat('') || 0` is 0. */
  lemma ParseEmpty()
    ensures ParseFloat("") == None
    ensures ParsedOrZero("") == 0.0
  {
    assert SkipSpace("") == "" && Unsigned("") == "";
    assert LeadingDigits("") == [] && FractionDigits("") == [];
  }
}
