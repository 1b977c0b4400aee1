/**
 * Helpers shared by every module of the model: an Option type, string
 * predicates with their JavaScript meaning (`startsWith`, `endsWith`,
 * `includes`, a case-insensitive regular-expression test on an ASCII
 * pattern), JavaScript's `parseInt`, integer printing and the lookup of a
 * decoded query string.
 */
module Common {

  datatype Option<+T> = None | Some(value: T)

  /** JavaScript's `s || fallback` for an optional string: absent and empty are falsy. */
  function OrElse(s: Option<string>, fallback: string): string
  {
    if s.Some? && s.value != "" then s.value else fallback
  }

  /** True for a present, non-empty string (JavaScript truthiness of a string). */
  predicate Truthy(s: Option<string>)
  {
    s.Some? && s.value != ""
  }

  // ---------------------------------------------------------------------
  // String predicates

  predicate StartsWith(s: string, prefix: string)
  {
    |prefix| <= |s| && s[..|prefix|] == prefix
  }

  predicate EndsWith(s: string, suffix: string)
  {
    |suffix| <= |s| && s[|s| - |suffix|..] == suffix
  }

  /** `s.includes(sub)`: some position of `s` starts with `sub`. */
  predicate Contains(s: string, sub: string)
    decreases |s|
  {
    StartsWith(s, sub) || (s != [] && Contains(s[1..], sub))
  }

  /** A string in which the character `c` does not occur contains no string that holds `c`. */
  lemma {:induction false} NotContainsChar(s: string, sub: string, c: char)
    requires c !in s && c in sub
    ensures !Contains(s, sub)
    decreases |s|
  {
    if |sub| <= |s| {
      var k :| 0 <= k < |sub| && sub[k] == c;
      assert s[..|sub|][k] == s[k] != c;
    }
    if s != [] {
      NotContainsChar(s[1..], sub, c);
    }
  }

  // ---------------------------------------------------------------------
  // ASCII character classes

  predicate IsUpper(c: char) { 'A' <= c <= 'Z' }
  predicate IsLower(c: char) { 'a' <= c <= 'z' }
  predicate IsLetter(c: char) { IsUpper(c) || IsLower(c) }
  predicate IsDigit(c: char) { '0' <= c <= '9' }

  function ToLower(c: char): char
  {
    if IsUpper(c) then (c as int + 32) as char else c
  }

  function ToUpper(c: char): char
  {
    if IsLower(c) then (c as int - 32) as char else c
  }

  function LowerString(s: string): (r: string)
    ensures |r| == |s|
    ensures forall i :: 0 <= i < |s| ==> r[i] == ToLower(s[i])
  {
    seq(|s|, i requires 0 <= i < |s| => ToLower(s[i]))
  }

  /**
   * `/pat/i.test(s)` for a pattern made of ASCII letters: JavaScript's
   * case-insensitive matching without the `u` flag never maps a
   * non-ASCII character onto an ASCII one, so folding ASCII letters is
   * exact. `lowerPat` is the pattern already in lower case.
   */
  predicate ContainsIgnoreCase(s: string, lowerPat: string)
  {
    Contains(LowerString(s), lowerPat)
  }

  // ---------------------------------------------------------------------
  // Integer printing (`n.toString()`)

  function DigitChar(d: nat): (c: char)
    requires d < 10
    ensures IsDigit(c)
  {
    ('0' as int + d) as char
  }

  function NatToString(n: nat): (r: string)
    ensures r != [] && forall i :: 0 <= i < |r| ==> IsDigit(r[i])
    decreases n
  {
    if n < 10 then [DigitChar(n)] else NatToString(n / 10) + [DigitChar(n % 10)]
  }

  function IntToString(i: int): string
  {
    if i < 0 then "-" + NatToString(-i) else NatToString(i)
  }

  // ---------------------------------------------------------------------
  // JavaScript parseInt

  /** The characters JavaScript's `parseInt` skips at the start (WhiteSpace and LineTerminator). */
  predicate IsJsSpace(c: char)
  {
    c == '\t' || c == '\n' || c == '\U{000B}' || c == '\U{000C}' || c == '\r' || c == ' '
    || c == '\U{00A0}' || c == '\U{1680}' || ('\U{2000}' <= c <= '\U{200A}')
    || c == '\U{2028}' || c == '\U{2029}' || c == '\U{202F}' || c == '\U{205F}'
    || c == '\U{3000}' || c == '\U{FEFF}'
  }

  function TrimStart(s: string): (r: string)
    ensures |r| <= |s| && r == s[|s| - |r|..]
    ensures r == [] || !IsJsSpace(r[0])
  {
    if s != [] && IsJsSpace(s[0]) then TrimStart(s[1..]) else s
  }

  /** The radix argument of `parseInt`: absent (decimal, or hexadecimal after `0x`) or 10. */
  datatype Radix = Auto | Ten

  function DigitValue(c: char, hex: bool): (v: int)
    ensures -1 <= v < (if hex then 16 else 10)
  {
    if IsDigit(c) then c as int - '0' as int
    else if hex && 'a' <= c <= 'f' then c as int - 'a' as int + 10
    else if hex && 'A' <= c <= 'F' then c as int - 'A' as int + 10
    else -1
  }

  /** The longest prefix of `s` made of digits of the radix. */
  function DigitRun(s: string, hex: bool): (r: string)
    ensures |r| <= |s| && r == s[..|r|]
    ensures forall i :: 0 <= i < |r| ==> DigitValue(r[i], hex) >= 0
    ensures |r| < |s| ==> DigitValue(s[|r|], hex) < 0
  {
    if s != [] && DigitValue(s[0], hex) >= 0 then [s[0]] + DigitRun(s[1..], hex) else []
  }

  function DigitsValue(ds: string, hex: bool): nat
    requires forall i :: 0 <= i < |ds| ==> DigitValue(ds[i], hex) >= 0
  {
    if ds == [] then 0
    else DigitsValue(ds[..|ds| - 1], hex) * (if hex then 16 else 10) + DigitValue(ds[|ds| - 1], hex)
  }

  /**
   * `parseInt(s)` (radix Auto) or `parseInt(s, 10)` (radix Ten): skip
   * leading white space, read one optional sign, and with no radix a
   * `0x`/`0X` prefix switches to hexadecimal; then the longest run of
   * digits. None stands for NaN (no digit at all).
   */
  function ParseInt(s: string, radix: Radix): (r: Option<int>)
  {
    var t := TrimStart(s);
    var negative := t != [] && t[0] == '-';
    var u := if t != [] && (t[0] == '-' || t[0] == '+') then t[1..] else t;
    var hex := radix == Auto && HasHexPrefix(u);
    ParseDigits(if hex then u[2..] else u, hex, negative)
  }

  predicate HasHexPrefix(u: string)
  {
    |u| >= 2 && u[0] == '0' && (u[1] == 'x' || u[1] == 'X')
  }

  /** The signed value of the digit run at the start of `body`; None when there is none. */
  function ParseDigits(body: string, hex: bool, negative: bool): Option<int>
  {
    var ds := DigitRun(body, hex);
    var v: int := DigitsValue(ds, hex);
    if ds == [] then None else Some(if negative then -v else v)
  }

  /** `parseInt(x) || null`: NaN and zero both become null. */
  function ParseIntOrNull(s: string, radix: Radix): (r: Option<int>)
    ensures r.Some? ==> r.value != 0
    ensures r.Some? <==> ParseInt(s, radix).Some? && ParseInt(s, radix).value != 0
  {
    match ParseInt(s, radix)
    case Some(n) => if n != 0 then Some(n) else None
    case None => None
  }

  lemma {:induction false} DigitsValueOfNat(n: nat)
    ensures forall i :: 0 <= i < |NatToString(n)| ==> DigitValue(NatToString(n)[i], false) >= 0
    ensures DigitsValue(NatToString(n), false) == n
    decreases n
  {
    if n >= 10 {
      DigitsValueOfNat(n / 10);
      var s := NatToString(n);
      assert s[..|s| - 1] == NatToString(n / 10);
    }
  }

  /** `parseInt` of a plain run of decimal digits is the value of those digits. */
  lemma ParseIntOfDigits(d: string, radix: Radix)
    requires d != [] && forall i :: 0 <= i < |d| ==> IsDigit(d[i])
    ensures forall i :: 0 <= i < |d| ==> DigitValue(d[i], false) >= 0
    ensures ParseInt(d, radix) == Some(DigitsValue(d, false))
  {
    assert !IsJsSpace(d[0]);
    assert TrimStart(d) == d;
    assert !HasHexPrefix(d);
    DigitRunAll(d, false);
    assert ParseDigits(d, false, false) == Some(DigitsValue(d, false));
  }

  /** Printing an integer and parsing it back gives the integer (both radix modes). */
  lemma {:induction false} ParseIntOfIntToString(i: int, radix: Radix)
    ensures ParseInt(IntToString(i), radix) == Some(i)
  {
    if i >= 0 {
      UnsignedRead(IntToString(i), i, radix);
    } else {
      SignedRead(IntToString(i), -i, radix);
    }
  }

  /** A printed natural number is read back by `parseInt`. */
  lemma UnsignedRead(s: string, n: nat, radix: Radix)
    requires s == NatToString(n)
    ensures ParseInt(s, radix) == Some(n)
  {
    DigitsValueOfNat(n);
    ParseIntOfDigits(s, radix);
  }

  /** A minus sign and a printed natural number are read back as its negation. */
  lemma SignedRead(s: string, n: nat, radix: Radix)
    requires s == "-" + NatToString(n)
    ensures ParseInt(s, radix) == Some(-(n as int))
  {
    SignedBody(NatToString(n), radix);
    NegatedNatDigits(n);
  }

  /** The digits of a printed number after a minus sign are read as its negation. */
  lemma NegatedNatDigits(n: nat)
    ensures ParseDigits(NatToString(n), false, true) == Some(-(n as int))
  {
    NatDigits(n);
  }

  /** The digits of a printed number, unsigned, are read as the number. */
  lemma NatDigits(n: nat)
    ensures ParseDigits(NatToString(n), false, false) == Some(n)
  {
    DigitsValueOfNat(n);
    DigitRunAll(NatToString(n), false);
  }

  /** After a minus sign, a digit string is read in decimal whatever the radix mode. */
  lemma SignedBody(d: string, radix: Radix)
    requires d != [] && forall i :: 0 <= i < |d| ==> IsDigit(d[i])
    ensures ParseInt("-" + d, radix) == ParseDigits(d, false, true)
  {
    var s := "-" + d;
    assert TrimStart(s) == s by {
      assert !IsJsSpace(s[0]);
    }
    assert s[1..] == d;
    assert !HasHexPrefix(d) by {
      if |d| >= 2 { assert IsDigit(d[1]); }
    }
  }

  lemma {:induction false} DigitRunAll(s: string, hex: bool)
    requires forall i :: 0 <= i < |s| ==> DigitValue(s[i], hex) >= 0
    ensures DigitRun(s, hex) == s
    decreases |s|
  {
    if s != [] {
      DigitRunAll(s[1..], hex);
    }
  }

  // ---------------------------------------------------------------------
  // Decoded query strings (`URLSearchParams`)

  /** A query string after decoding: its name/value pairs in order. */
  type Query = seq<(string, string)>

  /** `searchParams.get(name)`: the value of the first pair with that name. */
  function QueryGet(q: Query, name: string): (r: Option<string>)
    ensures r.Some? <==> exists i :: 0 <= i < |q| && q[i].0 == name
    ensures r.Some? ==> exists i :: 0 <= i < |q| && q[i] == (name, r.value)
  {
    if q == [] then None
    else if q[0].0 == name then Some(q[0].1)
    else
      var r := QueryGet(q[1..], name);
      assert forall i :: 1 <= i < |q| ==> q[i] == q[1..][i - 1];
      r
  }
  /** The lookup in a three-pair query, pair by pair. */
  lemma QueryGetThree(a: (string, string), b: (string, string), c: (string, string), name: string)
    ensures QueryGet([a, b, c], name) ==
      if a.0 == name then Some(a.1) else if b.0 == name then Some(b.1) else if c.0 == name then Some(c.1) else None
  {
    var q := [a, b, c];
    assert q[1..] == [b, c] && [b, c][1..] == [c] && [c][1..] == [];
    assert QueryGet([c], name) == if c.0 == name then Some(c.1) else None;
    assert QueryGet([b, c], name) == if b.0 == name then Some(b.1) else QueryGet([c], name);
  }


  /** `searchParams.has(name)`. */
  predicate QueryHas(q: Query, name: string)
  {
    exists i :: 0 <= i < |q| && q[i].0 == name
  }
}
