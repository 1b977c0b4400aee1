/**
 * URL text handling shared by the actions, the callback route and the
 * pages: JavaScript's `encodeURIComponent`, the form decoding that
 * `URLSearchParams` applies to each name and value, the split of a query
 * string into decoded pairs, and `Array.prototype.join`.
 */
module Uri {
  import opened Common

  // ---------------------------------------------------------------------
  // Splitting and joining

  /** The index of the first `c` in `s`, or `|s|` when there is none. */
  function IndexOf(s: string, c: char): (i: nat)
    ensures i <= |s| && c !in s[..i]
    ensures i < |s| ==> s[i] == c
    ensures i == |s| <==> c !in s
  {
    if s == [] then 0
    else if s[0] == c then 0
    else
      var j := IndexOf(s[1..], c);
      assert s[..j + 1] == [s[0]] + s[1..][..j];
      j + 1
  }

  /** `s.split(c)`: the pieces between occurrences of `c`. */
  function SplitOn(s: string, c: char): (r: seq<string>)
    ensures r != []
    decreases |s|
  {
    var i := IndexOf(s, c);
    if i == |s| then [s] else [s[..i]] + SplitOn(s[i + 1..], c)
  }

  /** `xs.join(sep)`. */
  function Join(xs: seq<string>, sep: string): string
  {
    if xs == [] then "" else if |xs| == 1 then xs[0] else xs[0] + sep + Join(xs[1..], sep)
  }

  lemma Join3(a: string, b: string, c: string, sep: string)
    ensures Join([a, b, c], sep) == a + sep + b + sep + c
  {
    assert [a, b, c][1..] == [b, c];
    assert [b, c][1..] == [c];
    assert Join([c], sep) == c;
    assert Join([b, c], sep) == b + sep + c;
  }

  lemma SplitOnPrefix(a: string, b: string, c: char)
    requires c !in a
    ensures SplitOn(a + [c] + b, c) == [a] + SplitOn(b, c)
  {
    var s := a + [c] + b;
    assert s[..|a|] == a;
    assert s[|a|] == c;
    assert IndexOf(s, c) == |a|;
    assert s[|a| + 1..] == b;
  }

  /** Splitting a joined list on its one-character separator gives the list back. */
  lemma {:induction false} SplitJoin(xs: seq<string>, c: char)
    requires xs != []
    requires forall k :: 0 <= k < |xs| ==> c !in xs[k]
    ensures SplitOn(Join(xs, [c]), c) == xs
    decreases |xs|
  {
    if |xs| == 1 {
      assert IndexOf(xs[0], c) == |xs[0]|;
    } else {
      var rest := Join(xs[1..], [c]);
      assert Join(xs, [c]) == xs[0] + [c] + rest;
      assert forall k :: 0 <= k < |xs[1..]| ==> c !in xs[1..][k] by {
        forall k | 0 <= k < |xs[1..]| ensures c !in xs[1..][k] {
          assert xs[1..][k] == xs[k + 1];
        }
      }
      SplitJoin(xs[1..], c);
      SplitOnPrefix(xs[0], rest, c);
      assert [xs[0]] + xs[1..] == xs;
    }
  }

  // ---------------------------------------------------------------------
  // encodeURIComponent

  /** The characters `encodeURIComponent` leaves alone. */
  predicate Unreserved(c: char)
  {
    IsLetter(c) || IsDigit(c) || c in "-_.!~*'()"
  }

  function HexDigit(n: nat): (c: char)
    requires n < 16
    ensures Unreserved(c)
  {
    if n < 10 then DigitChar(n) else ('A' as int + n - 10) as char
  }

  predicate IsHex(c: char)
  {
    IsDigit(c) || 'a' <= c <= 'f' || 'A' <= c <= 'F'
  }

  function HexValue(c: char): (n: nat)
    requires IsHex(c)
    ensures n < 16
  {
    if IsDigit(c) then c as int - '0' as int
    else if 'a' <= c <= 'f' then c as int - 'a' as int + 10
    else c as int - 'A' as int + 10
  }

  lemma HexRoundTrip(n: nat)
    requires n < 16
    ensures IsHex(HexDigit(n)) && HexValue(HexDigit(n)) == n
  {
  }

  /** The UTF-8 encoding of one character, as byte values. */
  function Utf8(c: char): (bytes: seq<nat>)
    ensures 1 <= |bytes| <= 4
    ensures forall k :: 0 <= k < |bytes| ==> bytes[k] < 256
    ensures (|bytes| == 1) == (c as int < 0x80)
    ensures |bytes| == 1 ==> bytes[0] == c as int
  {
    var cp := c as int;
    if cp < 0x80 then [cp]
    else if cp < 0x800 then [0xC0 + cp / 64, 0x80 + cp % 64]
    else if cp < 0x10000 then [0xE0 + cp / 4096, 0x80 + (cp / 64) % 64, 0x80 + cp % 64]
    else [0xF0 + cp / 262144, 0x80 + (cp / 4096) % 64, 0x80 + (cp / 64) % 64, 0x80 + cp % 64]
  }

  /** `%XY` with upper-case hexadecimal digits for each byte. */
  function PercentBytes(bytes: seq<nat>): (r: string)
    requires forall k :: 0 <= k < |bytes| ==> bytes[k] < 256
    ensures |r| == 3 * |bytes|
    ensures forall k :: 0 <= k < |r| ==> Unreserved(r[k]) || r[k] == '%'
  {
    if bytes == [] then ""
    else ['%', HexDigit(bytes[0] / 16), HexDigit(bytes[0] % 16)] + PercentBytes(bytes[1..])
  }

  function EncodeChar(c: char): (r: string)
    ensures r != [] && forall k :: 0 <= k < |r| ==> Unreserved(r[k]) || r[k] == '%'
  {
    if Unreserved(c) then [c] else PercentBytes(Utf8(c))
  }

  /**
   * `encodeURIComponent(s)`. Dafny characters are Unicode scalar values,
   * so the lone surrogate on which JavaScript throws cannot occur.
   */
  function EncodeURIComponent(s: string): (r: string)
    // only unreserved characters and escapes: never `&`, `=`, `+`, `#`, `?` or a space
    ensures forall k :: 0 <= k < |r| ==> Unreserved(r[k]) || r[k] == '%'
    ensures s != [] ==> r != []
  {
    if s == [] then "" else EncodeChar(s[0]) + EncodeURIComponent(s[1..])
  }

  // ---------------------------------------------------------------------
  // Form decoding (URLSearchParams)

  /**
   * The decoding `URLSearchParams` applies: `+` is a space and `%XY` is a
   * byte. Escapes of bytes 0x80 and above are not assembled into UTF-8
   * characters here; each becomes U+FFFD.
   */
  function FormDecode(s: string): string
  {
    if s == [] then ""
    else if s[0] == '+' then " " + FormDecode(s[1..])
    else if s[0] == '%' && |s| >= 3 && IsHex(s[1]) && IsHex(s[2]) then
      var b := HexValue(s[1]) * 16 + HexValue(s[2]);
      [if b < 0x80 then b as char else '\U{FFFD}'] + FormDecode(s[3..])
    else [s[0]] + FormDecode(s[1..])
  }

  predicate IsAscii(s: string)
  {
    forall k :: 0 <= k < |s| ==> s[k] as int < 0x80
  }

  lemma DecodeEncodedChar(c: char, rest: string)
    requires c as int < 0x80
    ensures FormDecode(EncodeChar(c) + rest) == [c] + FormDecode(rest)
  {
    var e := EncodeChar(c) + rest;
    if Unreserved(c) {
      assert e[1..] == rest;
    } else {
      var b := c as int;
      HexRoundTrip(b / 16);
      HexRoundTrip(b % 16);
      assert EncodeChar(c) == ['%', HexDigit(b / 16), HexDigit(b % 16)];
      assert e[3..] == rest;
    }
  }

  /** Decoding what `encodeURIComponent` produced gives back an ASCII string. */
  lemma {:induction false} DecodeEncode(s: string)
    requires IsAscii(s)
    ensures FormDecode(EncodeURIComponent(s)) == s
    decreases |s|
  {
    if s != [] {
      DecodeEncode(s[1..]);
      DecodeEncodedChar(s[0], EncodeURIComponent(s[1..]));
      assert s == [s[0]] + s[1..];
    }
  }

  /** `encodeURIComponent` leaves a string of unreserved characters alone. */
  lemma {:induction false} EncodeUnreserved(s: string)
    requires forall k :: 0 <= k < |s| ==> Unreserved(s[k])
    ensures EncodeURIComponent(s) == s
    decreases |s|
  {
    if s != [] {
      EncodeUnreserved(s[1..]);
      assert s == [s[0]] + s[1..];
    }
  }

  /** A string of unreserved characters decodes to itself. */
  lemma {:induction false} DecodeUnreserved(s: string)
    requires forall k :: 0 <= k < |s| ==> Unreserved(s[k])
    ensures FormDecode(s) == s
    decreases |s|
  {
    if s != [] {
      DecodeUnreserved(s[1..]);
      assert s == [s[0]] + s[1..];
    }
  }

  // ---------------------------------------------------------------------
  // Query strings

  /** One `name=value` piece, both sides decoded; a piece without `=` has an empty value. */
  function ParsePair(piece: string): (string, string)
  {
    var i := IndexOf(piece, '=');
    if i == |piece| then (FormDecode(piece), "")
    else (FormDecode(piece[..i]), FormDecode(piece[i + 1..]))
  }

  function ParsePieces(pieces: seq<string>): Query
  {
    if pieces == [] then []
    else if pieces[0] == "" then ParsePieces(pieces[1..])
    else [ParsePair(pieces[0])] + ParsePieces(pieces[1..])
  }

  /** The name/value pairs `URLSearchParams` reads from a query string (without its `?`); empty pieces are skipped. */
  function ParseQuery(q: string): Query
  {
    ParsePieces(SplitOn(q, '&'))
  }

  /** A name fit to appear literally: non-empty and made of unreserved characters. */
  predicate PlainName(n: string)
  {
    n != [] && forall k :: 0 <= k < |n| ==> Unreserved(n[k])
  }

  function PairText(p: (string, string)): string
  {
    p.0 + "=" + EncodeURIComponent(p.1)
  }

  function PairTexts(ps: Query): (r: seq<string>)
    ensures |r| == |ps|
    ensures forall k :: 0 <= k < |ps| ==> r[k] == PairText(ps[k])
  {
    if ps == [] then [] else [PairText(ps[0])] + PairTexts(ps[1..])
  }

  /**
   * The query text of pairs written `name=encodeURIComponent(value)` and
   * joined by `&`. `URLSearchParams.toString` writes a space as `+` and
   * escapes `!'()~`; it agrees with this text on values free of those,
   * such as the decimal sizes of an image URL.
   */
  function BuildQuery(ps: Query): string
  {
    Join(PairTexts(ps), "&")
  }

  lemma ParsePairText(p: (string, string))
    requires PlainName(p.0) && IsAscii(p.1)
    ensures PairText(p) != "" && ParsePair(PairText(p)) == p
  {
    var t := PairText(p);
    assert '=' !in p.0 by {
      forall k | 0 <= k < |p.0| ensures p.0[k] != '=' {
        assert Unreserved(p.0[k]);
      }
    }
    assert t[..|p.0|] == p.0 && t[|p.0|] == '=';
    assert IndexOf(t, '=') == |p.0|;
    assert t[|p.0| + 1..] == EncodeURIComponent(p.1);
    DecodeUnreserved(p.0);
    DecodeEncode(p.1);
  }

  lemma {:induction false} ParsePieceTexts(ps: Query)
    requires forall k :: 0 <= k < |ps| ==> PlainName(ps[k].0) && IsAscii(ps[k].1)
    ensures ParsePieces(PairTexts(ps)) == ps
    decreases |ps|
  {
    if ps != [] {
      ParsePairText(ps[0]);
      ParsePieceTexts(ps[1..]);
      assert PairTexts(ps)[1..] == PairTexts(ps[1..]);
    }
  }

  /** A written pair holds no `&`: its name is plain and its value encoded. */
  lemma PairTextHasNoAmpersand(p: (string, string))
    requires PlainName(p.0)
    ensures '&' !in PairText(p)
  {
    var t := PairText(p);
    var e := EncodeURIComponent(p.1);
    forall j | 0 <= j < |t| ensures t[j] != '&' {
      if j < |p.0| {
        assert t[j] == p.0[j];
      } else if j > |p.0| {
        assert t[j] == e[j - |p.0| - 1];
      }
    }
  }

  /** Parsing a built query gives back its pairs, for plain names and ASCII values. */
  lemma ParseBuildQuery(ps: Query)
    requires ps != []
    requires forall k :: 0 <= k < |ps| ==> PlainName(ps[k].0) && IsAscii(ps[k].1)
    ensures ParseQuery(BuildQuery(ps)) == ps
  {
    forall k | 0 <= k < |ps| ensures '&' !in PairTexts(ps)[k] {
      PairTextHasNoAmpersand(ps[k]);
    }
    SplitJoin(PairTexts(ps), '&');
    assert "&" == ['&'];
    ParsePieceTexts(ps);
  }

  /** The three-pair case, written out. */
  lemma ParseThreePairs(a: (string, string), b: (string, string), c: (string, string))
    requires PlainName(a.0) && PlainName(b.0) && PlainName(c.0)
    requires IsAscii(a.1) && IsAscii(b.1) && IsAscii(c.1)
    ensures ParseQuery(PairText(a) + "&" + PairText(b) + "&" + PairText(c)) == [a, b, c]
  {
    var ps := [a, b, c];
    forall k | 0 <= k < |ps| ensures PlainName(ps[k].0) && IsAscii(ps[k].1) {
      if k == 0 { assert ps[k] == a; } else if k == 1 { assert ps[k] == b; } else { assert ps[k] == c; }
    }
    ParseBuildQuery(ps);
    assert PairTexts(ps) == [PairText(a), PairText(b), PairText(c)];
    Join3(PairText(a), PairText(b), PairText(c), "&");
  }
}
