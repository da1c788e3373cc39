/** `encodeURIComponent` and `decodeURIComponent` over UTF-16 code units (section 19.2.6 of ECMA-262). */
module PercentCoding {
  import opened Options

  type Unit = u: int | 0 <= u < 0x1_0000
  type Octet = o: int | 0 <= o < 0x100
  type Text = seq<Unit>

  const PERCENT: Unit := 37
  const PLUS: Unit := 43
  const SPACE: Unit := 32
  const AMP: Unit := 38
  const EQUALS: Unit := 61

  // ---- code points ----

  predicate High(u: int) { 0xD800 <= u <= 0xDBFF }

  predicate Low(u: int) { 0xDC00 <= u <= 0xDFFF }

  /** A Unicode scalar value: any code point but a surrogate. */
  predicate Scalar(c: int) { 0 <= c < 0xD800 || 0xE000 <= c <= 0x10FFFF }

  type CodePoint = c: int | 0 <= c < 0xD800 || 0xE000 <= c <= 0x10FFFF

  /** How many units the first code point of `s` takes; 0 for a surrogate without its partner. */
  function Width(s: Text): (n: nat)
    requires s != []
    ensures n <= |s| && n <= 2
  {
    if High(s[0]) then if |s| > 1 && Low(s[1]) then 2 else 0
    else if Low(s[0]) then 0
    else 1
  }

  function Pair(high: int, low: int): int { (high - 0xD800) * 0x400 + (low - 0xDC00) + 0x1_0000 }

  function First(s: Text): CodePoint
    requires s != [] && Width(s) > 0
  {
    var c: int := if Width(s) == 2 then Pair(s[0], s[1]) else s[0];
    c
  }

  function Units(c: CodePoint): (s: Text)
    ensures |s| > 0
  {
    if c < 0x1_0000 then
      var unit: Unit := c;
      [unit]
    else
      var high: Unit := (c - 0x1_0000) / 0x400 + 0xD800;
      var low: Unit := (c - 0x1_0000) % 0x400 + 0xDC00;
      [high, low]
  }

  /** Every surrogate has its partner. */
  predicate WellFormed(s: Text)
    decreases |s|
  {
    s == [] || (Width(s) > 0 && WellFormed(s[Width(s)..]))
  }

  lemma UnitsOfFirst(s: Text)
    requires s != [] && Width(s) > 0
    ensures Units(First(s)) == s[..Width(s)]
  {
  }

  // ---- octets ----

  /** The `k`-th group of six bits from the right, as a continuation octet. */
  function Tail(c: int, unit: int): (o: Octet)
    requires unit > 0
    ensures Continuation(o) && o == 0x80 + c / unit % 0x40
  {
    0x80 + c / unit % 0x40
  }

  function Utf8(c: CodePoint): (os: seq<Octet>)
    ensures 1 <= |os| <= 4
  {
    if c < 0x80 then
      var lead: Octet := c;
      [lead]
    else if c < 0x800 then
      var lead: Octet := 0xC0 + c / 0x40;
      [lead, Tail(c, 1)]
    else if c < 0x1_0000 then
      var lead: Octet := 0xE0 + c / 0x1000;
      [lead, Tail(c, 0x40), Tail(c, 1)]
    else
      var lead: Octet := 0xF0 + c / 0x4_0000;
      [lead, Tail(c, 0x1000), Tail(c, 0x40), Tail(c, 1)]
  }

  /** The number of octets a lead octet announces; 0 if it announces none. */
  function Announced(lead: Octet): (n: nat)
    ensures n <= 4
  {
    if lead < 0x80 then 1
    else if lead < 0xC0 then 0
    else if lead < 0xE0 then 2
    else if lead < 0xF0 then 3
    else if lead < 0xF8 then 4
    else 0
  }

  predicate Continuation(o: Octet) { 0x80 <= o < 0xC0 }

  function Join2(a: int, b: int): int { (a - 0xC0) * 0x40 + (b - 0x80) }

  function Join3(a: int, b: int, c: int): int { (a - 0xE0) * 0x1000 + (b - 0x80) * 0x40 + (c - 0x80) }

  function Join4(a: int, b: int, c: int, d: int): int {
    (a - 0xF0) * 0x4_0000 + (b - 0x80) * 0x1000 + (c - 0x80) * 0x40 + (d - 0x80)
  }

  /** The code point a complete octet sequence encodes, refusing overlong forms, surrogates and excess. */
  function FromUtf8(os: seq<Octet>): Option<CodePoint>
    requires os != [] && Announced(os[0]) == |os|
  {
    if |os| == 1 then
      var c: int := os[0];
      Some(c)
    else if |os| == 2 then
      if Continuation(os[1]) then Checked(Join2(os[0], os[1]), 0x80) else None
    else if |os| == 3 then
      if Continuation(os[1]) && Continuation(os[2]) then Checked(Join3(os[0], os[1], os[2]), 0x800) else None
    else if Continuation(os[1]) && Continuation(os[2]) && Continuation(os[3]) then
      Checked(Join4(os[0], os[1], os[2], os[3]), 0x1_0000)
    else None
  }

  function Checked(c: int, least: int): Option<CodePoint> {
    if c < least || !Scalar(c) then None else Some(c)
  }

  lemma Digits(c: int)
    ensures c / 1 == c
    ensures c / 0x40 * 0x40 + c % 0x40 == c
    ensures c / 0x1000 == c / 0x40 / 0x40 && c / 0x4_0000 == c / 0x1000 / 0x40
    ensures c / 0x1000 * 0x40 + c / 0x40 % 0x40 == c / 0x40
    ensures c / 0x4_0000 * 0x40 + c / 0x1000 % 0x40 == c / 0x1000
  {
  }

  lemma FromUtf8OfUtf8(c: CodePoint)
    ensures var os := Utf8(c); Announced(os[0]) == |os| && FromUtf8(os) == Some(c)
  {
    hide Tail;
    Digits(c);
    if 0x80 <= c < 0x800 {
      assert Join2(0xC0 + c / 0x40, 0x80 + c / 1 % 0x40) == c;
    } else if 0x800 <= c < 0x1_0000 {
      assert Join3(0xE0 + c / 0x1000, 0x80 + c / 0x40 % 0x40, 0x80 + c / 1 % 0x40) == c;
    } else if 0x1_0000 <= c {
      assert Join4(0xF0 + c / 0x4_0000, 0x80 + c / 0x1000 % 0x40, 0x80 + c / 0x40 % 0x40, 0x80 + c / 1 % 0x40) == c;
    }
  }

  lemma Undigits(a: int, b: int)
    requires 0 <= b < 0x40
    ensures (a * 0x40 + b) / 0x40 == a && (a * 0x40 + b) % 0x40 == b
  {
  }

  lemma Utf8OfJoin3(os: seq<Octet>)
    requires |os| == 3 && Announced(os[0]) == 3 && FromUtf8(os).Some?
    ensures Utf8(FromUtf8(os).value) == os
  {
    hide Tail;
    var c: int := FromUtf8(os).value;
    var upper := (os[0] as int - 0xE0) * 0x40 + (os[1] as int - 0x80);
    Digits(c);
    Undigits(os[0] as int - 0xE0, os[1] as int - 0x80);
    Undigits(upper, os[2] as int - 0x80);
    assert c == upper * 0x40 + (os[2] as int - 0x80);
    assert c < 0x1_0000;
  }

  lemma Utf8OfJoin4(os: seq<Octet>)
    requires |os| == 4 && Announced(os[0]) == 4 && FromUtf8(os).Some?
    ensures Utf8(FromUtf8(os).value) == os
  {
    hide Tail;
    var c: int := FromUtf8(os).value;
    var top := (os[0] as int - 0xF0) * 0x40 + (os[1] as int - 0x80);
    var upper := top * 0x40 + (os[2] as int - 0x80);
    Digits(c);
    Undigits(os[0] as int - 0xF0, os[1] as int - 0x80);
    Undigits(top, os[2] as int - 0x80);
    Undigits(upper, os[3] as int - 0x80);
    assert c == upper * 0x40 + (os[3] as int - 0x80);
    assert c >= 0x1_0000;
  }

  /** The decoder accepts nothing but what the encoder produces. */
  lemma Utf8OfFromUtf8(os: seq<Octet>)
    requires os != [] && Announced(os[0]) == |os| && FromUtf8(os).Some?
    ensures Utf8(FromUtf8(os).value) == os
  {
    if |os| == 3 {
      Utf8OfJoin3(os);
    } else if |os| == 4 {
      Utf8OfJoin4(os);
    } else if |os| == 2 {
      Digits(FromUtf8(os).value);
      Undigits(os[0] as int - 0xC0, os[1] as int - 0x80);
    }
  }

  // ---- escapes ----

  function HexDigit(d: nat): Unit
    requires d < 16
  {
    if d < 10 then 48 + d else 55 + d
  }

  function HexValue(u: Unit): (d: int)
    ensures -1 <= d < 16
  {
    if 48 <= u <= 57 then u - 48
    else if 65 <= u <= 70 then u - 55
    else if 97 <= u <= 102 then u - 87
    else -1
  }

  function Escape(o: Octet): (s: Text)
    ensures |s| == 3
  {
    [PERCENT, HexDigit(o / 16), HexDigit(o % 16)]
  }

  function Escapes(os: seq<Octet>): (s: Text)
    ensures |s| == 3 * |os|
  {
    if os == [] then [] else Escape(os[0]) + Escapes(os[1..])
  }

  /** The octet of an escape at the front of `s`, or -1. */
  function Unescape(s: Text): (o: int)
    ensures -1 <= o < 0x100
    ensures o >= 0 ==> |s| >= 3
  {
    if |s| < 3 || s[0] != PERCENT || HexValue(s[1]) < 0 || HexValue(s[2]) < 0 then -1
    else HexValue(s[1]) * 16 + HexValue(s[2])
  }

  function Unescapes(s: Text, n: nat): (os: Option<seq<Octet>>)
    ensures os.Some? ==> |os.value| == n && |s| >= 3 * n && (n > 0 ==> os.value[0] == Unescape(s))
    decreases n
  {
    if n == 0 then Some([])
    else if Unescape(s) < 0 then None
    else
      var rest := Unescapes(s[3..], n - 1);
      if rest.None? then None else Some([Unescape(s)] + rest.value)
  }

  lemma UnescapeOfEscape(o: Octet, rest: Text)
    ensures Unescape(Escape(o) + rest) == o
  {
    var s := Escape(o) + rest;
    assert s[0] == PERCENT && s[1] == HexDigit(o / 16) && s[2] == HexDigit(o % 16);
  }

  lemma {:induction false} UnescapesOfEscapes(os: seq<Octet>, rest: Text)
    ensures Unescapes(Escapes(os) + rest, |os|) == Some(os)
  {
    hide Escape, Unescape;
    if os != [] {
      var s := Escapes(os) + rest;
      assert s[3..] == Escapes(os[1..]) + rest;
      assert s == Escape(os[0]) + (Escapes(os[1..]) + rest);
      UnescapeOfEscape(os[0], Escapes(os[1..]) + rest);
      UnescapesOfEscapes(os[1..], rest);
      assert [os[0]] + os[1..] == os;
    }
  }

  // ---- encode and decode ----

  /** Letters, digits and `- _ . ! ~ * ' ( )`. */
  predicate Unreserved(u: Unit) {
    48 <= u <= 57 || 65 <= u <= 90 || 97 <= u <= 122
    || u in {33, 39, 40, 41, 42, 45, 46, 95, 126}
  }

  function Prepend(head: Text, tail: Option<Text>): Option<Text> {
    if tail.None? then None else Some(head + tail.value)
  }

  /** `encodeURIComponent`; None is a URIError. */
  function Encode(s: Text): Option<Text>
    decreases |s|
  {
    if s == [] then Some([])
    else if Unreserved(s[0]) then Prepend([s[0]], Encode(s[1..]))
    else if Width(s) == 0 then None
    else Prepend(Escapes(Utf8(First(s))), Encode(s[Width(s)..]))
  }

  /** `decodeURIComponent`; None is a URIError. */
  function Decode(s: Text): Option<Text>
    decreases |s|
  {
    if s == [] then Some([])
    else if s[0] != PERCENT then Prepend([s[0]], Decode(s[1..]))
    else
      var lead := Unescape(s);
      if lead < 0 then None
      else
        var n := Announced(lead);
        var os := Unescapes(s, n);
        if n == 0 || os.None? || FromUtf8(os.value).None? then None
        else Prepend(Units(FromUtf8(os.value).value), Decode(s[3 * n..]))
  }

  /** Encoding fails exactly on a surrogate without its partner. */
  lemma {:induction false} EncodeFails(s: Text)
    ensures Encode(s).Some? <==> WellFormed(s)
    decreases |s|
  {
    if s != [] {
      if Unreserved(s[0]) { EncodeFails(s[1..]); }
      else if Width(s) > 0 { EncodeFails(s[Width(s)..]); }
    }
  }

  /** Text that can stand in a query string: unreserved characters and escapes only. */
  predicate Escaped(s: Text) { forall i :: 0 <= i < |s| ==> s[i] == PERCENT || Unreserved(s[i]) }

  lemma {:induction false} EscapesEscaped(os: seq<Octet>)
    ensures Escaped(Escapes(os))
  {
    if os != [] { EscapesEscaped(os[1..]); }
  }

  lemma {:induction false} EncodeEscaped(s: Text)
    requires Encode(s).Some?
    ensures Escaped(Encode(s).value)
    decreases |s|
  {
    if s != [] {
      if Unreserved(s[0]) {
        EncodeEscaped(s[1..]);
      } else {
        EncodeEscaped(s[Width(s)..]);
        EscapesEscaped(Utf8(First(s)));
      }
    }
  }

  lemma DecodeEscapes(c: CodePoint, rest: Text)
    ensures Decode(Escapes(Utf8(c)) + rest) == Prepend(Units(c), Decode(rest))
  {
    hide Decode, Utf8, FromUtf8, Announced, Units, Unescape, Escapes;
    var os, s := Utf8(c), Escapes(Utf8(c)) + rest;
    FromUtf8OfUtf8(c);
    UnescapesOfEscapes(os, rest);
    EscapesStart(os);
    assert s[3 * |os|..] == rest;
    DecodeStep(s, os);
  }

  lemma EscapesStart(os: seq<Octet>)
    requires os != []
    ensures Escapes(os)[0] == PERCENT
  {
  }

  lemma DecodeStep(s: Text, os: seq<Octet>)
    requires s != [] && s[0] == PERCENT && os != [] && Announced(os[0]) == |os|
    requires Unescapes(s, |os|) == Some(os) && FromUtf8(os).Some?
    ensures |s| >= 3 * |os| && Decode(s) == Prepend(Units(FromUtf8(os).value), Decode(s[3 * |os|..]))
  {
    hide FromUtf8, Announced, Units, Unescapes;
  }

  lemma DecodeNothing()
    ensures Decode([]) == Some([])
  {
  }

  lemma DecodePlain(u: Unit, rest: Text)
    requires Unreserved(u)
    ensures Decode([u] + rest) == Prepend([u], Decode(rest))
  {
    assert ([u] + rest)[1..] == rest;
  }

  /** Decoding undoes encoding. */
  lemma {:induction false} DecodeEncode(s: Text)
    requires WellFormed(s)
    ensures Encode(s).Some? && Decode(Encode(s).value) == Some(s)
    decreases |s|
  {
    hide Utf8, Units, Escapes, Decode;
    DecodeNothing();
    if s != [] {
      if Unreserved(s[0]) {
        DecodeEncode(s[1..]);
        var t := Encode(s[1..]).value;
        DecodePlain(s[0], t);
        assert [s[0]] + s[1..] == s;
      } else {
        DecodeEncode(s[Width(s)..]);
        DecodeEscapes(First(s), Encode(s[Width(s)..]).value);
        UnitsOfFirst(s);
        assert s[..Width(s)] + s[Width(s)..] == s;
      }
    }
  }
}
