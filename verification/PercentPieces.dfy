/** What escaped text means, told by how it is written: the two coders of a query string, exactly. */
module PercentPieces {
  import opened Options
  import opened Splitting
  import opened PercentCoding
  import opened QueryString

  // ---- what can be written ----

  /** A unit that stands for itself, or a code point spelled by the escapes `text`. */
  datatype Piece = Plain(unit: Unit) | Coded(c: CodePoint, text: Text)

  /** Digits `0` to `9` and letters `A` to `F`, small or capital. */
  predicate HexFor(u: Unit, d: nat)
    requires d < 16
  {
    u == "0123456789ABCDEF"[d] as int || u == "0123456789abcdef"[d] as int
  }

  predicate SpellsOctet(text: Text, o: Octet) {
    |text| == 3 && text[0] == '%' as int && HexFor(text[1], o / 16) && HexFor(text[2], o % 16)
  }

  predicate Spells(text: Text, os: seq<Octet>)
    decreases |os|
  {
    if os == [] then text == []
    else |text| >= 3 && SpellsOctet(text[..3], os[0]) && Spells(text[3..], os[1..])
  }

  predicate Fits(p: Piece) { if p.Plain? then p.unit != '%' as int else Spells(p.text, Utf8(p.c)) }

  predicate AllFit(ps: seq<Piece>) { forall i :: 0 <= i < |ps| ==> Fits(ps[i]) }

  function Spelling(p: Piece): Text { if p.Plain? then [p.unit] else p.text }

  function Written(ps: seq<Piece>): Text {
    if ps == [] then [] else Spelling(ps[0]) + Written(ps[1..])
  }

  function Meant(ps: seq<Piece>): Text {
    if ps == [] then [] else (if ps[0].Plain? then [ps[0].unit] else Units(ps[0].c)) + Meant(ps[1..])
  }

  // ---- decoding ----

  lemma HexValueIs(u: Unit, d: nat)
    requires d < 16
    ensures HexFor(u, d) <==> HexValue(u) == d
  {
  }

  lemma UnescapeIs(text: Text, rest: Text, o: Octet)
    requires |text| == 3
    ensures SpellsOctet(text, o) <==> Unescape(text + rest) == o
  {
    var s := text + rest;
    assert s[0] == text[0] && s[1] == text[1] && s[2] == text[2];
    HexValueIs(text[1], o / 16);
    HexValueIs(text[2], o % 16);
  }

  lemma {:induction false} SpelledUnescapes(text: Text, rest: Text, os: seq<Octet>)
    requires Spells(text, os)
    ensures |text| == 3 * |os| && Unescapes(text + rest, |os|) == Some(os)
    decreases |os|
  {
    hide Unescape, SpellsOctet;
    if os != [] {
      UnescapeIs(text[..3], text[3..] + rest, os[0]);
      SpelledUnescapes(text[3..], rest, os[1..]);
      assert text[..3] + (text[3..] + rest) == text + rest;
      assert (text + rest)[3..] == text[3..] + rest;
      assert [os[0]] + os[1..] == os;
    }
  }

  lemma {:induction false} UnescapesSpelled(s: Text, n: nat)
    requires Unescapes(s, n).Some?
    ensures Spells(s[..3 * n], Unescapes(s, n).value)
    decreases n
  {
    hide Unescape, SpellsOctet;
    var os := Unescapes(s, n).value;
    if n > 0 {
      UnescapesSpelled(s[3..], n - 1);
      assert s[..3] + s[3..] == s;
      UnescapeIs(s[..3], s[3..], os[0]);
      assert s[..3 * n][..3] == s[..3] && s[..3 * n][3..] == s[3..][..3 * (n - 1)];
      assert os[1..] == Unescapes(s[3..], n - 1).value;
    }
  }

  lemma CodedDecodes(c: CodePoint, text: Text, rest: Text)
    requires Spells(text, Utf8(c))
    ensures Decode(text + rest) == Prepend(Units(c), Decode(rest))
  {
    hide Decode, Utf8, FromUtf8, Announced, Units, Unescapes;
    var os := Utf8(c);
    FromUtf8OfUtf8(c);
    SpelledUnescapes(text, rest, os);
    assert (text + rest)[3 * |os|..] == rest;
    assert text[..3][0] == text[0];
    DecodeStep(text + rest, os);
  }

  lemma PlainDecodes(u: Unit, rest: Text)
    requires u != PERCENT
    ensures Decode([u] + rest) == Prepend([u], Decode(rest))
  {
    assert ([u] + rest)[1..] == rest;
  }

  /** Whatever is written of plain units and spelled code points decodes to what it means. */
  lemma {:induction false} WrittenDecodes(ps: seq<Piece>)
    requires AllFit(ps)
    ensures Decode(Written(ps)) == Some(Meant(ps))
    decreases |ps|
  {
    hide Decode, Spells, Units;
    DecodeNothing();
    if ps != [] {
      WrittenDecodes(ps[1..]);
      assert Fits(ps[0]);
      if ps[0].Plain? { PlainDecodes(ps[0].unit, Written(ps[1..])); }
      else { CodedDecodes(ps[0].c, ps[0].text, Written(ps[1..])); }
    }
  }

  /** And nothing else decodes. */
  lemma {:induction false} DecodedIsWritten(s: Text) returns (ps: seq<Piece>)
    requires Decode(s).Some?
    ensures AllFit(ps) && Written(ps) == s && Meant(ps) == Decode(s).value
    decreases |s|
  {
    hide Utf8, FromUtf8, Announced, Units, Unescape, Unescapes, Spells;
    ps := [];
    if s != [] {
      var p, n := Plain(s[0]), 1;
      if s[0] == PERCENT {
        var width := Announced(Unescape(s));
        var os := Unescapes(s, width).value;
        FirstAnnounced(s, width);
        Utf8OfFromUtf8(os);
        UnescapesSpelled(s, width);
        p, n := Coded(FromUtf8(os).value, s[..3 * width]), 3 * width;
      }
      var rest := DecodedIsWritten(s[n..]);
      ps := [p] + rest;
      assert ps[1..] == rest && s[..n] + s[n..] == s;
    }
  }

  lemma FirstAnnounced(s: Text, n: nat)
    requires n > 0 && Unescapes(s, n).Some?
    ensures Unescapes(s, n).value != [] && Unescapes(s, n).value[0] == Unescape(s)
  {
  }

  // ---- `unescape`: a plus is a space ----

  function Spaced(p: Piece): Piece { if p == Plain('+' as int) then Plain(' ' as int) else p }

  function AllSpaced(ps: seq<Piece>): seq<Piece> { seq(|ps|, i requires 0 <= i < |ps| => Spaced(ps[i])) }

  lemma {:induction false} SpelledHoldsNoPlus(text: Text, os: seq<Octet>)
    requires Spells(text, os)
    ensures forall i :: 0 <= i < |text| ==> text[i] != PLUS && text[i] != SPACE
    decreases |os|
  {
    if os != [] {
      SpelledHoldsNoPlus(text[3..], os[1..]);
      forall i | 0 <= i < |text| ensures text[i] != PLUS && text[i] != SPACE {
        if i < 3 { assert text[i] == text[..3][i]; } else { assert text[i] == text[3..][i - 3]; }
      }
    }
  }

  lemma PlusAppend(a: Text, b: Text)
    ensures PlusToSpace(a + b) == PlusToSpace(a) + PlusToSpace(b)
  {
  }

  lemma SpacedOne(p: Piece)
    requires Fits(p)
    ensures PlusToSpace(Spelling(p)) == Spelling(Spaced(p)) && Fits(Spaced(p))
  {
    hide Spells;
    if p.Coded? {
      SpelledHoldsNoPlus(p.text, Utf8(p.c));
      assert PlusToSpace(p.text) == p.text;
    }
  }

  lemma {:induction false} WrittenSpaced(ps: seq<Piece>)
    requires AllFit(ps)
    ensures PlusToSpace(Written(ps)) == Written(AllSpaced(ps)) && AllFit(AllSpaced(ps))
    decreases |ps|
  {
    hide Fits, Spaced, PlusToSpace;
    if ps == [] {
      NothingSpaced();
    } else {
      WrittenSpaced(ps[1..]);
      assert AllSpaced(ps) == [Spaced(ps[0])] + AllSpaced(ps[1..]);
      SpacedOne(ps[0]);
      PlusAppend(Spelling(ps[0]), Written(ps[1..]));
    }
  }

  lemma NothingSpaced()
    ensures PlusToSpace([]) == []
  {
  }

  /** Pieces of the text with its pluses replaced are pieces of the text itself. */
  lemma SpacedBackOne(s: Text, p: Piece) returns (q: Piece)
    requires Fits(p) && Spelling(p) == PlusToSpace(s)
    ensures Fits(q) && Spelling(q) == s
  {
    hide Spells;
    if p.Plain? {
      q := Plain(s[0]);
    } else {
      SpelledHoldsNoPlus(p.text, Utf8(p.c));
      forall i | 0 <= i < |s| ensures s[i] == p.text[i] { assert PlusToSpace(s)[i] == p.text[i]; }
      q := p;
    }
  }

  lemma PlusLength(s: Text)
    ensures |PlusToSpace(s)| == |s|
  {
  }

  lemma {:induction false} SpacedBack(s: Text, spaced: seq<Piece>) returns (ps: seq<Piece>)
    requires AllFit(spaced) && Written(spaced) == PlusToSpace(s)
    ensures AllFit(ps) && Written(ps) == s
    decreases |spaced|
  {
    hide Fits, PlusToSpace, Spelling;
    ps := [];
    PlusLength(s);
    if spaced != [] {
      var n := |Spelling(spaced[0])|;
      PlusLength(s[..n]);
      assert s == s[..n] + s[n..];
      PlusAppend(s[..n], s[n..]);
      assert PlusToSpace(s)[..n] == Spelling(spaced[0]) == PlusToSpace(s[..n]);
      assert PlusToSpace(s)[n..] == Written(spaced[1..]) == PlusToSpace(s[n..]);
      var p := SpacedBackOne(s[..n], spaced[0]);
      var rest := SpacedBack(s[n..], spaced[1..]);
      ps := [p] + rest;
      assert ps[1..] == rest;
    }
  }

  /** `unescape` reads pluses as spaces and decodes what is written of pieces; any other text it leaves as it is. */
  lemma UnescapeReads(s: Text, ps: seq<Piece>)
    ensures AllFit(ps) && Written(ps) == s ==> Unescaped(s) == Meant(AllSpaced(ps))
    ensures (forall qs :: AllFit(qs) ==> Written(qs) != s) ==> Unescaped(s) == s
  {
    hide Decode, Fits;
    if AllFit(ps) && Written(ps) == s {
      WrittenSpaced(ps);
      WrittenDecodes(AllSpaced(ps));
    }
    if Decode(PlusToSpace(s)).Some? {
      var spaced := DecodedIsWritten(PlusToSpace(s));
      var qs := SpacedBack(s, spaced);
    }
  }

  // ---- encoding ----

  /** The characters `encodeURIComponent` leaves alone. */
  predicate LeftAlone(u: int) {
    || 'a' as int <= u <= 'z' as int || 'A' as int <= u <= 'Z' as int || '0' as int <= u <= '9' as int
    || (0 <= u < 128 && u as char in "-_.!~*'()")
  }

  lemma UnreservedIs(u: Unit)
    ensures Unreserved(u) <==> LeftAlone(u)
  {
  }

  predicate Capital(u: Unit) { !('a' as int <= u <= 'z' as int) }

  predicate AllCapital(text: Text) { forall i :: 0 <= i < |text| ==> Capital(text[i]) }

  lemma HexDigitFor(d: nat)
    requires d < 16
    ensures HexFor(HexDigit(d), d) && Capital(HexDigit(d))
  {
  }

  lemma {:induction false} EscapesSpell(os: seq<Octet>)
    ensures Spells(Escapes(os), os) && AllCapital(Escapes(os))
  {
    hide HexFor, Capital, HexDigit;
    if os != [] {
      EscapesSpell(os[1..]);
      HexDigitFor(os[0] / 16);
      HexDigitFor(os[0] % 16);
      assert Capital(PERCENT) by { PercentCapital(); }
      assert Escapes(os)[..3] == Escape(os[0]) && Escapes(os)[3..] == Escapes(os[1..]);
    }
  }

  lemma PercentCapital()
    ensures Capital(PERCENT)
  {
  }

  /** One code point: left alone, or spelled with capitals. */
  lemma EncodeOne(c: CodePoint)
    ensures LeftAlone(c) ==> Encode(Units(c)) == Some(Units(c)) && Units(c) == [c]
    ensures !LeftAlone(c) ==>
              && Encode(Units(c)).Some?
              && Spells(Encode(Units(c)).value, Utf8(c)) && AllCapital(Encode(Units(c)).value)
  {
    hide Utf8, Escapes, Spells, AllCapital;
    EscapesSpell(Utf8(c));
    var s := Units(c);
    UnreservedIs(s[0]);
    assert s[Width(s)..] == [] && First(s) == c;
    assert Escapes(Utf8(c)) + [] == Escapes(Utf8(c)) && [s[0]] + [] == [s[0]];
    assert s[1..] == [] || |s| == 2;
    assert Encode([]) == Some([]);
  }

  /** What the first code point of a text is encoded as. */
  function EncodedFirst(s: Text): Text
    requires s != [] && Width(s) > 0
  {
    if Unreserved(s[0]) then [s[0]] else Escapes(Utf8(First(s)))
  }

  lemma EncodeStep(s: Text)
    requires s != [] && Width(s) > 0
    ensures Encode(s) == Prepend(EncodedFirst(s), Encode(s[Width(s)..]))
  {
    hide Utf8, Escapes;
  }

  lemma PrependAppend(x: Text, y: Text, rest: Option<Text>)
    ensures Prepend(x, Prepend(y, rest)) == Prepend(x + y, rest)
    ensures Prepend([], rest) == rest
  {
    if rest.Some? {
      assert x + (y + rest.value) == x + y + rest.value;
      assert [] + rest.value == rest.value;
    }
  }

  /** Text is encoded one code point after the other. */
  lemma {:induction false} EncodeAppend(a: Text, b: Text)
    requires WellFormed(a)
    ensures Encode(a).Some? && Encode(a + b) == Prepend(Encode(a).value, Encode(b))
    decreases |a|
  {
    hide Encode, EncodedFirst, Prepend;
    EncodeFails(a);
    if a == [] {
      assert a + b == b;
      assert Encode(a) == Some([]) by { EncodeNothing(); }
      PrependAppend([], [], Encode(b));
    } else {
      var n := Width(a);
      assert (a + b)[n..] == a[n..] + b && Width(a + b) == n;
      assert EncodedFirst(a + b) == EncodedFirst(a) by { SameFirst(a, b); }
      EncodeStep(a);
      EncodeStep(a + b);
      EncodeAppend(a[n..], b);
      var rest := Encode(a[n..]).value;
      assert Encode(a).value == EncodedFirst(a) + rest by { PrependSome(EncodedFirst(a), rest); }
      PrependAppend(EncodedFirst(a), rest, Encode(b));
    }
  }

  lemma EncodeNothing()
    ensures Encode([]) == Some([])
  {
  }

  lemma SameFirst(a: Text, b: Text)
    requires a != [] && Width(a) > 0
    ensures Width(a + b) == Width(a) && EncodedFirst(a + b) == EncodedFirst(a)
  {
    hide Utf8, Escapes;
    assert (a + b)[0] == a[0] && (Width(a) == 2 ==> (a + b)[1] == a[1]);
  }

  lemma PrependSome(x: Text, y: Text)
    ensures Prepend(x, Some(y)) == Some(x + y)
  {
  }

  /** The octets of some code points: e with acute accent, the euro sign and a smiling face. */
  lemma KnownOctets()
    ensures Utf8(0x41) == [0x41] && Utf8(0xE9) == [0xC3, 0xA9]
    ensures Utf8(0x20AC) == [0xE2, 0x82, 0xAC] && Utf8(0x1F600) == [0xF0, 0x9F, 0x98, 0x80]
  {
  }

  // ---- parsing ----

  /** A query of any parts without `&`, empty ones too, gives every key all its values in order: those of the first
      `maxKeys` parts, or of all of them. */
  lemma ParseWritten(parts: seq<Text>, maxKeys: int, key: Text)
    requires parts != [] && Join(parts, AMP) != [] && forall i :: 0 <= i < |parts| ==> '&' as int !in parts[i]
    ensures var taken := if 0 < maxKeys < |parts| then parts[..maxKeys] else parts;
            var obj, values := Parsed(Join(parts, AMP), maxKeys), ValuesFor(DecodePairs(taken), key);
            && (key in obj <==> values != [])
            && (key in obj ==> obj[key] == if |values| == 1 then One(values[0]) else Many(values))
  {
    hide Split, Join, DecodePair, AddPairs, ValuesFor;
    SplitJoin(parts, AMP);
    assert parts[..|parts|] == parts;
    AddPairsGroups(DecodePairs(parts[..Limit(|parts|, maxKeys)]), key);
  }
}
