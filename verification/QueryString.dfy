/** The `node:querystring` shim: parsing and printing key/value pairs. */
module QueryString {
  import opened Options
  import opened Splitting
  import opened PercentCoding

  datatype Value = One(text: Text) | Many(texts: seq<Text>)
  type Object = map<Text, Value>
  type KeyValue = (Text, Text)

  // ---- escaping ----

  function PlusToSpace(s: Text): (r: Text)
    ensures |r| == |s|
    ensures forall i :: 0 <= i < |s| ==> r[i] == if s[i] == PLUS then SPACE else s[i]
  {
    if s == [] then [] else [if s[0] == PLUS then SPACE else s[0]] + PlusToSpace(s[1..])
  }

  /** What `unescape` answers: the decoded text, or the text itself when it does not decode. */
  function Unescaped(s: Text): Text {
    var d := Decode(PlusToSpace(s));
    if d.Some? then d.value else s
  }

  /** Escaping and unescaping is the identity on well-formed text, and the escaped text is safe in a query. */
  lemma UnescapeEscape(s: Text)
    requires WellFormed(s)
    ensures Encode(s).Some? && Unescaped(Encode(s).value) == s
    ensures AMP !in Encode(s).value && EQUALS !in Encode(s).value && PLUS !in Encode(s).value
  {
    hide Encode, Decode, WellFormed;
    DecodeEncode(s);
    EncodeEscaped(s);
    assert PlusToSpace(Encode(s).value) == Encode(s).value;
  }

  // ---- parsing ----

  /** One more pair: a repeated key turns its value into a list. */
  function AddPair(obj: Object, key: Text, value: Text): Object {
    if key in obj then
      match obj[key]
      case One(first) => obj[key := Many([first, value])]
      case Many(texts) => obj[key := Many(texts + [value])]
    else obj[key := One(value)]
  }

  function AddPairs(pairs: seq<KeyValue>): Object {
    if pairs == [] then map[]
    else
      var last := pairs[|pairs| - 1];
      AddPair(AddPairs(pairs[..|pairs| - 1]), last.0, last.1)
  }

  function DecodePair(pair: Text): KeyValue {
    var k := Find(pair, EQUALS);
    if k < |pair| then (Unescaped(pair[..k]), Unescaped(pair[k + 1..])) else (Unescaped(pair), Unescaped([]))
  }

  function DecodePairs(pairs: seq<Text>): (kvs: seq<KeyValue>)
    ensures |kvs| == |pairs|
    ensures forall i :: 0 <= i < |pairs| ==> kvs[i] == DecodePair(pairs[i])
  {
    seq(|pairs|, i requires 0 <= i < |pairs| => DecodePair(pairs[i]))
  }

  function Limit(count: nat, maxKeys: int): (n: nat)
    ensures n <= count
  {
    if 0 < maxKeys < count then maxKeys else count
  }

  /** What `parse` answers. */
  function Parsed(qs: Text, maxKeys: int): Object {
    if qs == [] then map[]
    else
      var pairs := Split(qs, AMP);
      AddPairs(DecodePairs(pairs[..Limit(|pairs|, maxKeys)]))
  }

  method Parse(qs: Text, maxKeys: int := 1000) returns (obj: Object)
    ensures obj == Parsed(qs, maxKeys)
  {
    hide Split, Unescaped, DecodePair, Limit;
    obj := map[];
    if |qs| == 0 { return; }
    var pairs := Split(qs, AMP);
    var limit := Limit(|pairs|, maxKeys);
    for i := 0 to limit
      invariant obj == AddPairs(DecodePairs(pairs[..i]))
    {
      var pair := pairs[i];
      var kv := ParsePair(pair);
      var key, value := kv.0, kv.1;
      AddPairsStep(pairs, i);
      if key in obj {
        if obj[key].Many? { obj := obj[key := Many(obj[key].texts + [value])]; }
        else { obj := obj[key := Many([obj[key].text, value])]; }
      } else {
        obj := obj[key := One(value)];
      }
    }
  }

  /** A key without `=` and its value come back decoded, whatever else the value holds; a pair without `=` has no
      value. */
  method ParsePair(pair: Text) returns (kv: KeyValue)
    ensures forall key, value ::
              EQUALS !in key && pair == key + [EQUALS] + value ==> kv == (Unescaped(key), Unescaped(value))
    ensures EQUALS !in pair ==> kv == (Unescaped(pair), [])
    ensures kv == DecodePair(pair)
  {
    forall key, value | EQUALS !in key && pair == key + [EQUALS] + value
      ensures Find(pair, EQUALS) == |key| && pair[..|key|] == key && pair[|key| + 1..] == value
    {
      assert pair[..|key|] == key;
      FindIs(pair, EQUALS, |key|);
    }
    NothingUnescaped();
    assert pair[..|pair|] == pair;
    if EQUALS !in pair { FindIs(pair, EQUALS, |pair|); }
    var eqIdx := Find(pair, EQUALS);
    var key, value;
    if eqIdx < |pair| { key, value := pair[..eqIdx], pair[eqIdx + 1..]; }
    else { key, value := pair, []; }
    kv := (Unescaped(key), Unescaped(value));
  }

  lemma NothingUnescaped()
    ensures Unescaped([]) == []
  {
    DecodeNothing();
  }

  lemma AddPairsStep(pairs: seq<Text>, i: nat)
    requires i < |pairs|
    ensures var kv := DecodePair(pairs[i]);
            AddPairs(DecodePairs(pairs[..i + 1])) == AddPair(AddPairs(DecodePairs(pairs[..i])), kv.0, kv.1)
  {
    hide DecodePair;
    var more := DecodePairs(pairs[..i + 1]);
    assert more[..i] == DecodePairs(pairs[..i]);
  }

  // ---- what parsing means ----

  /** The values given to `key`, in order. */
  function ValuesFor(pairs: seq<KeyValue>, key: Text): seq<Text> {
    if pairs == [] then []
    else
      var last := pairs[|pairs| - 1];
      ValuesFor(pairs[..|pairs| - 1], key) + if last.0 == key then [last.1] else []
  }

  /** A list of values as `parse` presents it. */
  function Present(values: seq<Text>): Value
    requires values != []
  {
    if |values| == 1 then One(values[0]) else Many(values)
  }

  /** Parsing groups the pairs by key, keeping the order of the values. */
  lemma {:induction false} AddPairsGroups(pairs: seq<KeyValue>, key: Text)
    ensures key in AddPairs(pairs) <==> ValuesFor(pairs, key) != []
    ensures key in AddPairs(pairs) ==> AddPairs(pairs)[key] == Present(ValuesFor(pairs, key))
  {
    if pairs != [] {
      AddPairsGroups(pairs[..|pairs| - 1], key);
    }
  }

  lemma {:induction false} ValuesForAppend(a: seq<KeyValue>, b: seq<KeyValue>, key: Text)
    ensures ValuesFor(a + b, key) == ValuesFor(a, key) + ValuesFor(b, key)
    decreases |b|
  {
    if b == [] {
      assert a + b == a;
    } else {
      var init := b[..|b| - 1];
      assert (a + b)[..|a + b| - 1] == a + init;
      ValuesForAppend(a, init, key);
    }
  }

  // ---- printing ----

  function Texts(v: Value): seq<Text> { if v.One? then [v.text] else v.texts }

  function KeyPairs(key: Text, values: seq<Text>): (kvs: seq<KeyValue>)
    ensures |kvs| == |values|
    ensures forall i :: 0 <= i < |values| ==> kvs[i] == (key, values[i])
  {
    seq(|values|, i requires 0 <= i < |values| => (key, values[i]))
  }

  /** The pairs of an object, its keys taken in the given order. */
  function Pairs(obj: Object, order: seq<Text>): seq<KeyValue>
    requires forall k :: k in order ==> k in obj
  {
    if order == [] then []
    else
      var last := order[|order| - 1];
      Pairs(obj, order[..|order| - 1]) + KeyPairs(last, Texts(obj[last]))
  }

  function Encoded(s: Text): Text {
    var e := Encode(s);
    if e.Some? then e.value else []
  }

  function EncodePair(kv: KeyValue): Text { Encoded(kv.0) + [EQUALS] + Encoded(kv.1) }

  function EncodePairs(pairs: seq<KeyValue>): (parts: seq<Text>)
    ensures |parts| == |pairs|
    ensures forall i :: 0 <= i < |pairs| ==> parts[i] == EncodePair(pairs[i])
  {
    seq(|pairs|, i requires 0 <= i < |pairs| => EncodePair(pairs[i]))
  }

  predicate AllEncode(texts: seq<Text>) { forall i :: 0 <= i < |texts| ==> Encode(texts[i]).Some? }

  /** Every key and value can be encoded. */
  predicate Printable(obj: Object, order: seq<Text>)
    requires forall k :: k in order ==> k in obj
  {
    forall i :: 0 <= i < |order| ==> Encode(order[i]).Some? && AllEncode(Texts(obj[order[i]]))
  }

  /** What `stringify` answers; None is the URIError that `encodeURIComponent` throws. */
  function Printed(obj: Object, order: seq<Text>): Option<Text>
    requires forall k :: k in order ==> k in obj
  {
    if Printable(obj, order) then Some(Join(EncodePairs(Pairs(obj, order)), AMP)) else None
  }

  lemma EncodePairsMore(pairs: seq<KeyValue>, key: Text, values: seq<Text>, i: nat)
    requires i < |values|
    ensures EncodePairs(pairs + KeyPairs(key, values[..i + 1]))
            == EncodePairs(pairs + KeyPairs(key, values[..i])) + [Encoded(key) + [EQUALS] + Encoded(values[i])]
  {
    hide Encoded;
  }

  lemma PairsNext(obj: Object, order: seq<Text>, j: nat)
    requires j < |order| && forall k :: k in order ==> k in obj
    ensures forall k :: k in order[..j] || k in order[..j + 1] ==> k in obj
    ensures var texts := Texts(obj[order[j]]);
            && Pairs(obj, order[..j + 1]) == Pairs(obj, order[..j]) + KeyPairs(order[j], texts)
            && Pairs(obj, order[..j]) + KeyPairs(order[j], texts[..0]) == Pairs(obj, order[..j])
            && texts[..|texts|] == texts
  {
    assert order[..j + 1][..j] == order[..j];
  }

  /** `order` is the order in which the keys of the object are enumerated. */
  method Stringify(obj: Object, order: seq<Text>) returns (r: Option<Text>)
    requires forall k :: k in order ==> k in obj
    ensures r == Printed(obj, order)
  {
    hide Encode, Join, Pairs, EncodePairs, KeyPairs;
    var parts: seq<Text> := [];
    PairsNone(obj);
    for j := 0 to |order|
      invariant forall k :: k in order[..j] ==> k in obj
      invariant forall i :: 0 <= i < j ==> Encode(order[i]).Some? && AllEncode(Texts(obj[order[i]]))
      invariant parts == EncodePairs(Pairs(obj, order[..j]))
    {
      var key := order[j];
      var value := obj[key];
      PairsNext(obj, order, j);
      var encodedKey := Encode(key);
      if encodedKey.None? { return None; }
      if value.Many? {
        for i := 0 to |value.texts|
          invariant AllEncode(value.texts[..i])
          invariant parts == EncodePairs(Pairs(obj, order[..j]) + KeyPairs(key, value.texts[..i]))
        {
          var encoded := Encode(value.texts[i]);
          if encoded.None? { return None; }
          EncodePairsMore(Pairs(obj, order[..j]), key, value.texts, i);
          parts := parts + [encodedKey.value + [EQUALS] + encoded.value];
        }
      } else {
        var encoded := Encode(value.text);
        if encoded.None? {
          assert Texts(value)[0] == value.text;
          return None;
        }
        EncodePairsMore(Pairs(obj, order[..j]), key, [value.text], 0);
        parts := parts + [encodedKey.value + [EQUALS] + encoded.value];
      }
    }
    assert order[..|order|] == order;
    return Some(Join(parts, AMP));
  }

  lemma PairsNone(obj: Object)
    ensures EncodePairs(Pairs(obj, [])) == []
  {
  }

  // ---- the round trip ----

  /** `order` lists every key of the object once. */
  ghost predicate Enumerates(order: seq<Text>, obj: Object) {
    && (forall k :: k in order <==> k in obj)
    && (forall i, j :: 0 <= i < j < |order| ==> order[i] != order[j])
  }

  /** All keys and values are well-formed Unicode. */
  predicate Unicode(obj: Object) {
    forall k :: k in obj ==> WellFormed(k) && forall i :: 0 <= i < |Texts(obj[k])| ==> WellFormed(Texts(obj[k])[i])
  }

  /** Printing fails exactly when some key or value is not well-formed Unicode. */
  lemma PrintedFails(obj: Object, order: seq<Text>)
    requires Enumerates(order, obj)
    ensures Printed(obj, order).Some? <==> Unicode(obj)
  {
    hide Encode, WellFormed, Join, EncodePairs, Pairs;
    forall s ensures Encode(s).Some? <==> WellFormed(s) { EncodeFails(s); }
    if Printable(obj, order) {
      forall k | k in obj
        ensures WellFormed(k) && forall i :: 0 <= i < |Texts(obj[k])| ==> WellFormed(Texts(obj[k])[i])
      {
        var i :| 0 <= i < |order| && order[i] == k;
      }
    }
  }

  lemma DecodeEncodePair(kv: KeyValue)
    requires WellFormed(kv.0) && WellFormed(kv.1)
    ensures DecodePair(EncodePair(kv)) == kv && AMP !in EncodePair(kv)
  {
    hide Unescaped, Encode, WellFormed;
    UnescapeEscape(kv.0);
    UnescapeEscape(kv.1);
    var k, v := Encoded(kv.0), Encoded(kv.1);
    var s := EncodePair(kv);
    assert s[..|k|] == k && s[|k| + 1..] == v;
    assert forall i :: 0 <= i < |k| ==> s[i] == k[i] && k[i] in k;
    FindIs(s, EQUALS, |k|);
  }

  predicate UnicodePairs(pairs: seq<KeyValue>) {
    forall i :: 0 <= i < |pairs| ==> WellFormed(pairs[i].0) && WellFormed(pairs[i].1)
  }

  lemma {:induction false} PairsUnicode(obj: Object, order: seq<Text>)
    requires Unicode(obj) && forall k :: k in order ==> k in obj
    ensures UnicodePairs(Pairs(obj, order))
  {
    hide WellFormed;
    if order != [] {
      PairsUnicode(obj, order[..|order| - 1]);
      assert order[|order| - 1] in order;
    }
  }

  /** Parsing printed text gives the pairs back, up to the limit. */
  lemma ParsePrinted(obj: Object, order: seq<Text>, maxKeys: int)
    requires Enumerates(order, obj) && Unicode(obj)
    ensures var pairs, printed := Pairs(obj, order), Printed(obj, order);
            printed.Some? && Parsed(printed.value, maxKeys) == AddPairs(pairs[..Limit(|pairs|, maxKeys)])
  {
    hide WellFormed, Encoded, Unescaped, Pairs, DecodePair, EncodePair, AddPairs, Unicode;
    PrintedFails(obj, order);
    PairsUnicode(obj, order);
    var pairs := Pairs(obj, order);
    var parts := EncodePairs(pairs);
    forall i | 0 <= i < |pairs| ensures DecodePair(parts[i]) == pairs[i] && AMP !in parts[i] {
      DecodeEncodePair(pairs[i]);
    }
    AddNoPairs();
    if pairs == [] {
      assert pairs[..0] == [];
    } else {
      SplitJoin(parts, AMP);
      var n := Limit(|pairs|, maxKeys);
      assert DecodePairs(parts[..n]) == pairs[..n];
      JoinNonEmpty(pairs);
    }
  }

  lemma AddNoPairs()
    ensures AddPairs([]) == map[]
  {
  }

  lemma JoinNonEmpty(pairs: seq<KeyValue>)
    requires pairs != []
    ensures Join(EncodePairs(pairs), AMP) != []
  {
    assert |EncodePair(pairs[0])| > 0;
  }

  lemma {:induction false} ValuesForKeyPairs(key: Text, values: seq<Text>, k: Text)
    ensures ValuesFor(KeyPairs(key, values), k) == if k == key then values else []
  {
    var n := |values|;
    if n > 0 {
      assert KeyPairs(key, values)[..n - 1] == KeyPairs(key, values[..n - 1]);
      ValuesForKeyPairs(key, values[..n - 1], k);
    }
  }

  lemma {:induction false} ValuesForPairs(obj: Object, order: seq<Text>, k: Text)
    requires forall x :: x in order ==> x in obj
    requires forall i, j :: 0 <= i < j < |order| ==> order[i] != order[j]
    ensures k in order ==> ValuesFor(Pairs(obj, order), k) == Texts(obj[k])
    ensures k !in order ==> ValuesFor(Pairs(obj, order), k) == []
  {
    hide KeyPairs, ValuesFor;
    if order == [] {
      NoValues(k);
    } else {
      var init, last := order[..|order| - 1], order[|order| - 1];
      ValuesForPairs(obj, init, k);
      ValuesForKeyPairs(last, Texts(obj[last]), k);
      ValuesForAppend(Pairs(obj, init), KeyPairs(last, Texts(obj[last])), k);
      assert order == init + [last];
    }
  }

  lemma NoValues(k: Text)
    ensures ValuesFor([], k) == []
  {
  }

  /** Every list holds at least two values, as lists made by parsing do. */
  predicate ProperLists(obj: Object) { forall k :: k in obj && obj[k].Many? ==> |obj[k].texts| >= 2 }

  /** A pair beyond the limit leaves its key short of a value. */
  lemma Dropped(pairs: seq<KeyValue>, n: nat)
    requires n < |pairs|
    ensures |ValuesFor(pairs[..n], pairs[n].0)| < |ValuesFor(pairs, pairs[n].0)|
  {
    hide ValuesFor;
    var k, one := pairs[n].0, pairs[n..n + 1];
    assert pairs == pairs[..n] + (one + pairs[n + 1..]);
    ValuesForAppend(pairs[..n], one + pairs[n + 1..], k);
    ValuesForAppend(one, pairs[n + 1..], k);
    assert one == KeyPairs(k, [pairs[n].1]);
    ValuesForKeyPairs(k, [pairs[n].1], k);
  }

  /** Printing and parsing gives the object back exactly when its lists are proper and all pairs fit the limit. */
  lemma RoundTrip(obj: Object, order: seq<Text>, maxKeys: int)
    requires Enumerates(order, obj) && Unicode(obj)
    ensures Printed(obj, order).Some?
    ensures Parsed(Printed(obj, order).value, maxKeys) == obj
            <==> ProperLists(obj) && (maxKeys <= 0 || |Pairs(obj, order)| <= maxKeys)
  {
    hide Unicode, Pairs, ValuesFor, AddPairs, Parsed, Printed;
    ParsePrinted(obj, order, maxKeys);
    var pairs := Pairs(obj, order);
    var n := Limit(|pairs|, maxKeys);
    var kept := AddPairs(pairs[..n]);
    forall k ensures k in kept <==> ValuesFor(pairs[..n], k) != []
      ensures k in kept ==> kept[k] == Present(ValuesFor(pairs[..n], k))
      ensures ValuesFor(pairs, k) == if k in obj then Texts(obj[k]) else []
    {
      AddPairsGroups(pairs[..n], k);
      ValuesForPairs(obj, order, k);
    }
    if n < |pairs| {
      Dropped(pairs, n);
      var k := pairs[n].0;
      assert kept != obj by {
        assert k in obj;
        if k in kept { assert |Texts(kept[k])| < |Texts(obj[k])|; }
      }
    } else {
      assert pairs[..n] == pairs;
      RoundTripWhole(obj, kept, pairs);
    }
  }

  lemma RoundTripWhole(obj: Object, kept: Object, pairs: seq<KeyValue>)
    requires forall k :: k in kept <==> ValuesFor(pairs, k) != []
    requires forall k :: k in kept ==> kept[k] == Present(ValuesFor(pairs, k))
    requires forall k :: ValuesFor(pairs, k) == if k in obj then Texts(obj[k]) else []
    ensures kept == obj <==> ProperLists(obj)
  {
    hide ValuesFor;
    if ProperLists(obj) {
      forall k ensures k in kept <==> k in obj
        ensures k in kept ==> kept[k] == obj[k]
      {
      }
    } else {
      var k :| k in obj && obj[k].Many? && |obj[k].texts| < 2;
      assert k in kept ==> kept[k].One?;
    }
  }

  /** A list of one value comes back bare. */
  lemma OneElementList()
    ensures var obj: Object, key, text := map[[97] := Many([[98]])], [97], [98];
            && Enumerates([key], obj) && Unicode(obj) && Printed(obj, [key]).Some?
            && Parsed(Printed(obj, [key]).value, 1000) != obj
  {
    var obj: Object := map[[97] := Many([[98]])];
    assert Enumerates([[97]], obj);
    assert WellFormed([97]) && WellFormed([98]);
    RoundTrip(obj, [[97]], 1000);
    assert obj[[97]].Many? && |obj[[97]].texts| < 2;
  }
}
