/** The decimal transaction number of the native restore command: 64-bit arithmetic that must not wrap. */
module DecimalTxid {
  import opened Options

  newtype Word = x: int | 0 <= x < 0x1_0000_0000_0000_0000
  newtype Unsigned = x: int | 0 <= x < 0x1_0000_0000
  newtype Byte = x: int | 0 <= x < 0x100

  const WORD_MAX: Word := 0xFFFF_FFFF_FFFF_FFFF

  predicate Digit(b: Byte) { 48 <= b <= 57 }

  predicate AllDigits(text: seq<Byte>) { forall i :: 0 <= i < |text| ==> Digit(text[i]) }

  /** The number a row of digits stands for, whatever its size. */
  function Value(text: seq<Byte>): nat
    requires AllDigits(text)
  {
    if text == [] then 0 else Value(text[..|text| - 1]) * 10 + (text[|text| - 1] as int - 48)
  }

  /** More digits never make a number smaller. */
  lemma {:induction false} ValueGrows(text: seq<Byte>, n: nat)
    requires AllDigits(text) && n <= |text|
    ensures Value(text[..n]) <= Value(text)
    decreases |text|
  {
    if n == |text| {
      assert text[..n] == text;
    } else {
      var init := text[..|text| - 1];
      ValueGrows(init, n);
      assert init[..n] == text[..n];
    }
  }

  /** `(unsigned int)(*p - '0')`: a byte below '0' becomes a large number. */
  function DigitOf(b: Byte): (digit: Unsigned)
    ensures digit <= 9 <==> Digit(b)
    ensures Digit(b) ==> digit as int == b as int - 48
  {
    ((b as int - 48) % 0x1_0000_0000) as Unsigned
  }

  /** `value > (UINT64_MAX - digit) / 10`: true exactly when `value * 10 + digit` does not fit. */
  predicate Overflows(value: Word, digit: Unsigned)
    ensures digit <= 9 ==> (Overflows(value, digit) <==> value as int * 10 + digit as int > WORD_MAX as int)
  {
    value > (WORD_MAX - digit as Word) / 10
  }

  /**
   * Accepts an argument (its bytes before the terminating zero) exactly when it is all digits and its number is at
   * least 1 and fits in a word. No step of the loop wraps.
   */
  method ParseTxid(target: seq<Byte>) returns (txid: Option<Word>)
    ensures txid.Some? <==> AllDigits(target) && 1 <= Value(target) <= WORD_MAX as int
    ensures txid.Some? ==> txid.value as int == Value(target)
  {
    var value: Word := 0;
    for i := 0 to |target|
      invariant AllDigits(target[..i]) && value as int == Value(target[..i])
    {
      assert target[..i + 1][..i] == target[..i];
      var digit := DigitOf(target[i]);
      if digit > 9 || Overflows(value, digit) {
        if AllDigits(target) { ValueGrows(target, i + 1); }
        return None;
      }
      value := value * 10 + digit as Word;
    }
    assert target[..|target|] == target;
    txid := if value == 0 then None else Some(value);
  }

  /** Zeros in front change nothing. */
  lemma {:induction false} LeadingZero(text: seq<Byte>)
    requires AllDigits(text)
    ensures AllDigits([48] + text) && Value([48] + text) == Value(text)
    decreases |text|
  {
    var longer := [48 as Byte] + text;
    if text == [] {
      assert longer[..0] == [];
    } else {
      LeadingZero(text[..|text| - 1]);
      assert longer[..|text|] == [48] + text[..|text| - 1];
    }
  }

  /** Every number a word can hold, except zero, is some argument's. */
  lemma {:induction false} EveryWord(n: nat) returns (text: seq<Byte>)
    ensures text != [] && AllDigits(text) && Value(text) == n
  {
    var last := (n % 10 + 48) as Byte;
    if n < 10 {
      text := [last];
      assert text[..0] == [];
    } else {
      var front := EveryWord(n / 10);
      text := front + [last];
      assert text[..|front|] == front;
    }
  }
}
