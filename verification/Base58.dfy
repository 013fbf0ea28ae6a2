// The two base58 encoders of the repository and the decoder that undoes them
// (Internet-Draft draft-msporny-base58, sections 3 and 4).
module Base58 {
  import opened Arithmetic
  import opened Outcomes

  // ----- positional notation in any base

  ghost predicate AllBelow(digits: seq<int>, base: int) {
    forall i :: 0 <= i < |digits| ==> 0 <= digits[i] < base
  }

  function FromDigits(digits: seq<int>, base: int): int {
    if digits == [] then 0
    else FromDigits(digits[..|digits| - 1], base) * base + digits[|digits| - 1]
  }

  function ToDigits(value: int, base: int): (digits: seq<int>)
    requires value >= 0 && base >= 2
    ensures AllBelow(digits, base)
    ensures digits == [] <==> value == 0
    ensures digits != [] ==> digits[0] > 0
    decreases value
  {
    if value == 0 then []
    else
      OneDigitLess(value, base);
      ToDigits(value / base, base) + [value % base]
  }

  lemma OneDigitLess(value: int, base: int)
    requires value > 0 && base >= 2
    ensures 0 <= value / base < value && 0 <= value % base < base
    ensures value == value / base * base + value % base
    ensures value < base ==> value / base == 0 && value % base == value
  {
    var q := value / base;
    FloorBounds(value, base);
    FloorNonNegative(value, base);
    MulMono(2, base, q);
    if value < base {
      FloorAtLeast(value, base, 1);
    }
  }

  lemma OneDigitMore(value: nat, digit: int, base: int)
    requires 0 <= digit < base
    ensures (value * base + digit) / base == value && (value * base + digit) % base == digit
    ensures value * base + digit >= value
    ensures value > 0 ==> value * base + digit > 0
  {
    var n := value * base + digit;
    MulMono(1, base, value);
    FloorAtLeast(n, base, value);
    Distribute(value, 1, base);
    FloorAtLeast(n, base, value + 1);
    FloorBounds(n, base);
    assert n == n / base * base + n % base;
  }

  function Zeros(n: nat): seq<int> {
    seq(n, _ => 0)
  }

  function LeadingZeros(digits: seq<int>): (n: nat)
    ensures n <= |digits|
    ensures digits[..n] == Zeros(n)
    ensures n < |digits| ==> digits[n] != 0
  {
    if digits == [] || digits[0] != 0 then 0 else 1 + LeadingZeros(digits[1..])
  }

  /** Changing base: the leading zeros are kept one for one, the rest is rewritten as a number. */
  function Convert(digits: seq<int>, from: int, to: int): seq<int>
    requires AllBelow(digits, from) && from >= 2 && to >= 2
  {
    FromDigitsNonNegative(digits, from);
    Zeros(LeadingZeros(digits)) + ToDigits(FromDigits(digits, from), to)
  }

  lemma FromDigitsNonNegative(digits: seq<int>, base: int)
    requires AllBelow(digits, base)
    ensures FromDigits(digits, base) >= 0
  {
    if digits != [] {
      FromDigitsNonNegative(digits[..|digits| - 1], base);
    }
  }

  lemma {:induction false} DigitsOfAValue(value: int, base: int)
    requires value >= 0 && base >= 2
    ensures FromDigits(ToDigits(value, base), base) == value
    decreases value
  {
    if value > 0 {
      OneDigitLess(value, base);
      DigitsOfAValue(value / base, base);
      var digits := ToDigits(value, base);
      assert digits[..|digits| - 1] == ToDigits(value / base, base);
    }
  }

  lemma LastDigit(value: nat, digit: int, base: int)
    requires 0 <= digit < base && base >= 2 && (value > 0 || digit > 0)
    ensures value * base + digit > 0
    ensures ToDigits(value * base + digit, base) == ToDigits(value, base) + [digit]
  {
    OneDigitMore(value, digit, base);
  }

  lemma {:induction false} ValueOfDigits(digits: seq<int>, base: int)
    requires AllBelow(digits, base) && base >= 2
    requires digits != [] ==> digits[0] > 0
    ensures FromDigits(digits, base) >= 0 && ToDigits(FromDigits(digits, base), base) == digits
    ensures digits != [] ==> FromDigits(digits, base) > 0
  {
    if digits != [] {
      var front, last := digits[..|digits| - 1], digits[|digits| - 1];
      ValueOfDigits(front, base);
      assert FromDigits(digits, base) == FromDigits(front, base) * base + last;
      LastDigit(FromDigits(front, base), last, base);
      assert digits == front + [last];
    }
  }

  lemma {:induction false} LeadingZerosAddNothing(n: nat, digits: seq<int>, base: int)
    ensures FromDigits(Zeros(n) + digits, base) == FromDigits(digits, base)
  {
    var whole := Zeros(n) + digits;
    if digits != [] {
      LeadingZerosAddNothing(n, digits[..|digits| - 1], base);
      assert whole[..|whole| - 1] == Zeros(n) + digits[..|digits| - 1];
    } else if n > 0 {
      LeadingZerosAddNothing(n - 1, digits, base);
      assert whole[..|whole| - 1] == Zeros(n - 1) + digits;
    }
  }

  lemma {:induction false} LeadingZerosCounted(n: nat, digits: seq<int>)
    requires digits != [] ==> digits[0] != 0
    ensures LeadingZeros(Zeros(n) + digits) == n
  {
    if n > 0 {
      assert (Zeros(n) + digits)[1..] == Zeros(n - 1) + digits;
      LeadingZerosCounted(n - 1, digits);
    } else {
      assert Zeros(n) + digits == digits;
    }
  }

  /** There and back between any two bases gives the digits back, leading zeros included. */
  lemma ConvertIsUndone(digits: seq<int>, from: int, to: int)
    requires AllBelow(digits, from) && from >= 2 && to >= 2
    ensures AllBelow(Convert(digits, from, to), to)
    ensures Convert(Convert(digits, from, to), to, from) == digits
  {
    var n := LeadingZeros(digits);
    var rest := digits[n..];
    assert digits == Zeros(n) + rest;
    LeadingZerosAddNothing(n, rest, from);
    ValueOfDigits(rest, from);
    var value := FromDigits(rest, from);
    LeadingZerosCounted(n, ToDigits(value, to));
    LeadingZerosAddNothing(n, ToDigits(value, to), to);
    DigitsOfAValue(value, to);
  }

  /** The number and the count of leading zeros are what a change of base keeps. */
  lemma ConvertKeepsTheValue(digits: seq<int>, from: int, to: int)
    requires AllBelow(digits, from) && from >= 2 && to >= 2
    ensures FromDigits(Convert(digits, from, to), to) == FromDigits(digits, from)
    ensures LeadingZeros(Convert(digits, from, to)) == LeadingZeros(digits)
  {
    FromDigitsNonNegative(digits, from);
    var value := FromDigits(digits, from);
    LeadingZerosAddNothing(LeadingZeros(digits), ToDigits(value, to), to);
    DigitsOfAValue(value, to);
    LeadingZerosCounted(LeadingZeros(digits), ToDigits(value, to));
  }

  // ----- the alphabet

  function Run(first: char, last: char): string
    requires first <= last <= 'z'
  {
    seq(last as int - first as int + 1, i requires 0 <= i <= last as int - first as int => (first as int + i) as char)
  }

  // The digits and the letters in character order, without 0, O, I and l.
  const ALPHABET: string := Run('1', '9') + Run('A', 'H') + Run('J', 'N') + Run('P', 'Z') + Run('a', 'k')
                           + Run('m', 'z')

  lemma TheAlphabetSpelledOut()
    ensures ALPHABET == "123456789" + "ABCDEFGH" + "JKLMN" + "PQRSTUVWXYZ" + "abcdefghijk" + "mnopqrstuvwxyz"
    ensures |ALPHABET| == 58
  {
    assert Run('1', '9') == "123456789";
    assert Run('A', 'H') == "ABCDEFGH";
    assert Run('J', 'N') == "JKLMN";
    assert Run('P', 'Z') == "PQRSTUVWXYZ";
    assert Run('a', 'k') == "abcdefghijk";
    assert Run('m', 'z') == "mnopqrstuvwxyz";
  }

  function Render(digits: seq<int>): (s: string)
    requires AllBelow(digits, 58)
    ensures |s| == |digits|
  {
    seq(|digits|, i requires 0 <= i < |digits| => ALPHABET[digits[i]])
  }

  lemma PutInFront(digit: int, digits: seq<int>)
    requires 0 <= digit < 58 && AllBelow(digits, 58)
    ensures AllBelow([digit] + digits, 58)
    ensures [ALPHABET[digit]] + Render(digits) == Render([digit] + digits)
  {
  }

  lemma ZerosInFront(n: nat, digits: seq<int>)
    requires AllBelow(digits, 58)
    ensures AllBelow(Zeros(n) + digits, 58)
    ensures seq(n, _ => '1') + Render(digits) == Render(Zeros(n) + digits)
  {
    assert ALPHABET[0] == '1';
  }

  /** The digit a character stands for, searched from `at` on. */
  function DigitOf(c: char, at: nat): (digit: Option<int>)
    requires at <= 58
    ensures digit.Some? ==> at <= digit.value < 58 && ALPHABET[digit.value] == c
    ensures digit.None? ==> forall i :: at <= i < 58 ==> ALPHABET[i] != c
    decreases 58 - at
  {
    if at == 58 then None else if ALPHABET[at] == c then Some(at) else DigitOf(c, at + 1)
  }

  /** The alphabet is in character order, so no character stands for two digits. */
  lemma NoCharacterTwice(i: nat, j: nat)
    requires i < j < 58
    ensures ALPHABET[i] < ALPHABET[j]
  {
  }

  lemma DigitsAreFound(digit: int)
    requires 0 <= digit < 58
    ensures DigitOf(ALPHABET[digit], 0) == Some(digit)
  {
    var found := DigitOf(ALPHABET[digit], 0);
    if found.Some? && found.value < digit {
      NoCharacterTwice(found.value, digit);
    } else if found.Some? && found.value > digit {
      NoCharacterTwice(digit, found.value);
    }
  }

  // ----- encoding and decoding

  function Encode(raw: seq<u8>): string {
    ConvertIsUndone(raw, 256, 58);
    Render(Convert(raw, 256, 58))
  }

  ghost predicate OverTheAlphabet(text: string) {
    forall i :: 0 <= i < |text| ==> DigitOf(text[i], 0).Some?
  }

  function Digits(text: string): (digits: seq<int>)
    requires OverTheAlphabet(text)
    ensures AllBelow(digits, 58)
  {
    seq(|text|, i requires 0 <= i < |text| => DigitOf(text[i], 0).value)
  }

  ghost function Decode(text: string): Option<seq<int>> {
    if OverTheAlphabet(text) then Some(Convert(Digits(text), 58, 256)) else None
  }

  lemma RenderedDigitsAreRead(digits: seq<int>)
    requires AllBelow(digits, 58)
    ensures OverTheAlphabet(Render(digits)) && Digits(Render(digits)) == digits
  {
    var text := Render(digits);
    forall i | 0 <= i < |text| ensures DigitOf(text[i], 0) == Some(digits[i]) {
      DigitsAreFound(digits[i]);
    }
  }

  /** Every byte string is decoded back from its encoding, leading zeros and the empty string included. */
  lemma DecodeUndoesEncode(raw: seq<u8>)
    ensures Decode(Encode(raw)) == Some(raw)
  {
    ConvertIsUndone(raw, 256, 58);
    RenderedDigitsAreRead(Convert(raw, 256, 58));
  }

  lemma EncodeIsInjective(left: seq<u8>, right: seq<u8>)
    requires Encode(left) == Encode(right)
    ensures left == right
  {
    DecodeUndoesEncode(left);
    DecodeUndoesEncode(right);
  }

  /** And every string over the alphabet is the encoding of the bytes it decodes to. */
  lemma EncodeUndoesDecode(text: string)
    requires OverTheAlphabet(text)
    ensures AllBelow(Decode(text).value, 256) && Encode(Decode(text).value) == text
  {
    ConvertIsUndone(Digits(text), 58, 256);
    assert Render(Digits(text)) == text;
  }

  // ----- the two implementations

  /** The bytes read as one big number, as both encoders start. */
  method ReadValue(raw: seq<u8>) returns (value: int)
    ensures value == FromDigits(raw, 256) >= 0
  {
    value := 0;
    for i := 0 to |raw|
      invariant value == FromDigits(raw[..i], 256) && value >= 0
    {
      value := value * 256 + raw[i];
      assert raw[..i + 1][..i] == raw[..i];
    }
    assert raw[..|raw|] == raw;
  }

  /** Its digits written from the last one forward: what has been divided away stands behind what is left. */
  method WriteValue(number: nat) returns (encoded: string)
    ensures encoded == Render(ToDigits(number, 58))
  {
    var value := number;
    encoded := "";
    ghost var done: seq<int> := [];
    while value > 0
      invariant AllBelow(done, 58)
      invariant ToDigits(number, 58) == ToDigits(value, 58) + done
      invariant encoded == Render(done)
    {
      OneDigitLess(value, 58);
      var digit := value % 58;
      assert ToDigits(value, 58) + done == ToDigits(value / 58, 58) + ([digit] + done);
      PutInFront(digit, done);
      encoded := [ALPHABET[digit]] + encoded;
      done := [digit] + done;
      value := value / 58;
    }
  }

  /** What both encoders put together: a digit for each leading zero, and the number. */
  lemma EncodedInTwoParts(raw: seq<u8>, zeros: nat, value: nat)
    requires zeros == LeadingZeros(raw) && value == FromDigits(raw, 256)
    ensures seq(zeros, _ => '1') + Render(ToDigits(value, 58)) == Encode(raw)
  {
    ConvertIsUndone(raw, 256, 58);
    ZerosInFront(zeros, ToDigits(value, 58));
  }

  method EncodeBase58(raw: seq<u8>) returns (text: string)
    ensures text == Encode(raw)
  {
    var value := ReadValue(raw);
    var encoded := WriteValue(value);
    ghost var zeros := LeadingZeros(raw);
    var leadingZeros := 0;
    while leadingZeros < |raw|
      invariant 0 <= leadingZeros <= zeros
    {
      if raw[leadingZeros] != 0 {
        break;
      }
      assert leadingZeros < zeros;
      leadingZeros := leadingZeros + 1;
    }
    if leadingZeros < zeros {
      LeadingZerosAreZero(raw, leadingZeros);
    }
    EncodedInTwoParts(raw, leadingZeros, value);
    text := seq(leadingZeros, _ => '1') + encoded;
  }

  lemma OnlyNothingEncodesToNothing(raw: seq<u8>)
    ensures Encode(raw) == "" <==> raw == []
  {
    ConvertIsUndone(raw, 256, 58);
    if Encode(raw) == "" {
      assert Convert(raw, 256, 58) == [];
    }
  }

  lemma OneInFront(n: nat)
    ensures ['1'] + seq(n, _ => '1') == seq(n + 1, _ => '1')
  {
  }

  /** The web encoder writes the empty byte string as one digit and agrees on every other. */
  method ToBase58(bytes: seq<u8>) returns (out: string)
    ensures bytes != [] ==> out == Encode(bytes)
    ensures bytes == [] ==> out == "1" && Encode(bytes) == ""
  {
    var value := ReadValue(bytes);
    var digits := WriteValue(value);
    out := digits;
    ghost var zeros := LeadingZeros(bytes);
    var i := 0;
    while i < |bytes|
      invariant 0 <= i <= zeros
      invariant out == seq(i, _ => '1') + digits
    {
      if bytes[i] != 0 {
        break;
      }
      assert i < zeros;
      OneInFront(i);
      out := ['1'] + out;
      i := i + 1;
    }
    if i < zeros {
      LeadingZerosAreZero(bytes, i);
    }
    EncodedInTwoParts(bytes, i, value);
    OnlyNothingEncodesToNothing(bytes);
    if out == "" {
      out := "1";
    }
  }

  lemma LeadingZerosAreZero(digits: seq<int>, n: nat)
    requires n < LeadingZeros(digits)
    ensures digits[n] == 0
  {
    assert digits[n] == digits[..LeadingZeros(digits)][n] == Zeros(LeadingZeros(digits))[n];
  }
}
