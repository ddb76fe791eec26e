/** Base58: bytes as one big number in another base, with leading zeros kept apart. */
module Base58 {
  import opened Wrappers

  type Byte = n: int | 0 <= n < 256

  const ALPHABET := "123456789" + "ABCDEFGH" + "JKLMN" + "PQRSTUVWXYZ" + "abcdefghijk" + "mnopqrstuvwxyz"

  // ----- Numbers in a base, most significant digit first -----

  function Value(digits: seq<nat>, base: nat): nat {
    if digits == [] then 0 else Value(digits[..|digits| - 1], base) * base + digits[|digits| - 1]
  }

  /** The digits of a number, without leading zeros. */
  function Digits(n: nat, base: nat): (digits: seq<nat>)
    requires base >= 2
    ensures forall i :: 0 <= i < |digits| ==> digits[i] < base
    ensures digits != [] ==> digits[0] != 0
    ensures digits == [] <==> n == 0
  {
    if n == 0 then [] else Digits(n / base, base) + [n % base]
  }

  lemma ValueSnoc(digits: seq<nat>, last: nat, base: nat)
    ensures Value(digits + [last], base) == Value(digits, base) * base + last
  {
  }

  lemma DivisionSplits(n: nat, base: nat)
    requires base >= 2
    ensures (n / base) * base + n % base == n
  {
  }

  lemma {:induction false} ValueOfDigits(n: nat, base: nat)
    requires base >= 2
    ensures Value(Digits(n, base), base) == n
  {
    hide Value;
    if n > 0 {
      ValueOfDigits(n / base, base);
      ValueSnoc(Digits(n / base, base), n % base, base);
      DivisionSplits(n, base);
    } else {
      ValueOfNothing(base);
    }
  }

  lemma ValueOfNothing(base: nat)
    ensures Value([], base) == 0
  {
  }

  predicate InBase(digits: seq<nat>, base: nat) {
    forall i :: 0 <= i < |digits| ==> digits[i] < base
  }

  lemma {:induction false} DigitsOfValue(digits: seq<nat>, base: nat)
    requires base >= 2 && InBase(digits, base) && (digits != [] ==> digits[0] != 0)
    ensures Digits(Value(digits, base), base) == digits
    ensures digits != [] ==> Value(digits, base) > 0
  {
    if digits != [] {
      var earlier, last := digits[..|digits| - 1], digits[|digits| - 1];
      DigitsOfValue(earlier, base);
      DivMod(Value(earlier, base), last, base);
      assert digits == earlier + [last];
    }
  }

  lemma MultiplesAscend(x: nat, y: nat, base: nat)
    ensures x <= y ==> x * base <= y * base
  {
  }

  lemma DivMod(high: nat, low: nat, base: nat)
    requires low < base
    ensures (high * base + low) / base == high && (high * base + low) % base == low
  {
    var n := high * base + low;
    var q, r := n / base, n % base;
    assert n == base * q + r;
    MultiplesAscend(q + 1, high, base);
    MultiplesAscend(high + 1, q, base);
  }

  // ----- Leading zeros -----

  function Zeros(n: nat): (zeros: seq<nat>)
    ensures |zeros| == n && forall i :: 0 <= i < n ==> zeros[i] == 0
  {
    seq(n, _ => 0)
  }

  function LeadingZeros(digits: seq<nat>): (n: nat)
    ensures n <= |digits|
    ensures forall i :: 0 <= i < n ==> digits[i] == 0
    ensures n < |digits| ==> digits[n] != 0
  {
    if digits == [] || digits[0] != 0 then 0 else 1 + LeadingZeros(digits[1..])
  }

  lemma {:induction false} ValueIgnoresZeros(digits: seq<nat>, n: nat, base: nat)
    ensures Value(Zeros(n) + digits, base) == Value(digits, base)
  {
    if digits == [] {
      assert Zeros(n) + digits == Zeros(n);
      ZerosAreZero(n, base);
    } else {
      var earlier := digits[..|digits| - 1];
      ValueIgnoresZeros(earlier, n, base);
      assert (Zeros(n) + digits)[..|Zeros(n) + digits| - 1] == Zeros(n) + earlier;
    }
  }

  lemma {:induction false} ZerosAreZero(n: nat, base: nat)
    ensures Value(Zeros(n), base) == 0
  {
    if n > 0 {
      ZerosAreZero(n - 1, base);
      assert Zeros(n)[..n - 1] == Zeros(n - 1);
    }
  }

  lemma SplitZeros(digits: seq<nat>)
    ensures digits == Zeros(LeadingZeros(digits)) + digits[LeadingZeros(digits)..]
  {
  }

  lemma ZerosOfSplit(n: nat, digits: seq<nat>)
    requires digits != [] ==> digits[0] != 0
    ensures LeadingZeros(Zeros(n) + digits) == n
  {
    var all := Zeros(n) + digits;
    assert forall i :: 0 <= i < n ==> all[i] == 0;
    assert n < |all| ==> all[n] == digits[0];
  }

  /** A number in one base, rewritten in another, leading zeros kept as they are. */
  function Rebase(digits: seq<nat>, from: nat, to: nat): (r: seq<nat>)
    requires from >= 2 && to >= 2
    ensures InBase(r, to)
  {
    Zeros(LeadingZeros(digits)) + Digits(Value(digits, from), to)
  }

  /** Rewriting there and back gives the same digits. */
  lemma RebaseBack(digits: seq<nat>, from: nat, to: nat)
    requires from >= 2 && to >= 2 && InBase(digits, from)
    ensures Rebase(Rebase(digits, from, to), to, from) == digits
    ensures Rebase(digits, from, to) == [] <==> digits == []
  {
    hide Value, Digits, LeadingZeros, Zeros;
    var zeros, rest := LeadingZeros(digits), digits[LeadingZeros(digits)..];
    var there := Digits(Value(digits, from), to);
    SplitZeros(digits);
    ValueIgnoresZeros(rest, zeros, from);
    DigitsOfValue(rest, from);
    ZerosOfSplit(zeros, there);
    ValueIgnoresZeros(there, zeros, to);
    ValueOfDigits(Value(digits, from), to);
  }

  // ----- Characters -----

  predicate Ascending(s: string) {
    forall i, j :: 0 <= i < j < |s| ==> s[i] < s[j]
  }

  lemma AscendingConcat(s: string, t: string)
    requires Ascending(s) && Ascending(t) && s != [] && t != [] && s[|s| - 1] < t[0]
    ensures Ascending(s + t) && (s + t)[|s + t| - 1] == t[|t| - 1]
  {
  }

  lemma PiecesAscend()
    ensures Ascending("123456789") && Ascending("ABCDEFGH") && Ascending("JKLMN")
  {
  }

  lemma LaterPiecesAscend()
    ensures Ascending("PQRSTUVWXYZ") && Ascending("abcdefghijk")
  {
  }

  lemma LastPieceAscends()
    ensures Ascending("mnopqrstuvwxyz")
  {
  }

  lemma AlphabetAscends()
    ensures |ALPHABET| == 58 && Ascending(ALPHABET) && ALPHABET[0] == '1'
  {
    hide Ascending;
    PiecesAscend();
    LaterPiecesAscend();
    LastPieceAscends();
    AscendingConcat("123456789", "ABCDEFGH");
    AscendingConcat("123456789" + "ABCDEFGH", "JKLMN");
    AscendingConcat("123456789" + "ABCDEFGH" + "JKLMN", "PQRSTUVWXYZ");
    AscendingConcat("123456789" + "ABCDEFGH" + "JKLMN" + "PQRSTUVWXYZ", "abcdefghijk");
    AscendingConcat("123456789" + "ABCDEFGH" + "JKLMN" + "PQRSTUVWXYZ" + "abcdefghijk", "mnopqrstuvwxyz");
  }

  // ----- Encoding and decoding -----

  const MAX_LENGTH := 64

  function Spell(digits: seq<nat>): (s: string)
    requires InBase(digits, 58)
    ensures |s| == |digits|
  {
    AlphabetAscends();
    seq(|digits|, i requires 0 <= i < |digits| => ALPHABET[digits[i]])
  }

  predicate IsSpelled(s: string) {
    forall i :: 0 <= i < |s| ==> s[i] in ALPHABET
  }

  function Unspell(s: string): (digits: seq<nat>)
    requires IsSpelled(s)
    ensures |digits| == |s| && InBase(digits, 58)
  {
    AlphabetAscends();
    seq(|s|, i requires 0 <= i < |s| => DigitOf(s[i]))
  }

  function DigitOf(c: char): (d: nat)
    requires c in ALPHABET
    ensures d < 58
  {
    AlphabetAscends();
    IndexOf(ALPHABET, c)
  }

  lemma DigitOfLetter(d: nat)
    requires d < 58
    ensures |ALPHABET| == 58 && ALPHABET[d] in ALPHABET && DigitOf(ALPHABET[d]) == d
  {
    AlphabetAscends();
    var e := IndexOf(ALPHABET, ALPHABET[d]);
    hide Ascending;
    AscendingOnce(ALPHABET, d, e);
  }

  lemma AscendingOnce(s: string, i: nat, j: int)
    requires Ascending(s) && i < |s| && 0 <= j < |s| && s[i] == s[j]
    ensures i == j
  {
  }

  lemma UnspellSpelled(digits: seq<nat>)
    requires InBase(digits, 58)
    ensures IsSpelled(Spell(digits)) && Unspell(Spell(digits)) == digits
  {
    forall i | 0 <= i < |digits| ensures Spell(digits)[i] in ALPHABET && DigitOf(Spell(digits)[i]) == digits[i] {
      DigitOfLetter(digits[i]);
    }
  }

  lemma SpellUnspelled(s: string)
    requires IsSpelled(s)
    ensures Spell(Unspell(s)) == s
  {
  }

  /** What the printer prints; for no bytes at all it prints a single one, as for one zero byte. */
  function Encode(bytes: seq<Byte>): string {
    var s := Spell(Rebase(bytes, 256, 58));
    if s == "" then "1" else s
  }

  datatype Base58Fault = InvalidLength | InvalidCharacter

  function Decode(s: string): Result<seq<Byte>, Base58Fault> {
    if |s| < 1 || |s| > MAX_LENGTH then Err(InvalidLength)
    else if !IsSpelled(s) then Err(InvalidCharacter)
    else Ok(AsBytes(Rebase(Unspell(s), 58, 256)))
  }

  function AsBytes(digits: seq<nat>): (bytes: seq<Byte>)
    requires InBase(digits, 256)
    ensures bytes == digits
  {
    seq(|digits|, i requires 0 <= i < |digits| => digits[i] as Byte)
  }

  /** Decoding what was printed gives the bytes back exactly when there are bytes and the text is not too long. */
  lemma DecodeEncoded(bytes: seq<Byte>)
    ensures Decode(Encode(bytes)) == Ok(bytes) <==> bytes != [] && |Encode(bytes)| <= MAX_LENGTH
  {
    hide Rebase, Spell, Unspell, IsSpelled;
    var digits := Rebase(bytes, 256, 58);
    RebaseBack(bytes, 256, 58);
    UnspellSpelled(digits);
    if bytes == [] {
      OneIsAZero();
    }
  }

  lemma OneIsAZero()
    ensures Decode("1") == Ok([0])
  {
    AlphabetAscends();
    DigitOfLetter(0);
    assert Unspell("1") == [0];
    assert [0][..0] == [] && [0][1..] == [];
    assert Value([0], 58) == 0;
    assert LeadingZeros([0]) == 1;
    assert Rebase([0], 58, 256) == Zeros(1) + [] == [0];
  }

  /** Printing what was decoded gives the same text, leading ones included. */
  lemma EncodeDecoded(s: string)
    requires Decode(s).Ok?
    ensures Encode(Decode(s).value) == s
  {
    hide Rebase, Spell, Unspell, IsSpelled;
    RebaseBack(Unspell(s), 58, 256);
    SpellUnspelled(s);
  }

  // ----- The loops -----

  lemma RebaseOf(digits: seq<nat>, from: nat, to: nat, zeros: nat, number: nat)
    requires from >= 2 && to >= 2 && zeros == LeadingZeros(digits) && number == Value(digits, from)
    ensures Rebase(digits, from, to) == Zeros(zeros) + Digits(number, to)
  {
  }

  method NumberOf(digits: seq<nat>, base: nat) returns (number: nat)
    ensures number == Value(digits, base)
  {
    number := 0;
    for i := 0 to |digits|
      invariant number == Value(digits[..i], base)
    {
      ValueSnoc(digits[..i], digits[i], base);
      assert digits[..i + 1] == digits[..i] + [digits[i]];
      number := number * base + digits[i];
    }
    assert digits[..|digits|] == digits;
  }

  /** The characters of a number, the last one first. */
  method SpellNumber(whole: nat) returns (encoded: string)
    ensures encoded == Spell(Digits(whole, 58))
  {
    hide Ascending;
    var number := whole;
    ghost var digits: seq<nat> := [];
    encoded := "";
    AlphabetAscends();
    assert Digits(whole, 58) + [] == Digits(whole, 58);
    while number > 0
      invariant InBase(digits, 58) && encoded == Spell(digits)
      invariant Digits(whole, 58) == Digits(number, 58) + digits
    {
      SpellOneMore(number % 58, digits);
      assert Digits(number / 58, 58) + ([number % 58] + digits) == Digits(number, 58) + digits;
      digits := [number % 58] + digits;
      encoded := [ALPHABET[number % 58]] + encoded;
      number := number / 58;
    }
    assert [] + digits == digits;
  }

  lemma SpellOneMore(d: nat, digits: seq<nat>)
    requires d < 58 && InBase(digits, 58)
    ensures |ALPHABET| == 58 && Spell([d] + digits) == [ALPHABET[d]] + Spell(digits)
  {
  }

  method EncodeBase58(bytes: seq<Byte>) returns (encoded: string)
    ensures encoded == Encode(bytes)
  {
    hide Value, LeadingZeros, Digits, Ascending, Spell;
    var number := NumberOf(bytes, 256);
    encoded := SpellNumber(number);
    ghost var digits := Digits(number, 58);
    AlphabetAscends();
    var zeros := 0;
    assert Zeros(0) + digits == digits;
    while zeros < |bytes| && bytes[zeros] == 0
      invariant zeros <= |bytes| && forall i :: 0 <= i < zeros ==> bytes[i] == 0
      invariant encoded == Spell(Zeros(zeros) + digits)
    {
      SpellOneMore(0, Zeros(zeros) + digits);
      assert Zeros(zeros + 1) + digits == [0] + (Zeros(zeros) + digits);
      encoded := "1" + encoded;
      zeros := zeros + 1;
    }
    CountsZeros(bytes, zeros);
    RebaseOf(bytes, 256, 58, zeros, number);
    if encoded == "" {
      encoded := "1";
    }
  }

  lemma CountsZeros(digits: seq<nat>, n: nat)
    requires n <= |digits| && (forall i :: 0 <= i < n ==> digits[i] == 0) && (n < |digits| ==> digits[n] != 0)
    ensures LeadingZeros(digits) == n
  {
  }

  lemma UnspellNext(s: string, i: nat)
    requires i < |s| && IsSpelled(s[..i])
    ensures s[i] in ALPHABET ==>
              && IsSpelled(s[..i + 1]) && |ALPHABET| == 58 && DigitOf(s[i]) == IndexOf(ALPHABET, s[i])
              && Unspell(s[..i + 1]) == Unspell(s[..i]) + [DigitOf(s[i])]
    ensures s[i] !in ALPHABET ==> !IsSpelled(s)
  {
    AlphabetAscends();
    hide Ascending;
    assert s[..i + 1] == s[..i] + [s[i]];
  }

  /** The number that a text spells, unless one of its characters is not in the alphabet. */
  method UnspellNumber(value: string) returns (number: Option<nat>)
    ensures number == if IsSpelled(value) then Some(Value(Unspell(value), 58)) else None
  {
    hide Value, DigitOf, IsSpelled, Unspell;
    var sum: nat := 0;
    NothingSpelled();
    for i := 0 to |value|
      invariant IsSpelled(value[..i]) && sum == Value(Unspell(value[..i]), 58)
    {
      UnspellNext(value, i);
      var digit := IndexOf(ALPHABET, value[i]);
      if digit < 0 {
        return None;
      }
      ValueSnoc(Unspell(value[..i]), digit, 58);
      sum := sum * 58 + digit;
    }
    assert value[..|value|] == value;
    number := Some(sum);
  }

  lemma NothingSpelled()
    ensures IsSpelled("") && Unspell("") == [] && Value([], 58) == 0
  {
  }

  /** The bytes of a number, taken from the least significant one and put in reverse. */
  method BytesOfNumber(whole: nat) returns (bytes: seq<Byte>)
    ensures bytes == Digits(whole, 256)
  {
    var number := whole;
    bytes := [];
    assert Digits(whole, 256) + [] == Digits(whole, 256);
    while number > 0
      invariant Digits(whole, 256) == Digits(number, 256) + bytes
    {
      assert Digits(number / 256, 256) + ([number % 256] + bytes) == Digits(number, 256) + bytes;
      bytes := [number % 256] + bytes;
      number := number / 256;
    }
    assert [] + bytes == bytes;
  }

  method CountLeadingOnes(value: string) returns (zeros: nat)
    requires IsSpelled(value)
    ensures zeros == LeadingZeros(Unspell(value))
  {
    hide LeadingZeros, Unspell, IsSpelled;
    OnesAreZeros(value);
    zeros := 0;
    while zeros < |value| && value[zeros] == '1'
      invariant zeros <= |value| && forall i :: 0 <= i < zeros ==> value[i] == '1'
    {
      zeros := zeros + 1;
    }
    CountsZeros(Unspell(value), zeros);
  }

  lemma OnesAreZeros(s: string)
    requires IsSpelled(s)
    ensures forall i :: 0 <= i < |s| ==> (Unspell(s)[i] == 0 <==> s[i] == '1')
  {
  }

  method DecodeBase58(value: string) returns (r: Result<seq<Byte>, Base58Fault>)
    ensures r == Decode(value)
  {
    hide LeadingZeros, Value, Digits, IsSpelled, Unspell;
    if |value| < 1 || |value| > MAX_LENGTH {
      return Err(InvalidLength);
    }
    var number := UnspellNumber(value);
    if number.None? {
      return Err(InvalidCharacter);
    }
    var bytes := BytesOfNumber(number.value);
    var zeros := CountLeadingOnes(value);
    RebaseOf(Unspell(value), 58, 256, zeros, number.value);
    r := Ok(AsBytes(Zeros(zeros)) + bytes);
  }

}
