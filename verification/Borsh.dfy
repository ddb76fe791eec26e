/** The binary form of program events: what each field kind is written as, and the reader that takes it apart. */
module Borsh {
  import opened Wrappers

  type Byte = n: int | 0 <= n < 256

  // ----- Little-endian numbers -----

  function Power(k: nat): (p: nat)
    ensures p >= 1
  {
    if k == 0 then 1 else 256 * Power(k - 1)
  }

  function Number(bytes: seq<Byte>): (n: nat)
    ensures n < Power(|bytes|)
  {
    if bytes == [] then 0 else bytes[0] + 256 * Number(bytes[1..])
  }

  function Digits(n: nat, k: nat): (bytes: seq<Byte>)
    ensures |bytes| == k
  {
    if k == 0 then [] else [n % 256] + Digits(n / 256, k - 1)
  }

  lemma LowestDigit(digit: Byte, n: nat)
    ensures (digit + 256 * n) % 256 == digit && (digit + 256 * n) / 256 == n
  {
  }

  lemma {:induction false} DigitsOfNumber(bytes: seq<Byte>)
    ensures Digits(Number(bytes), |bytes|) == bytes
  {
    if bytes != [] {
      DigitsOfNumber(bytes[1..]);
      LowestDigit(bytes[0], Number(bytes[1..]));
      assert bytes == [bytes[0]] + bytes[1..];
    }
  }

  lemma {:induction false} NumberOfDigits(n: nat, k: nat)
    requires n < Power(k)
    ensures Number(Digits(n, k)) == n
  {
    if k > 0 {
      NumberOfDigits(n / 256, k - 1);
      assert Digits(n, k)[1..] == Digits(n / 256, k - 1);
    }
  }

  // ----- Field kinds and their values -----

  /** The kinds of fields that events are made of. A variant is one byte in a range. */
  datatype Kind =
    | Unsigned(width: nat) | I64 | Bool | Variant(low: Byte, high: Byte) | Bytes(length: nat) | Text
    | KeyVector | SplitVector | AmountVector | TrailingU16

  datatype Split = Split(recipient: seq<Byte>, destination: seq<Byte>, basisPoints: nat)

  datatype Value =
    | Whole(n: int) | Flag(b: bool) | Blob(bytes: seq<Byte>) | Keys(keys: seq<seq<Byte>>) | Splits(splits: seq<Split>)
    | Amounts(amounts: seq<nat>) | Trailing(n16: Option<nat>)

  const MAX_KEYS := 5
  const MAX_SPLITS := 3
  const MAX_AMOUNTS := 3

  predicate IsKey(key: seq<Byte>) {
    |key| == 32
  }

  predicate IsSplit(s: Split) {
    IsKey(s.recipient) && IsKey(s.destination) && s.basisPoints < Power(2)
  }

  /** The values that a field of a kind can have. */
  predicate Fits(k: Kind, v: Value) {
    match k
    case Unsigned(width) => v.Whole? && 0 <= v.n < Power(width)
    case I64 => v.Whole? && -(Power(8) / 2) <= v.n < Power(8) / 2
    case Bool => v.Flag?
    case Variant(low, high) => v.Whole? && low <= v.n <= high
    case Bytes(length) => v.Blob? && |v.bytes| == length
    case Text => v.Blob? && |v.bytes| < Power(4)
    case KeyVector => v.Keys? && |v.keys| <= MAX_KEYS && forall i :: 0 <= i < |v.keys| ==> IsKey(v.keys[i])
    case SplitVector => v.Splits? && |v.splits| <= MAX_SPLITS && forall i :: 0 <= i < |v.splits| ==>
        IsSplit(v.splits[i])
    case AmountVector => v.Amounts? && |v.amounts| <= MAX_AMOUNTS && forall i :: 0 <= i < |v.amounts| ==>
        v.amounts[i] < Power(8)
    case TrailingU16 => v.Trailing? && (v.n16.Some? ==> v.n16.value < Power(2))
  }

  // ----- Writing -----

  function WriteSplit(s: Split): seq<Byte> {
    s.recipient + s.destination + Digits(s.basisPoints, 2)
  }

  function Concat<T>(xs: seq<T>, write: T -> seq<Byte>): seq<Byte> {
    if xs == [] then [] else write(xs[0]) + Concat(xs[1..], write)
  }

  function WriteKey(key: seq<Byte>): seq<Byte> {
    key
  }

  function WriteAmount(n: nat): seq<Byte> {
    Digits(n, 8)
  }

  function Write(k: Kind, v: Value): seq<Byte>
    requires Fits(k, v)
  {
    match k
    case Unsigned(width) => Digits(v.n, width)
    case I64 => Digits(if v.n < 0 then v.n + Power(8) else v.n, 8)
    case Bool => [if v.b then 1 else 0]
    case Variant(_, _) => [v.n]
    case Bytes(_) => v.bytes
    case Text => Digits(|v.bytes|, 4) + v.bytes
    case KeyVector => Digits(|v.keys|, 4) + Concat(v.keys, WriteKey)
    case SplitVector => Digits(|v.splits|, 4) + Concat(v.splits, WriteSplit)
    case AmountVector => Digits(|v.amounts|, 4) + Concat(v.amounts, WriteAmount)
    case TrailingU16 => if v.n16.Some? then Digits(v.n16.value, 2) else []
  }

  // ----- Reading, on what is left of the data -----

  datatype DecodingFault = EndedEarly | InvalidBoolean | TooManyEntries | UnknownVariant | MalformedTrailer
    | TrailingBytes | TooShort | Unsupported

  /** What was read, and what is left. */
  datatype Parsed<T> = Parsed(value: T, rest: seq<Byte>)

  type Reading<T> = Result<Parsed<T>, DecodingFault>

  function ReadBytes(data: seq<Byte>, n: nat): (r: Reading<seq<Byte>>)
    ensures r.Ok? ==> |r.value.rest| == |data| - n
  {
    if n > |data| then Err(EndedEarly) else Ok(Parsed(data[..n], data[n..]))
  }

  function ReadNumber(data: seq<Byte>, width: nat): Reading<nat> {
    var r :- ReadBytes(data, width);
    Ok(Parsed(Number(r.value), r.rest))
  }

  function ReadSplit(data: seq<Byte>): Reading<Split> {
    var recipient :- ReadBytes(data, 32);
    var destination :- ReadBytes(recipient.rest, 32);
    var points :- ReadNumber(destination.rest, 2);
    Ok(Parsed(Split(recipient.value, destination.value, points.value), points.rest))
  }

  function ReadKey(data: seq<Byte>): Reading<seq<Byte>> {
    ReadBytes(data, 32)
  }

  function ReadAmount(data: seq<Byte>): Reading<nat> {
    ReadNumber(data, 8)
  }

  function ReadEntries<T>(data: seq<Byte>, n: nat, read: seq<Byte> -> Reading<T>): Reading<seq<T>>
    decreases n
  {
    if n == 0 then Ok(Parsed([], data))
    else
      var first :- read(data);
      var others :- ReadEntries(first.rest, n - 1, read);
      Ok(Parsed([first.value] + others.value, others.rest))
  }

  function ReadVector<T>(data: seq<Byte>, most: nat, read: seq<Byte> -> Reading<T>): Reading<seq<T>> {
    var length :- ReadNumber(data, 4);
    if length.value > most then Err(TooManyEntries) else ReadEntries(length.rest, length.value, read)
  }

  function Read(k: Kind, data: seq<Byte>): Reading<Value> {
    match k
    case Unsigned(width) =>
      var r :- ReadNumber(data, width);
      Ok(Parsed(Whole(r.value), r.rest))
    case I64 =>
      var r :- ReadNumber(data, 8);
      Ok(Parsed(Whole(if r.value >= Power(8) / 2 then r.value - Power(8) else r.value), r.rest))
    case Bool =>
      var r :- ReadBytes(data, 1);
      if r.value[0] > 1 then Err(InvalidBoolean) else Ok(Parsed(Flag(r.value[0] == 1), r.rest))
    case Variant(low, high) =>
      var r :- ReadBytes(data, 1);
      if low <= r.value[0] <= high then Ok(Parsed(Whole(r.value[0]), r.rest)) else Err(UnknownVariant)
    case Bytes(length) =>
      var r :- ReadBytes(data, length);
      Ok(Parsed(Blob(r.value), r.rest))
    case Text =>
      var length :- ReadNumber(data, 4);
      var r :- ReadBytes(length.rest, length.value);
      Ok(Parsed(Blob(r.value), r.rest))
    case KeyVector =>
      var r :- ReadVector(data, MAX_KEYS, ReadKey);
      Ok(Parsed(Keys(r.value), r.rest))
    case SplitVector =>
      var r :- ReadVector(data, MAX_SPLITS, ReadSplit);
      Ok(Parsed(Splits(r.value), r.rest))
    case AmountVector =>
      var r :- ReadVector(data, MAX_AMOUNTS, ReadAmount);
      Ok(Parsed(Amounts(r.value), r.rest))
    case TrailingU16 =>
      if data == [] then Ok(Parsed(Trailing(None), data))
      else if |data| != 2 then Err(MalformedTrailer)
      else
        var r :- ReadNumber(data, 2);
        Ok(Parsed(Trailing(Some(r.value)), r.rest))
  }

  // ----- Numbers and bytes -----

  lemma ReadsBytes(bytes: seq<Byte>, rest: seq<Byte>)
    ensures ReadBytes(bytes + rest, |bytes|) == Ok(Parsed(bytes, rest))
  {
  }

  lemma ReadsNumber(n: nat, width: nat, rest: seq<Byte>)
    requires n < Power(width)
    ensures ReadNumber(Digits(n, width) + rest, width) == Ok(Parsed(n, rest))
  {
  }

  lemma NumberWasWritten(data: seq<Byte>, width: nat)
    requires ReadNumber(data, width).Ok?
    ensures var r := ReadNumber(data, width).value;
            r.value < Power(width) && data == Digits(r.value, width) + r.rest
  {
    DigitsOfNumber(data[..width]);
    assert data == data[..width] + data[width..];
  }

  // ----- Vectors of entries -----

  /** Reading and writing an entry are inverse to each other. */
  ghost predicate AreInverse<T(!new)>(read: seq<Byte> -> Reading<T>, write: T -> seq<Byte>, fits: T -> bool) {
    && (forall x, rest :: fits(x) ==> read(write(x) + rest) == Ok(Parsed(x, rest)))
    && (forall data :: read(data).Ok? ==>
        fits(read(data).value.value) && data == write(read(data).value.value) + read(data).value.rest)
  }

  lemma {:induction false} ReadsEntries<T(!new)>(xs: seq<T>, rest: seq<Byte>, read: seq<Byte> -> Reading<T>,
                                                 write: T -> seq<Byte>,
                                           fits: T -> bool)
    requires AreInverse(read, write, fits) && forall i :: 0 <= i < |xs| ==> fits(xs[i])
    ensures ReadEntries(Concat(xs, write) + rest, |xs|, read) == Ok(Parsed(xs, rest))
  {
    if xs != [] {
      ReadsEntries(xs[1..], rest, read, write, fits);
      assert Concat(xs, write) + rest == write(xs[0]) + (Concat(xs[1..], write) + rest);
      assert xs == [xs[0]] + xs[1..];
    } else {
      assert [] + rest == rest;
    }
  }

  lemma {:induction false} EntriesWereWritten<T(!new)>(data: seq<Byte>, n: nat, read: seq<Byte> -> Reading<T>,
                                                       write: T -> seq<Byte>,
                                                 fits: T -> bool)
    requires AreInverse(read, write, fits) && ReadEntries(data, n, read).Ok?
    ensures var r := ReadEntries(data, n, read).value;
            && |r.value| == n && (forall i :: 0 <= i < n ==> fits(r.value[i]))
            && data == Concat(r.value, write) + r.rest
    decreases n
  {
    if n > 0 {
      var first := read(data).value;
      EntriesWereWritten(first.rest, n - 1, read, write, fits);
      var r := ReadEntries(data, n, read).value;
      var others := ReadEntries(first.rest, n - 1, read).value;
      assert r.value == [first.value] + others.value && r.value[1..] == others.value;
      Associative(write(first.value), Concat(others.value, write), r.rest);
    }
  }

  lemma Associative(a: seq<Byte>, b: seq<Byte>, c: seq<Byte>)
    ensures a + b + c == a + (b + c)
  {
  }

  lemma ReadsVector<T(!new)>(xs: seq<T>, rest: seq<Byte>, most: nat, read: seq<Byte> -> Reading<T>,
                             write: T -> seq<Byte>, fits: T -> bool)
    requires AreInverse(read, write, fits) && (forall i :: 0 <= i < |xs| ==> fits(xs[i])) && |xs| <= most < Power(4)
    ensures ReadVector(Digits(|xs|, 4) + Concat(xs, write) + rest, most, read) == Ok(Parsed(xs, rest))
  {
    hide Power, Digits, Number, AreInverse, Concat, ReadEntries, ReadNumber;
    ReadsNumber(|xs|, 4, Concat(xs, write) + rest);
    Associative(Digits(|xs|, 4), Concat(xs, write), rest);
    ReadsEntries(xs, rest, read, write, fits);
  }

  lemma VectorWasWritten<T(!new)>(data: seq<Byte>, most: nat, read: seq<Byte> -> Reading<T>, write: T -> seq<Byte>,
                                  fits: T -> bool)
    requires AreInverse(read, write, fits) && ReadVector(data, most, read).Ok?
    ensures var r := ReadVector(data, most, read).value;
            && |r.value| <= most && (forall i :: 0 <= i < |r.value| ==> fits(r.value[i]))
            && data == Digits(|r.value|, 4) + Concat(r.value, write) + r.rest
  {
    hide Power, Digits, Number, AreInverse;
    NumberWasWritten(data, 4);
    var length := ReadNumber(data, 4).value;
    EntriesWereWritten(length.rest, length.value, read, write, fits);
  }

  lemma KeysAreInverse()
    ensures AreInverse(ReadKey, WriteKey, IsKey)
  {
  }

  predicate IsAmount(n: nat) {
    n < Power(8)
  }

  lemma AmountsAreInverse()
    ensures AreInverse(ReadAmount, WriteAmount, IsAmount)
  {
    hide Power, Digits, Number;
    forall x: nat, rest | IsAmount(x) ensures ReadAmount(WriteAmount(x) + rest) == Ok(Parsed(x, rest)) {
      ReadsNumber(x, 8, rest);
    }
    forall data | ReadAmount(data).Ok?
      ensures IsAmount(ReadAmount(data).value.value)
              && data == WriteAmount(ReadAmount(data).value.value) + ReadAmount(data).value.rest
    {
      NumberWasWritten(data, 8);
    }
  }

  lemma ReadsSplit(s: Split, rest: seq<Byte>)
    requires IsSplit(s)
    ensures ReadSplit(WriteSplit(s) + rest) == Ok(Parsed(s, rest))
  {
    hide Power, Digits, Number;
    var points := Digits(s.basisPoints, 2);
    assert WriteSplit(s) + rest == s.recipient + (s.destination + (points + rest));
    ReadsBytes(s.recipient, s.destination + (points + rest));
    ReadsBytes(s.destination, points + rest);
    ReadsNumber(s.basisPoints, 2, rest);
  }

  lemma SplitWasWritten(data: seq<Byte>)
    requires ReadSplit(data).Ok?
    ensures IsSplit(ReadSplit(data).value.value)
            && data == WriteSplit(ReadSplit(data).value.value) + ReadSplit(data).value.rest
  {
    hide Power, Digits, Number;
    var after := data[32..];
    NumberWasWritten(after[32..], 2);
    assert after == after[..32] + after[32..];
    assert data == data[..32] + after;
  }

  lemma SplitsAreInverse()
    ensures AreInverse(ReadSplit, WriteSplit, IsSplit)
  {
    hide Power, Digits, Number;
    forall s, rest | IsSplit(s) ensures ReadSplit(WriteSplit(s) + rest) == Ok(Parsed(s, rest)) {
      ReadsSplit(s, rest);
    }
    forall data | ReadSplit(data).Ok?
      ensures IsSplit(ReadSplit(data).value.value)
              && data == WriteSplit(ReadSplit(data).value.value) + ReadSplit(data).value.rest
    {
      SplitWasWritten(data);
    }
  }

  // ----- One field -----

  /** Reading a written field gives its value back and leaves what follows; a trailer has nothing after it. */
  lemma ReadsWritten(k: Kind, v: Value, rest: seq<Byte>)
    requires Fits(k, v) && (k.TrailingU16? ==> rest == [])
    ensures Read(k, Write(k, v) + rest) == Ok(Parsed(v, rest))
  {
    hide Power, Digits, Number;
    SmallPowers();
    match k
    case Unsigned(width) => ReadsNumber(v.n, width, rest);
    case I64 => ReadsNumber(if v.n < 0 then v.n + Power(8) else v.n, 8, rest);
    case Bool => ReadsBytes(Write(k, v), rest);
    case Variant(_, _) => ReadsBytes(Write(k, v), rest);
    case Bytes(_) => ReadsBytes(v.bytes, rest);
    case Text =>
      assert Write(k, v) + rest == Digits(|v.bytes|, 4) + (v.bytes + rest);
      ReadsNumber(|v.bytes|, 4, v.bytes + rest);
      ReadsBytes(v.bytes, rest);
    case KeyVector =>
      KeysAreInverse();
      ReadsVector(v.keys, rest, MAX_KEYS, ReadKey, WriteKey, IsKey);
    case SplitVector =>
      SplitsAreInverse();
      ReadsVector(v.splits, rest, MAX_SPLITS, ReadSplit, WriteSplit, IsSplit);
    case AmountVector =>
      AmountsAreInverse();
      ReadsVector(v.amounts, rest, MAX_AMOUNTS, ReadAmount, WriteAmount, IsAmount);
    case TrailingU16 =>
      if v.n16.Some? {
        ReadsNumber(v.n16.value, 2, []);
      }
      assert Write(k, v) + rest == Write(k, v);
  }

  lemma SmallPowers()
    ensures Power(4) == 0x1_0000_0000 && Power(8) == 0x1_0000_0000_0000_0000 && Power(2) == 0x1_0000 && Power(1) == 256
  {
  }

  ghost predicate WasWritten(k: Kind, data: seq<Byte>) {
    Read(k, data).Ok? ==>
      var r := Read(k, data).value;
      Fits(k, r.value) && data == Write(k, r.value) + r.rest && (k.TrailingU16? ==> r.rest == [])
  }

  lemma VectorFieldWasWritten(k: Kind, data: seq<Byte>)
    requires k.KeyVector? || k.SplitVector? || k.AmountVector?
    ensures WasWritten(k, data)
  {
    hide Power, Digits, Number, ReadVector, AreInverse, IsKey, IsSplit;
    if Read(k, data).Ok? {
      match k
      case KeyVector =>
        KeysAreInverse();
        VectorWasWritten(data, MAX_KEYS, ReadKey, WriteKey, IsKey);
      case SplitVector =>
        SplitsAreInverse();
        VectorWasWritten(data, MAX_SPLITS, ReadSplit, WriteSplit, IsSplit);
      case AmountVector =>
        AmountsAreInverse();
        VectorWasWritten(data, MAX_AMOUNTS, ReadAmount, WriteAmount, IsAmount);
    }
  }

  lemma NumberFieldWasWritten(k: Kind, data: seq<Byte>)
    requires k.Unsigned? || k.I64? || k.TrailingU16?
    ensures WasWritten(k, data)
  {
    hide Power, Digits, Number;
    SmallPowers();
    if Read(k, data).Ok? {
      match k
      case Unsigned(width) => NumberWasWritten(data, width);
      case I64 => NumberWasWritten(data, 8);
      case TrailingU16 =>
        if data != [] {
          NumberWasWritten(data, 2);
        }
    }
  }

  lemma BytesFieldWasWritten(k: Kind, data: seq<Byte>)
    requires k.Bool? || k.Variant? || k.Bytes? || k.Text?
    ensures WasWritten(k, data)
  {
    hide Power, Digits, Number;
    if Read(k, data).Ok? {
      match k
      case Bool => assert data == data[..1] + data[1..];
      case Variant(_, _) => assert data == data[..1] + data[1..];
      case Bytes(length) => assert data == data[..length] + data[length..];
      case Text =>
        NumberWasWritten(data, 4);
        var length := ReadNumber(data, 4).value;
        assert length.rest == length.rest[..length.value] + length.rest[length.value..];
    }
  }

  /** Whatever a field is read from was written for the value that was read. */
  lemma ReadWasWritten(k: Kind, data: seq<Byte>)
    requires Read(k, data).Ok?
    ensures var r := Read(k, data).value;
            Fits(k, r.value) && data == Write(k, r.value) + r.rest && (k.TrailingU16? ==> r.rest == [])
  {
    hide Read, Fits, Write;
    if k.KeyVector? || k.SplitVector? || k.AmountVector? {
      VectorFieldWasWritten(k, data);
    } else if k.Unsigned? || k.I64? || k.TrailingU16? {
      NumberFieldWasWritten(k, data);
    } else {
      BytesFieldWasWritten(k, data);
    }
  }

  // ----- Whole events -----

  /** A trailer can only come last. */
  predicate IsLayout(kinds: seq<Kind>) {
    forall i :: 0 <= i < |kinds| - 1 ==> !kinds[i].TrailingU16?
  }

  predicate AllFit(kinds: seq<Kind>, values: seq<Value>) {
    |values| == |kinds| && forall i :: 0 <= i < |kinds| ==> Fits(kinds[i], values[i])
  }

  function WriteAll(kinds: seq<Kind>, values: seq<Value>): seq<Byte>
    requires AllFit(kinds, values)
  {
    if kinds == [] then [] else Write(kinds[0], values[0]) + WriteAll(kinds[1..], values[1..])
  }

  /** Reads the fields one after another; nothing may be left at the end. */
  function ReadAll(kinds: seq<Kind>, data: seq<Byte>): Result<seq<Value>, DecodingFault> {
    if kinds == [] then if data == [] then Ok([]) else Err(TrailingBytes)
    else
      var first :- Read(kinds[0], data);
      var others :- ReadAll(kinds[1..], first.rest);
      Ok([first.value] + others)
  }

  lemma {:induction false} ReadsAllWritten(kinds: seq<Kind>, values: seq<Value>)
    requires IsLayout(kinds) && AllFit(kinds, values)
    ensures ReadAll(kinds, WriteAll(kinds, values)) == Ok(values)
  {
    hide Read, Write, Fits;
    if kinds != [] {
      ReadsWritten(kinds[0], values[0], WriteAll(kinds[1..], values[1..]));
      ReadsAllWritten(kinds[1..], values[1..]);
      assert values == [values[0]] + values[1..];
    }
  }

  lemma {:induction false} AllReadWasWritten(kinds: seq<Kind>, data: seq<Byte>)
    requires ReadAll(kinds, data).Ok?
    ensures var values := ReadAll(kinds, data).value;
            AllFit(kinds, values) && data == WriteAll(kinds, values)
  {
    hide Read, Write, Fits;
    if kinds != [] {
      var first := Read(kinds[0], data).value;
      ReadWasWritten(kinds[0], data);
      AllReadWasWritten(kinds[1..], first.rest);
      var values := ReadAll(kinds, data).value;
      assert values[1..] == ReadAll(kinds[1..], first.rest).value;
    }
  }

  /** The reader accepts exactly what the writer can produce, and returns the values that were written. */
  lemma ReaderInvertsWriter(kinds: seq<Kind>, data: seq<Byte>, values: seq<Value>)
    requires IsLayout(kinds)
    ensures ReadAll(kinds, data) == Ok(values) <==> AllFit(kinds, values) && data == WriteAll(kinds, values)
  {
    if AllFit(kinds, values) {
      ReadsAllWritten(kinds, values);
    }
    if ReadAll(kinds, data).Ok? {
      AllReadWasWritten(kinds, data);
    }
  }

  // ----- The reader with its moving offset -----

  /** A read returned what reading the remaining data means, and moved past it. */
  ghost predicate DidRead<T>(r: Result<T, DecodingFault>, reading: Reading<T>, rest: seq<Byte>) {
    if reading.Err? then r == Err(reading.error) else r == Ok(reading.value.value) && rest == reading.value.rest
  }

  class BorshReader {
    const value: seq<Byte>
    var offset: nat

    function Rest(): seq<Byte>
      reads this
    {
      if offset <= |value| then value[offset..] else []
    }

    constructor (value: seq<Byte>)
      ensures this.value == value && offset == 0 && Rest() == value
    {
      this.value := value;
      offset := 0;
    }

    method TakeBytes(length: nat) returns (r: Result<seq<Byte>, DecodingFault>)
      requires offset <= |value|
      modifies this
      ensures offset <= |value| && DidRead(r, ReadBytes(old(Rest()), length), Rest())
    {
      if offset + length > |value| {
        return Err(EndedEarly);
      }
      assert value[offset..][..length] == value[offset..offset + length];
      assert value[offset..][length..] == value[offset + length..];
      r := Ok(value[offset..offset + length]);
      offset := offset + length;
    }

    /** An unsigned number of some width, from its most significant byte down. */
    method TakeNumber(width: nat) returns (r: Result<nat, DecodingFault>)
      requires offset <= |value|
      modifies this
      ensures offset <= |value| && DidRead(r, ReadNumber(old(Rest()), width), Rest())
    {
      var taken := TakeBytes(width);
      if taken.Err? {
        return Err(taken.error);
      }
      var bytes := taken.value;
      var result: nat := 0;
      var index: nat := |bytes|;
      while index > 0
        invariant index <= |bytes| && result == Number(bytes[index..])
      {
        index := index - 1;
        assert bytes[index..][1..] == bytes[index + 1..];
        result := result * 256 + bytes[index];
      }
      assert bytes[0..] == bytes;
      r := Ok(result);
    }

    method TakeKeys(n: nat) returns (r: Result<seq<seq<Byte>>, DecodingFault>)
      requires offset <= |value|
      modifies this
      ensures offset <= |value| && DidRead(r, ReadEntries(old(Rest()), n, ReadKey), Rest())
    {
      var keys: seq<seq<Byte>> := [];
      ghost var start := Rest();
      PrefixedByNothing(ReadEntries(start, n, ReadKey));
      for i := 0 to n
        invariant offset <= |value| && |keys| == i
        invariant ReadEntries(start, n, ReadKey) == Prefixed(keys, ReadEntries(Rest(), n - i, ReadKey))
      {
        PrefixedByOneMore(keys, Rest(), n - i, ReadKey);
        var key := TakeBytes(32);
        if key.Err? {
          return Err(key.error);
        }
        keys := keys + [key.value];
      }
      assert keys + [] == keys;
      r := Ok(keys);
    }

    method TakeSplit() returns (r: Result<Split, DecodingFault>)
      requires offset <= |value|
      modifies this
      ensures offset <= |value| && DidRead(r, ReadSplit(old(Rest())), Rest())
    {
      hide ReadBytes, ReadNumber;
      var recipient := TakeBytes(32);
      if recipient.Err? {
        return Err(recipient.error);
      }
      var destination := TakeBytes(32);
      if destination.Err? {
        return Err(destination.error);
      }
      var points := TakeNumber(2);
      if points.Err? {
        return Err(points.error);
      }
      r := Ok(Split(recipient.value, destination.value, points.value));
    }

    method TakeSplits(n: nat) returns (r: Result<seq<Split>, DecodingFault>)
      requires offset <= |value|
      modifies this
      ensures offset <= |value| && DidRead(r, ReadEntries(old(Rest()), n, ReadSplit), Rest())
    {
      hide ReadSplit;
      var splits: seq<Split> := [];
      ghost var start := Rest();
      PrefixedByNothing(ReadEntries(start, n, ReadSplit));
      for i := 0 to n
        invariant offset <= |value| && |splits| == i
        invariant ReadEntries(start, n, ReadSplit) == Prefixed(splits, ReadEntries(Rest(), n - i, ReadSplit))
      {
        PrefixedByOneMore(splits, Rest(), n - i, ReadSplit);
        var split := TakeSplit();
        if split.Err? {
          return Err(split.error);
        }
        splits := splits + [split.value];
      }
      assert splits + [] == splits;
      r := Ok(splits);
    }

    method TakeAmounts(n: nat) returns (r: Result<seq<nat>, DecodingFault>)
      requires offset <= |value|
      modifies this
      ensures offset <= |value| && DidRead(r, ReadEntries(old(Rest()), n, ReadAmount), Rest())
    {
      hide Power, Digits, Number;
      var amounts: seq<nat> := [];
      ghost var start := Rest();
      PrefixedByNothing(ReadEntries(start, n, ReadAmount));
      for i := 0 to n
        invariant offset <= |value| && |amounts| == i
        invariant ReadEntries(start, n, ReadAmount) == Prefixed(amounts, ReadEntries(Rest(), n - i, ReadAmount))
      {
        PrefixedByOneMore(amounts, Rest(), n - i, ReadAmount);
        var amount := TakeNumber(8);
        if amount.Err? {
          return Err(amount.error);
        }
        amounts := amounts + [amount.value];
      }
      assert amounts + [] == amounts;
      r := Ok(amounts);
    }

    /** The length of a vector of at most a number of entries. */
    method TakeLength(most: nat) returns (r: Result<nat, DecodingFault>)
      requires offset <= |value|
      modifies this
      ensures offset <= |value|
      ensures var length := ReadNumber(old(Rest()), 4);
              if length.Err? then r == Err(length.error)
              else if length.value.value > most then r == Err(TooManyEntries)
              else r == Ok(length.value.value) && Rest() == length.value.rest
    {
      r := TakeNumber(4);
      if r.Ok? && r.value > most {
        r := Err(TooManyEntries);
      }
    }

    /** One field of an event. */
    method TakeField(k: Kind) returns (r: Result<Value, DecodingFault>)
      requires offset <= |value|
      modifies this
      ensures offset <= |value| && DidRead(r, Read(k, old(Rest())), Rest())
    {
      hide Power, Digits, Number, ReadEntries;
      match k {
        case Unsigned(width) =>
          var n := TakeNumber(width);
          r := if n.Ok? then Ok(Whole(n.value)) else Err(n.error);
        case I64 =>
          var n := TakeNumber(8);
          r := if n.Err? then Err(n.error)
               else Ok(Whole(if n.value >= Power(8) / 2 then n.value - Power(8) else n.value));
        case Bool =>
          r := TakeVariant(0, 1);
          r := if r.Ok? then Ok(Flag(r.value.n == 1))
               else Err(if r.error == UnknownVariant then InvalidBoolean else r.error);
        case Variant(low, high) =>
          r := TakeVariant(low, high);
        case Bytes(length) =>
          var bytes := TakeBytes(length);
          r := if bytes.Ok? then Ok(Blob(bytes.value)) else Err(bytes.error);
        case Text =>
          var length := TakeNumber(4);
          if length.Err? {
            return Err(length.error);
          }
          var bytes := TakeBytes(length.value);
          r := if bytes.Ok? then Ok(Blob(bytes.value)) else Err(bytes.error);
        case KeyVector =>
          var length := TakeLength(MAX_KEYS);
          if length.Err? {
            return Err(length.error);
          }
          var keys := TakeKeys(length.value);
          r := if keys.Ok? then Ok(Keys(keys.value)) else Err(keys.error);
        case SplitVector =>
          var length := TakeLength(MAX_SPLITS);
          if length.Err? {
            return Err(length.error);
          }
          var splits := TakeSplits(length.value);
          r := if splits.Ok? then Ok(Splits(splits.value)) else Err(splits.error);
        case AmountVector =>
          var length := TakeLength(MAX_AMOUNTS);
          if length.Err? {
            return Err(length.error);
          }
          var amounts := TakeAmounts(length.value);
          r := if amounts.Ok? then Ok(Amounts(amounts.value)) else Err(amounts.error);
        case TrailingU16 =>
          var remaining := |value| - offset;
          if remaining == 0 {
            return Ok(Trailing(None));
          }
          if remaining != 2 {
            return Err(MalformedTrailer);
          }
          var n := TakeNumber(2);
          r := Ok(Trailing(Some(n.value)));
      }
    }

    /** One byte that must lie in a range. */
    method TakeVariant(low: Byte, high: Byte) returns (r: Result<Value, DecodingFault>)
      requires offset <= |value|
      modifies this
      ensures offset <= |value| && DidRead(r, Read(Variant(low, high), old(Rest())), Rest())
    {
      var byte := TakeBytes(1);
      r := if byte.Err? then Err(byte.error)
           else if low <= byte.value[0] <= high then Ok(Whole(byte.value[0]))
           else Err(UnknownVariant);
    }

    /** All the fields of an event, which must use up the data. */
    method TakeEvent(kinds: seq<Kind>) returns (r: Result<seq<Value>, DecodingFault>)
      requires offset <= |value|
      modifies this
      ensures r == ReadAll(kinds, old(Rest()))
      ensures r.Ok? ==> offset == |value|
    {
      hide Read;
      var values: seq<Value> := [];
      ghost var start := Rest();
      assert kinds[0..] == kinds;
      AfterNothing(ReadAll(kinds, start));
      for i := 0 to |kinds|
        invariant offset <= |value| && |values| == i
        invariant ReadAll(kinds, start) == After(values, ReadAll(kinds[i..], Rest()))
      {
        AfterOneMore(values, kinds[i..], Rest());
        var field := TakeField(kinds[i]);
        if field.Err? {
          return Err(field.error);
        }
        assert kinds[i..][1..] == kinds[i + 1..];
        values := values + [field.value];
      }
      assert values + [] == values;
      if offset != |value| {
        return Err(TrailingBytes);
      }
      r := Ok(values);
    }
  }

  ghost function Prefixed<T>(entries: seq<T>, reading: Reading<seq<T>>): Reading<seq<T>> {
    if reading.Err? then reading else Ok(Parsed(entries + reading.value.value, reading.value.rest))
  }

  lemma PrefixedByNothing<T>(reading: Reading<seq<T>>)
    ensures Prefixed([], reading) == reading
  {
    if reading.Ok? {
      assert [] + reading.value.value == reading.value.value;
    }
  }

  lemma PrefixedByOneMore<T>(entries: seq<T>, data: seq<Byte>, n: nat, read: seq<Byte> -> Reading<T>)
    requires n > 0
    ensures if read(data).Err? then ReadEntries(data, n, read) == Err(read(data).error)
            else Prefixed(entries, ReadEntries(data, n, read)) ==
                 Prefixed(entries + [read(data).value.value], ReadEntries(read(data).value.rest, n - 1, read))
  {
    if read(data).Ok? {
      var others := ReadEntries(read(data).value.rest, n - 1, read);
      if others.Ok? {
        assert entries + ([read(data).value.value] + others.value.value)
            == entries + [read(data).value.value] + others.value.value;
      }
    }
  }

  lemma AfterNothing(r: Result<seq<Value>, DecodingFault>)
    ensures After([], r) == r
  {
    if r.Ok? {
      assert [] + r.value == r.value;
    }
  }

  lemma AfterOneMore(values: seq<Value>, kinds: seq<Kind>, data: seq<Byte>)
    requires kinds != []
    ensures var first := Read(kinds[0], data);
            if first.Err? then ReadAll(kinds, data) == Err(first.error)
            else After(values, ReadAll(kinds, data)) ==
                 After(values + [first.value.value], ReadAll(kinds[1..], first.value.rest))
  {
    hide Read;
    var first := Read(kinds[0], data);
    if first.Ok? && ReadAll(kinds[1..], first.value.rest).Ok? {
      var others := ReadAll(kinds[1..], first.value.rest).value;
      assert values + ([first.value.value] + others) == values + [first.value.value] + others;
    }
  }

  ghost function After(values: seq<Value>, r: Result<seq<Value>, DecodingFault>): Result<seq<Value>, DecodingFault> {
    if r.Err? then r else Ok(values + r.value)
  }
}
