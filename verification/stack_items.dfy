/** The NeoVM values a contract invocation leaves on its result stack, as a
    closed tagged union, with the conversions the neo-go client library offers
    on them (`Convert`, `TryBytes`, `TryInteger`, `big.Int.Bytes`). */
module StackItems {
  import opened Base

  /** The item types of the VM that this plugin meets; `AnyT` is the type of Null. */
  datatype ItemType = AnyT | IntegerT | ByteArrayT | ArrayT | InteropT

  type IteratorId = string

  datatype StackItem =
    | ByteString(bytes: seq<byte>)
    | Integer(value: int)
      /** An Array or a Struct: both expose their elements as a list. */
    | Array(items: seq<StackItem>)
      /** An iterator handle; the node gives it an identifier only when sessions are enabled. */
    | Interop(iteratorId: Option<IteratorId>)
    | Null

  function TypeOf(item: StackItem): ItemType {
    match item
    case ByteString(_) => ByteArrayT
    case Integer(_) => IntegerT
    case Array(_) => ArrayT
    case Interop(_) => InteropT
    case Null => AnyT
  }

  datatype ConversionError = InvalidConversion(from: ItemType, to: ItemType) | TooBigInteger

  /** The widest integer a byte string may encode (256 bits). */
  const MaxIntegerBytes: nat := 32

  function Abs(v: int): nat {
    if v < 0 then -v else v
  }

  function Pow256(n: nat): nat {
    if n == 0 then 1 else 256 * Pow256(n - 1)
  }

  /** Minimal little-endian two's complement encoding, at least one byte. */
  function TwosComplement(v: int): (r: seq<byte>)
    ensures |r| >= 1
    decreases Abs(v)
  {
    if -128 <= v < 128 then [v % 256] else [v % 256] + TwosComplement(v / 256)
  }

  /** The byte-string form of an integer: zero is the empty string. */
  function IntToBytes(v: int): seq<byte> {
    if v == 0 then [] else TwosComplement(v)
  }

  function Unsigned(b: seq<byte>): nat {
    if b == [] then 0 else b[0] + 256 * Unsigned(b[1..])
  }

  /** The integer a little-endian two's complement byte string denotes. */
  function IntFromBytes(b: seq<byte>): int {
    if b != [] && b[|b| - 1] >= 128 then Unsigned(b) - Pow256(|b|) else Unsigned(b)
  }

  lemma {:induction false} TwosComplementRoundTrip(v: int)
    ensures IntFromBytes(TwosComplement(v)) == v
    decreases Abs(v)
  {
    if !(-128 <= v < 128) {
      var q := v / 256;
      var b := TwosComplement(q);
      TwosComplementRoundTrip(q);
      var r := TwosComplement(v);
      assert r == [v % 256] + b;
      assert r[1..] == b;
      assert r[|r| - 1] == b[|b| - 1];
      assert Unsigned(r) == v % 256 + 256 * Unsigned(b);
      assert Pow256(|r|) == 256 * Pow256(|b|);
    }
  }

  /** Reading back the byte-string form of an integer gives the integer. */
  lemma IntegerBytesRoundTrip(v: int)
    ensures IntFromBytes(IntToBytes(v)) == v
  {
    if v != 0 {
      TwosComplementRoundTrip(v);
    }
  }

  /** `big.Int.Bytes()` of a magnitude: big-endian, no leading zero bytes, zero is empty. */
  function MagnitudeBytes(m: nat): (r: seq<byte>)
    ensures m == 0 <==> r == []
    ensures |r| == 1 <==> 1 <= m < 256
    ensures |r| == 1 ==> r[0] == m
  {
    if m == 0 then [] else MagnitudeBytes(m / 256) + [m % 256]
  }

  /** `TryBytes`: the raw bytes of a byte string or of an integer. */
  function TryBytes(item: StackItem): (r: Result<seq<byte>, ConversionError>)
    ensures r.Ok? <==> item.ByteString? || item.Integer?
    ensures item.ByteString? ==> r == Ok(item.bytes)
    ensures r.Ok? && item.Integer? ==> IntFromBytes(r.value) == item.value
  {
    match item
    case ByteString(b) => Ok(b)
    case Integer(v) => IntegerBytesRoundTrip(v); Ok(IntToBytes(v))
    case _ => Err(InvalidConversion(TypeOf(item), ByteArrayT))
  }

  /** `TryInteger`: the value of an integer, or of a byte string of at most 32 bytes. */
  function TryInteger(item: StackItem): (r: Result<int, ConversionError>)
    ensures r.Ok? <==> item.Integer? || (item.ByteString? && |item.bytes| <= MaxIntegerBytes)
    ensures item.Integer? ==> r == Ok(item.value)
  {
    match item
    case Integer(v) => Ok(v)
    case ByteString(b) => if |b| > MaxIntegerBytes then Err(TooBigInteger) else Ok(IntFromBytes(b))
    case _ => Err(InvalidConversion(TypeOf(item), IntegerT))
  }

  /** `Convert`: Null converts to itself for every proper type, an item to its
      own type is unchanged, integers and byte strings convert into each other,
      and nothing else converts. */
  function Convert(item: StackItem, to: ItemType): (r: Result<StackItem, ConversionError>)
    ensures r.Ok? ==> r.value.Null? || TypeOf(r.value) == to
    ensures r.Ok? && r.value.Null? ==> item.Null?
    ensures item.Null? ==> (r.Ok? <==> to != AnyT)
    ensures !item.Null? && TypeOf(item) == to ==> r == Ok(item)
    ensures to == ArrayT || to == InteropT ==> (r.Ok? <==> item.Null? || TypeOf(item) == to)
  {
    if item.Null? then
      if to == AnyT then Err(InvalidConversion(AnyT, AnyT)) else Ok(Null)
    else if TypeOf(item) == to then Ok(item)
    else if to == ByteArrayT then
      match TryBytes(item)
      case Ok(b) => Ok(ByteString(b))
      case Err(e) => Err(e)
    else if to == IntegerT then
      match TryInteger(item)
      case Ok(v) => Ok(Integer(v))
      case Err(e) => Err(e)
    else Err(InvalidConversion(TypeOf(item), to))
  }
}
