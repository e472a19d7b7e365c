/**
 * The values a PrimitiveValueNode can hold, with the C++ integer widths made
 * explicit, and the one error the converter raises.
 */
module Primitives {

  /** A parse that may fail; None stands for "the parser threw". */
  datatype Option<+T> = None | Some(value: T)

  /** The exception a conversion throws: UnsupportedOperationException with its message. */
  datatype ConversionError = UnsupportedOperation(message: string)

  /** The only error any conversion produces. */
  const UnsupportedTypeConversion: ConversionError := UnsupportedOperation("Unsupported Type Conversion")

  /** A conversion either returns a value or throws. */
  datatype Result<+T> = Ok(value: T) | Err(error: ConversionError)

  /** C++ `unsigned char` (a byte node). */
  newtype UInt8 = x: int | 0 <= x < 0x100

  /** C++ `char`, taken as a signed two's-complement 8-bit integer. */
  newtype Int8 = x: int | -0x80 <= x < 0x80

  /** C++ `short`. */
  newtype Int16 = x: int | -0x8000 <= x < 0x8000

  /** C++ `int`. */
  newtype Int32 = x: int | -0x8000_0000 <= x < 0x8000_0000

  /** C++ `long long`. */
  newtype Int64 = x: int | -0x8000_0000_0000_0000 <= x < 0x8000_0000_0000_0000

  /** A C++ `float`, kept opaque as its bit pattern. */
  datatype Float32 = Float32(bits: bv32)

  /** A C++ `double`, kept opaque as its bit pattern. */
  datatype Float64 = Float64(bits: bv64)

  /**
   * The conversion `(char)` applied to an `unsigned char`: the unique 8-bit
   * signed value congruent to the byte modulo 256.
   */
  function CharOfByte(b: UInt8): (c: Int8)
    ensures (c as int - b as int) % 0x100 == 0
  {
    if b < 0x80 then b as int as Int8 else (b as int - 0x100) as Int8
  }

  /** The conversion `(unsigned char)` applied to a `char`. */
  function ByteOfChar(c: Int8): (b: UInt8)
    ensures (c as int - b as int) % 0x100 == 0
  {
    if c >= 0 then c as int as UInt8 else (c as int + 0x100) as UInt8
  }

  /** The two casts are inverse to each other, so no byte value is lost in a char. */
  lemma CharByteCastsInverse(b: UInt8, c: Int8)
    ensures ByteOfChar(CharOfByte(b)) == b
    ensures CharOfByte(ByteOfChar(c)) == c
  {
  }

  /** The type tag of a node, as returned by PrimitiveValueNode::getType(). */
  datatype Kind =
    | BooleanKind | ByteKind | CharKind | ShortKind | IntegerKind | LongKind
    | FloatKind | DoubleKind | StringKind | BigStringKind
    | OtherKind
  {
    /** The two tags whose payload is read with getString(). */
    predicate IsText() {
      this == StringKind || this == BigStringKind
    }

    /** The tags of the integer chain byte, short, int, long. */
    predicate IsIntegral() {
      this == ByteKind || this == ShortKind || this == IntegerKind || this == LongKind
    }

    /** The tags of the floating-point chain float, double. */
    predicate IsFloating() {
      this == FloatKind || this == DoubleKind
    }

    /** The storage width in bits of a numeric tag. */
    function Bits(): nat
      requires IsIntegral() || IsFloating()
    {
      match this
      case ByteKind => 8
      case ShortKind => 16
      case IntegerKind => 32
      case LongKind => 64
      case FloatKind => 32
      case DoubleKind => 64
    }
  }

  /**
   * A PrimitiveValueNode. OtherNode stands for every node type the converter
   * has no case for; it always reaches the `default` branch.
   */
  datatype Node =
    | BooleanNode(b: bool)
    | ByteNode(byte: UInt8)
    | CharNode(c: Int8)
    | ShortNode(s: Int16)
    | IntegerNode(i: Int32)
    | LongNode(l: Int64)
    | FloatNode(f: Float32)
    | DoubleNode(d: Float64)
    | StringNode(text: string)
    | BigStringNode(text: string)
    | OtherNode
  {
    function Kind(): Kind {
      match this
      case BooleanNode(_) => BooleanKind
      case ByteNode(_) => ByteKind
      case CharNode(_) => CharKind
      case ShortNode(_) => ShortKind
      case IntegerNode(_) => IntegerKind
      case LongNode(_) => LongKind
      case FloatNode(_) => FloatKind
      case DoubleNode(_) => DoubleKind
      case StringNode(_) => StringKind
      case BigStringNode(_) => BigStringKind
      case OtherNode => OtherKind
    }

    /** The two node types whose payload is read with getString(). */
    predicate IsText() {
      StringNode? || BigStringNode?
    }

    /** The mathematical value of an integral node; a byte node reads as unsigned. */
    function IntegralValue(): int
      requires Kind().IsIntegral()
    {
      match this
      case ByteNode(x) => x as int
      case ShortNode(x) => x as int
      case IntegerNode(x) => x as int
      case LongNode(x) => x as int
    }
  }
}
