/**
 * What the converter promises across its specialisations, proved for every
 * decaf library (every parser and formatter behaviour); only FormatThenParse
 * assumes that the boolean and integer formatters are inverted by their parsers.
 */
module ConverterProperties {
  import opened Primitives
  import opened DecafLang
  import opened PrimitiveValueConverter

  /** Converting a node to its own type returns the stored value unchanged. */
  lemma ExactKindIsIdentity(L: Library, t: Target, v: Node)
    requires v.Kind() == t.ResultKind()
    ensures Convert(L, t, v) == Ok(v)
  {
  }

  /** A string node and a big-string node with the same text convert alike, to every type. */
  lemma StringAndBigStringAgree(L: Library, t: Target, s: string)
    ensures Convert(L, t, StringNode(s)) == Convert(L, t, BigStringNode(s))
  {
  }

  /**
   * Text the target's parser rejects ends in the very error a node of a wrong
   * kind gets: no default value, and no way for the caller to tell the two apart.
   */
  lemma UnparsableTextIsKindMismatch(L: Library, t: Target, s: string, v: Node)
    requires !ParserAccepts(L, t, s)
    requires !v.IsText() && !Accepts(v.Kind(), t)
    ensures Convert(L, t, StringNode(s)) == Err(UnsupportedTypeConversion)
    ensures Convert(L, t, v) == Convert(L, t, StringNode(s))
  {
  }

  /** Asking for a narrower type of the same numeric chain always fails. */
  lemma NarrowingFails(L: Library, t: Target, v: Node)
    requires (v.Kind().IsIntegral() && t.IsIntegral()) || (v.Kind().IsFloating() && t.IsFloating())
    requires t.Bits() < v.Kind().Bits()
    ensures Convert(L, t, v) == Err(UnsupportedTypeConversion)
  {
  }

  /** Every integral node converts to every integral type at least as wide, keeping its value. */
  lemma IntegralWideningPreservesValue(L: Library, t: Target, v: Node)
    requires v.Kind().IsIntegral() && t.IsIntegral() && v.Kind().Bits() <= t.Bits()
    ensures Convert(L, t, v).Ok?
    ensures Convert(L, t, v).value.Kind().IsIntegral()
    ensures Convert(L, t, v).value.IntegralValue() == v.IntegralValue()
  {
  }

  /** The integer a conversion yields, if it yields one. */
  function ConvertedInteger(L: Library, t: Target, v: Node): Option<int> {
    var r := Convert(L, t, v);
    if r.Ok? && r.value.Kind().IsIntegral() then Some(r.value.IntegralValue()) else None
  }

  /**
   * A byte node is unsigned: widened to any integral type it yields exactly
   * the integers 0..255, every one of them and nothing else.
   */
  lemma ByteWidensOntoUnsignedRange(L: Library, t: Target, n: int)
    requires t.IsIntegral()
    ensures (exists b: UInt8 :: ConvertedInteger(L, t, ByteNode(b)) == Some(n)) <==> 0 <= n < 0x100
  {
    if 0 <= n < 0x100 {
      assert ConvertedInteger(L, t, ByteNode(n as UInt8)) == Some(n);
    }
  }

  /**
   * Widening is path-independent: going through an intermediate type that the
   * final type accepts gives the same result as converting directly.
   */
  lemma WideningComposes(L: Library, t1: Target, t2: Target, v: Node)
    requires !v.IsText() && Convert(L, t1, v).Ok?
    requires Accepts(t1.ResultKind(), t2)
    requires t2 != StdString
    ensures Convert(L, t2, Convert(L, t1, v).value) == Convert(L, t2, v)
  {
  }

  /**
   * convert<char> reads text with the numeric byte parser: it succeeds exactly
   * when convert<unsigned char> does, and yields that byte cast to char.
   */
  lemma CharTextGoesThroughByteParser(L: Library, v: Node)
    requires v.IsText()
    ensures ToChar(L, v).Ok? <==> ToByte(L, v).Ok?
    ensures ToChar(L, v).Ok? ==> ToChar(L, v).value == CharOfByte(ToByte(L, v).value)
  {
  }

  /**
   * With formatters that their parsers invert, a boolean or integral value
   * survives being converted to std::string and back to its own type.
   */
  lemma FormatThenParse(L: Library, v: Node)
    requires FormattersInvertible(L)
    requires v.Kind() == BooleanKind || v.Kind().IsIntegral()
    ensures Convert(L, StdString, v).Ok?
    ensures Convert(L, NativeTarget(v.Kind()), StringNode(Convert(L, StdString, v).value.text)) == Ok(v)
  {
  }

  /**
   * A char is written out by the character formatter but read back by the
   * numeric byte parser, so its round trip through text succeeds exactly when
   * that parser accepts the formatted character, and then yields the parsed
   * byte as a char rather than the original character.
   */
  lemma CharTextRoundTrip(L: Library, c: Int8)
    ensures Convert(L, StdString, CharNode(c)).Ok?
    ensures var back := Convert(L, Char, StringNode(Convert(L, StdString, CharNode(c)).value.text));
      && (back.Ok? <==> L.parseByte(L.charToString(c)).Some?)
      && (back.Ok? ==> back.value == CharNode(CharOfByte(L.parseByte(L.charToString(c)).value)))
  {
  }

  /** The target type whose own kind is `k`, for the boolean and integral kinds. */
  function NativeTarget(k: Kind): (t: Target)
    requires k == BooleanKind || k.IsIntegral()
    ensures t.ResultKind() == k
  {
    match k
    case BooleanKind => Boolean
    case ByteKind => UnsignedChar
    case ShortKind => Short
    case IntegerKind => Int
    case LongKind => LongLong
  }
}
