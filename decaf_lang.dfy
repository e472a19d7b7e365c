/**
 * The parts of decaf::lang the converter calls (Boolean, Byte, Character,
 * Short, Integer, Long, Float, Double) and the compiler's float-to-double
 * promotion. Their implementations are outside this model, so a conversion
 * takes them as a parameter and every property is proved for all of them,
 * except the text round trip, which assumes FormattersInvertible.
 */
module DecafLang {
  import opened Primitives

  /**
   * Each parseX returns None exactly when the decaf parser throws; each
   * toString is the decaf formatter for that type.
   */
  datatype Library = Library(
    parseBoolean: string -> Option<bool>,
    parseByte: string -> Option<UInt8>,
    parseShort: string -> Option<Int16>,
    parseInt: string -> Option<Int32>,
    parseLong: string -> Option<Int64>,
    parseFloat: string -> Option<Float32>,
    parseDouble: string -> Option<Float64>,
    booleanToString: bool -> string,
    byteToString: UInt8 -> string,
    charToString: Int8 -> string,
    shortToString: Int16 -> string,
    intToString: Int32 -> string,
    longToString: Int64 -> string,
    floatToString: Float32 -> string,
    doubleToString: Float64 -> string,
    floatToDouble: Float32 -> Float64
  )

  /**
   * The boolean and integer formatters produce text their own parser reads
   * back to the same value (decimal out, decimal in).
   */
  ghost predicate FormattersInvertible(L: Library) {
    && (forall b: bool :: L.parseBoolean(L.booleanToString(b)) == Some(b))
    && (forall x: UInt8 :: L.parseByte(L.byteToString(x)) == Some(x))
    && (forall x: Int16 :: L.parseShort(L.shortToString(x)) == Some(x))
    && (forall x: Int32 :: L.parseInt(L.intToString(x)) == Some(x))
    && (forall x: Int64 :: L.parseLong(L.longToString(x)) == Some(x))
  }
}
