/**
 * PrimitiveValueConverter: one function per `convert<T>` specialisation and
 * `Convert`, the template itself, indexed by the target type.
 *
 * Each specialisation switches on the node's type tag. An accepted tag yields
 * the stored value, possibly widened; a string or big-string node is handed to
 * the target's decaf parser, and a parser that throws falls through to the
 * `default` branch; everything else throws "Unsupported Type Conversion".
 */
module PrimitiveValueConverter {
  import opened Primitives
  import opened DecafLang

  /** The nine C++ types `convert<T>` is specialised for. */
  datatype Target =
    | Boolean | UnsignedChar | Char | Short | Int | LongLong | Float | Double | StdString
  {
    /** A target of the integer chain: its own kind is integral. */
    predicate IsIntegral() {
      ResultKind().IsIntegral()
    }

    /** A target of the floating-point chain: its own kind is floating. */
    predicate IsFloating() {
      ResultKind().IsFloating()
    }

    /** The storage width in bits of a numeric target: that of its own kind. */
    function Bits(): nat
      requires IsIntegral() || IsFloating()
    {
      ResultKind().Bits()
    }

    /** The node tag a converted value of this type is re-tagged with. */
    function ResultKind(): Kind {
      match this
      case Boolean => BooleanKind
      case UnsignedChar => ByteKind
      case Char => CharKind
      case Short => ShortKind
      case Int => IntegerKind
      case LongLong => LongKind
      case Float => FloatKind
      case Double => DoubleKind
      case StdString => StringKind
    }
  }

  /**
   * The coercion rule, stated independently of the switches: a target takes
   * its own kind, any kind of the same numeric chain that is no wider
   * (byte -> short -> int -> long, float -> double), and, for std::string,
   * every scalar kind. Text kinds are not in this table: they go through a parser.
   */
  predicate Accepts(k: Kind, t: Target) {
    || (k == BooleanKind && t == Boolean)
    || (k == CharKind && t == Char)
    || (k.IsIntegral() && t.IsIntegral() && k.Bits() <= t.Bits())
    || (k.IsFloating() && t.IsFloating() && k.Bits() <= t.Bits())
    || (t == StdString && k != OtherKind && !k.IsText())
  }

  /** Whether the parser the target uses for text accepts `s`; std::string needs none. */
  predicate ParserAccepts(L: Library, t: Target, s: string) {
    match t
    case Boolean => L.parseBoolean(s).Some?
    case UnsignedChar => L.parseByte(s).Some?
    case Char => L.parseByte(s).Some?
    case Short => L.parseShort(s).Some?
    case Int => L.parseInt(s).Some?
    case LongLong => L.parseLong(s).Some?
    case Float => L.parseFloat(s).Some?
    case Double => L.parseDouble(s).Some?
    case StdString => true
  }

  /** A parse inside `try`: its value, or the fall-through into `default`. */
  function Parsed<T>(p: Option<T>): Result<T> {
    match p
    case Some(x) => Ok(x)
    case None => Err(UnsupportedTypeConversion)
  }

  /** convert<bool> */
  function ToBool(L: Library, v: Node): (r: Result<bool>)
    ensures r.Ok? <==> Accepts(v.Kind(), Boolean) || (v.IsText() && L.parseBoolean(v.text).Some?)
    ensures r.Ok? && !v.IsText() ==> v == BooleanNode(r.value)
    ensures r.Ok? && v.IsText() ==> L.parseBoolean(v.text) == Some(r.value)
    ensures r.Err? ==> r.error == UnsupportedTypeConversion
  {
    match v
    case BooleanNode(b) => Ok(b)
    case StringNode(s) => Parsed(L.parseBoolean(s))
    case BigStringNode(s) => Parsed(L.parseBoolean(s))
    case _ => Err(UnsupportedTypeConversion)
  }

  /** convert<unsigned char> */
  function ToByte(L: Library, v: Node): (r: Result<UInt8>)
    ensures r.Ok? <==> Accepts(v.Kind(), UnsignedChar) || (v.IsText() && L.parseByte(v.text).Some?)
    ensures r.Ok? && !v.IsText() ==> v == ByteNode(r.value)
    ensures r.Ok? && v.IsText() ==> L.parseByte(v.text) == Some(r.value)
    ensures r.Err? ==> r.error == UnsupportedTypeConversion
  {
    match v
    case ByteNode(x) => Ok(x)
    case StringNode(s) => Parsed(L.parseByte(s))
    case BigStringNode(s) => Parsed(L.parseByte(s))
    case _ => Err(UnsupportedTypeConversion)
  }

  /** convert<char>: text goes through the byte parser and the `(char)` cast. */
  function ToChar(L: Library, v: Node): (r: Result<Int8>)
    ensures r.Ok? <==> Accepts(v.Kind(), Char) || (v.IsText() && L.parseByte(v.text).Some?)
    ensures r.Ok? && !v.IsText() ==> v == CharNode(r.value)
    ensures r.Ok? && v.IsText() ==> L.parseByte(v.text) == Some(ByteOfChar(r.value))
    ensures r.Err? ==> r.error == UnsupportedTypeConversion
  {
    match v
    case CharNode(c) => Ok(c)
    case StringNode(s) => CastToChar(Parsed(L.parseByte(s)))
    case BigStringNode(s) => CastToChar(Parsed(L.parseByte(s)))
    case _ => Err(UnsupportedTypeConversion)
  }

  /** `(char)` applied to the outcome of a byte parse. */
  function CastToChar(r: Result<UInt8>): Result<Int8> {
    match r
    case Ok(b) => Ok(CharOfByte(b))
    case Err(e) => Err(e)
  }

  /** convert<short> */
  function ToShort(L: Library, v: Node): (r: Result<Int16>)
    ensures r.Ok? <==> Accepts(v.Kind(), Short) || (v.IsText() && L.parseShort(v.text).Some?)
    ensures r.Ok? && !v.IsText() ==> v.Kind().IsIntegral() && r.value as int == v.IntegralValue()
    ensures r.Ok? && v.IsText() ==> L.parseShort(v.text) == Some(r.value)
    ensures r.Err? ==> r.error == UnsupportedTypeConversion
  {
    match v
    case ByteNode(x) => Ok(x as Int16)
    case ShortNode(x) => Ok(x)
    case StringNode(s) => Parsed(L.parseShort(s))
    case BigStringNode(s) => Parsed(L.parseShort(s))
    case _ => Err(UnsupportedTypeConversion)
  }

  /** convert<int> */
  function ToInt(L: Library, v: Node): (r: Result<Int32>)
    ensures r.Ok? <==> Accepts(v.Kind(), Int) || (v.IsText() && L.parseInt(v.text).Some?)
    ensures r.Ok? && !v.IsText() ==> v.Kind().IsIntegral() && r.value as int == v.IntegralValue()
    ensures r.Ok? && v.IsText() ==> L.parseInt(v.text) == Some(r.value)
    ensures r.Err? ==> r.error == UnsupportedTypeConversion
  {
    match v
    case ByteNode(x) => Ok(x as Int32)
    case ShortNode(x) => Ok(x as Int32)
    case IntegerNode(x) => Ok(x)
    case StringNode(s) => Parsed(L.parseInt(s))
    case BigStringNode(s) => Parsed(L.parseInt(s))
    case _ => Err(UnsupportedTypeConversion)
  }

  /** convert<long long> */
  function ToLong(L: Library, v: Node): (r: Result<Int64>)
    ensures r.Ok? <==> Accepts(v.Kind(), LongLong) || (v.IsText() && L.parseLong(v.text).Some?)
    ensures r.Ok? && !v.IsText() ==> v.Kind().IsIntegral() && r.value as int == v.IntegralValue()
    ensures r.Ok? && v.IsText() ==> L.parseLong(v.text) == Some(r.value)
    ensures r.Err? ==> r.error == UnsupportedTypeConversion
  {
    match v
    case ByteNode(x) => Ok(x as Int64)
    case ShortNode(x) => Ok(x as Int64)
    case IntegerNode(x) => Ok(x as Int64)
    case LongNode(x) => Ok(x)
    case StringNode(s) => Parsed(L.parseLong(s))
    case BigStringNode(s) => Parsed(L.parseLong(s))
    case _ => Err(UnsupportedTypeConversion)
  }

  /** convert<float> */
  function ToFloat(L: Library, v: Node): (r: Result<Float32>)
    ensures r.Ok? <==> Accepts(v.Kind(), Float) || (v.IsText() && L.parseFloat(v.text).Some?)
    ensures r.Ok? && !v.IsText() ==> v == FloatNode(r.value)
    ensures r.Ok? && v.IsText() ==> L.parseFloat(v.text) == Some(r.value)
    ensures r.Err? ==> r.error == UnsupportedTypeConversion
  {
    match v
    case FloatNode(x) => Ok(x)
    case StringNode(s) => Parsed(L.parseFloat(s))
    case BigStringNode(s) => Parsed(L.parseFloat(s))
    case _ => Err(UnsupportedTypeConversion)
  }

  /** convert<double>: a float node is promoted, a double node returned as stored. */
  function ToDouble(L: Library, v: Node): (r: Result<Float64>)
    ensures r.Ok? <==> Accepts(v.Kind(), Double) || (v.IsText() && L.parseDouble(v.text).Some?)
    ensures r.Ok? && !v.IsText() ==> v == DoubleNode(r.value) || (v.FloatNode? && r.value == L.floatToDouble(v.f))
    ensures r.Ok? && v.IsText() ==> L.parseDouble(v.text) == Some(r.value)
    ensures r.Err? ==> r.error == UnsupportedTypeConversion
  {
    match v
    case FloatNode(x) => Ok(L.floatToDouble(x))
    case DoubleNode(x) => Ok(x)
    case StringNode(s) => Parsed(L.parseDouble(s))
    case BigStringNode(s) => Parsed(L.parseDouble(s))
    case _ => Err(UnsupportedTypeConversion)
  }

  /** convert<std::string>: every scalar kind has a text form; text is returned verbatim. */
  function ToString(L: Library, v: Node): (r: Result<string>)
    ensures r.Ok? <==> Accepts(v.Kind(), StdString) || v.IsText()
    ensures v.IsText() ==> r == Ok(v.text)
    ensures v.BooleanNode? ==> r == Ok(L.booleanToString(v.b))
    ensures v.ByteNode? ==> r == Ok(L.byteToString(v.byte))
    ensures v.CharNode? ==> r == Ok(L.charToString(v.c))
    ensures v.ShortNode? ==> r == Ok(L.shortToString(v.s))
    ensures v.IntegerNode? ==> r == Ok(L.intToString(v.i))
    ensures v.LongNode? ==> r == Ok(L.longToString(v.l))
    ensures v.FloatNode? ==> r == Ok(L.floatToString(v.f))
    ensures v.DoubleNode? ==> r == Ok(L.doubleToString(v.d))
    ensures r.Err? ==> r.error == UnsupportedTypeConversion
  {
    match v
    case BooleanNode(x) => Ok(L.booleanToString(x))
    case ByteNode(x) => Ok(L.byteToString(x))
    case CharNode(x) => Ok(L.charToString(x))
    case ShortNode(x) => Ok(L.shortToString(x))
    case IntegerNode(x) => Ok(L.intToString(x))
    case LongNode(x) => Ok(L.longToString(x))
    case FloatNode(x) => Ok(L.floatToString(x))
    case DoubleNode(x) => Ok(L.doubleToString(x))
    case StringNode(s) => Ok(s)
    case BigStringNode(s) => Ok(s)
    case OtherNode => Err(UnsupportedTypeConversion)
  }

  /** A specialisation's result, re-tagged as a node of the target's kind. */
  function Retag<T>(r: Result<T>, tag: T -> Node): Result<Node> {
    match r
    case Ok(x) => Ok(tag(x))
    case Err(e) => Err(e)
  }

  /**
   * The template `convert<T>`: dispatch on the target type to its
   * specialisation. Whether it succeeds is decided by the coercion table and,
   * for text, by the target's parser alone; a success is a node of the
   * target's kind; a failure is always the same error.
   */
  function Convert(L: Library, t: Target, v: Node): (r: Result<Node>)
    ensures r.Ok? <==> Accepts(v.Kind(), t) || (v.IsText() && ParserAccepts(L, t, v.text))
    ensures r.Ok? ==> r.value.Kind() == t.ResultKind()
    ensures r.Err? ==> r == Err(UnsupportedTypeConversion)
  {
    match t
    case Boolean => Retag(ToBool(L, v), x => BooleanNode(x))
    case UnsignedChar => Retag(ToByte(L, v), x => ByteNode(x))
    case Char => Retag(ToChar(L, v), x => CharNode(x))
    case Short => Retag(ToShort(L, v), x => ShortNode(x))
    case Int => Retag(ToInt(L, v), x => IntegerNode(x))
    case LongLong => Retag(ToLong(L, v), x => LongNode(x))
    case Float => Retag(ToFloat(L, v), x => FloatNode(x))
    case Double => Retag(ToDouble(L, v), x => DoubleNode(x))
    case StdString => Retag(ToString(L, v), x => StringNode(x))
  }
}
