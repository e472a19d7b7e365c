# PrimitiveValueConverter in Dafny

A model of activemq-cpp's primitive value converter, the code that reads
typed message properties. `PrimitiveValueConverter::convert<T>` takes a
`PrimitiveValueNode` and returns it as `T`. There is one specialisation for
each of `bool`, `unsigned char`, `char`, `short`, `int`, `long long`,
`float`, `double` and `std::string`. Each one switches on the node's type
tag and does one of the following:

- returns the stored value;
- widens the stored value to a larger integer or floating type;
- hands a string or big-string node to the matching decaf parser.

Anything else throws `UnsupportedOperationException("Unsupported Type Conversion")`.
A parser that throws is caught, and control falls into that same `default`
branch.

Files:

- `primitives.dfy` (module `Primitives`): the node (`Node`) and its type tag
  (`Kind`). It also holds the C++ integer widths as newtypes (`UInt8` for
  `unsigned char`, `Int8` for `char`, `Int16`, `Int32`, `Int64`), the
  `(char)` cast, and the single error as a `Result`.
- `decaf_lang.dfy` (module `DecafLang`): the decaf::lang parsers and
  formatters the converter calls, plus the compiler's float-to-double
  promotion. They form one `Library` value of function fields. A parser
  returns `None` where the decaf parser throws. Every conversion takes the
  library as a parameter, so every property holds whatever those functions do,
  except `FormatThenParse`, which assumes each boolean and integer formatter
  is inverted by its parser.
- `converter.dfy` (module `PrimitiveValueConverter`): one function per
  specialisation, and `Convert`, the template indexed by the target type
  `Target`. `Accepts` states the coercion rule independently of the
  switches: a target takes its own kind, or a no-wider kind of the same chain
  (byte → short → int → long, float → double). `std::string` takes every
  scalar kind. Each specialisation's contract ties its outcome to that rule
  and to its parser.
- `converter_properties.dfy` (module `ConverterProperties`): lemmas that
  relate the specialisations to each other.

`convert<std::string>` is not total over node types: it throws for any node
type that has no case in its switch (its `default` branch), and `OtherNode`
models those types.

## Model

| member | source | states |
|---|---|---|
| `PrimitiveValueConverter.ToBool` | activemq-cpp/src/main/activemq/util/PrimitiveValueConverter.cpp:33-51 | Succeeds exactly for a boolean node or text that parseBoolean accepts, so no number converts to bool. A boolean node yields its stored value, text yields the parsed value, and the only failure is "Unsupported Type Conversion". |
| `PrimitiveValueConverter.ToByte` | activemq-cpp/src/main/activemq/util/PrimitiveValueConverter.cpp:54-72 | Succeeds exactly for a byte node or text that parseByte accepts. It yields the stored byte or the parsed one, and otherwise fails with the single error. |
| `PrimitiveValueConverter.ToChar` | activemq-cpp/src/main/activemq/util/PrimitiveValueConverter.cpp:75-93 | Succeeds exactly for a char node or text that the byte parser accepts. For text, the result cast back to unsigned char is the parsed byte. The only failure is the single error. |
| `PrimitiveValueConverter.ToShort` | activemq-cpp/src/main/activemq/util/PrimitiveValueConverter.cpp:96-116 | Succeeds exactly for byte and short nodes or text parseShort accepts. A non-text result has the node's integer value, and the only failure is the single error. |
| `PrimitiveValueConverter.ToInt` | activemq-cpp/src/main/activemq/util/PrimitiveValueConverter.cpp:119-141 | Succeeds exactly for byte, short and int nodes or text parseInt accepts. A non-text result has the node's integer value, and the only failure is the single error. |
| `PrimitiveValueConverter.ToLong` | activemq-cpp/src/main/activemq/util/PrimitiveValueConverter.cpp:144-168 | Succeeds exactly for byte, short, int and long nodes or text parseLong accepts. A non-text result has the node's integer value, and the only failure is the single error. |
| `PrimitiveValueConverter.ToFloat` | activemq-cpp/src/main/activemq/util/PrimitiveValueConverter.cpp:171-189 | Succeeds exactly for a float node or text parseFloat accepts, so a double is never narrowed and no integer is accepted. It yields the stored or the parsed float. |
| `PrimitiveValueConverter.ToDouble` | activemq-cpp/src/main/activemq/util/PrimitiveValueConverter.cpp:192-212 | Succeeds exactly for float and double nodes or text parseDouble accepts. A float is promoted, a double is returned as stored, and the only failure is the single error. |
| `PrimitiveValueConverter.ToString` | activemq-cpp/src/main/activemq/util/PrimitiveValueConverter.cpp:215-243 | Succeeds for every node except the kinds with no case. Each scalar kind yields its own decaf formatter's output (Boolean, Byte, Character, Short, Integer, Long, Float, Double), text is returned verbatim, and the only failure is the single error. |
| `PrimitiveValueConverter.Convert` | activemq-cpp/src/main/activemq/util/PrimitiveValueConverter.cpp:33-243 | For every target, succeeds exactly when the coercion rule admits the node's kind or the target's parser accepts its text. A success is a value of the target's kind, and every failure is the same error. |
| `Primitives.CharOfByte` | activemq-cpp/src/main/activemq/util/PrimitiveValueConverter.cpp:86 | The `(char)` cast gives the signed 8-bit value congruent to the byte modulo 256. |
| `Primitives.CharByteCastsInverse` | activemq-cpp/src/main/activemq/util/PrimitiveValueConverter.cpp:86 | The casts between unsigned char and char are mutually inverse, so the cast in convert<char> loses no parsed byte. |
| `ConverterProperties.ExactKindIsIdentity` | activemq-cpp/src/main/activemq/util/PrimitiveValueConverter.cpp:37-238 | A node converted to its own type comes back unchanged, for every type (a string node to std::string included). |
| `ConverterProperties.StringAndBigStringAgree` | activemq-cpp/src/main/activemq/util/PrimitiveValueConverter.cpp:40-238 | A string node and a big-string node with the same text give the same result for every target. |
| `ConverterProperties.UnparsableTextIsKindMismatch` | activemq-cpp/src/main/activemq/util/PrimitiveValueConverter.cpp:40-211 | Text the target's parser rejects fails with exactly the error of a wrong-kind node. No default value is returned, and the two failures cannot be told apart. |
| `ConverterProperties.NarrowingFails` | activemq-cpp/src/main/activemq/util/PrimitiveValueConverter.cpp:100-211 | Asking for a narrower type of the same numeric chain always fails (for example long to int, int to short, or double to float). |
| `ConverterProperties.IntegralWideningPreservesValue` | activemq-cpp/src/main/activemq/util/PrimitiveValueConverter.cpp:101-156 | Every integral node converts to every integral type at least as wide, and the result has the same numeric value. |
| `ConverterProperties.ByteWidensOntoUnsignedRange` | activemq-cpp/src/main/activemq/util/PrimitiveValueConverter.cpp:101-150 | A byte node widened to any integral type yields exactly the integers 0..255: each of them occurs, and no other value does. |
| `ConverterProperties.WideningComposes` | activemq-cpp/src/main/activemq/util/PrimitiveValueConverter.cpp:100-200 | Widening is path-independent. Converting a non-text node through an intermediate type that the final type accepts equals converting it directly. |
| `ConverterProperties.CharTextGoesThroughByteParser` | activemq-cpp/src/main/activemq/util/PrimitiveValueConverter.cpp:82-87 | On text, convert<char> succeeds exactly when convert<unsigned char> does, and yields that byte cast to char. |
| `ConverterProperties.FormatThenParse` | activemq-cpp/src/main/activemq/util/PrimitiveValueConverter.cpp:219-231 | Suppose each boolean and integer formatter is inverted by its parser. Then such a value converted to std::string and back to its own type is unchanged. |
| `ConverterProperties.CharTextRoundTrip` | activemq-cpp/src/main/activemq/util/PrimitiveValueConverter.cpp:82-225 | A char's text is written by the character formatter but read back by the byte parser. Converting it back succeeds exactly when that parser accepts the formatted text, and it then yields the parsed byte as a char. |

## Left out

- The decaf::lang parsers and formatters (`Boolean::parseBoolean`, `Integer::toString`, `Character::valueOf(...).toString()` and the rest) are not part of this model. They are the fields of `Library`, and every property is proved for all of them.
- Floating-point semantics: `float` and `double` are opaque bit patterns. The `(double)` promotion is the uninterpreted `floatToDouble`, and nothing is proved about parsing or formatting them.
- `FormatThenParse`: covers the boolean and integer kinds only. Floating-point text forms are not modelled, and a char is formatted and parsed by different grammars (see `CharTextRoundTrip`).
- The node types the converter has no case for (null, byte array, list, map in PrimitiveValueNode, whose header is not part of this model) are collapsed into `OtherNode`. They only ever reach the `default` branch.
- `char` is taken to be signed 8-bit with the modular `(char)` cast of typical platforms. C++ leaves its signedness to the implementation.
- The exception's file and line arguments are dropped. The error carries only its message.
- The typed getters of PrimitiveValueNode (`getBool`, `getString`, ...) become datatype fields. A getter that mismatches the tag cannot arise.
