/**
 * The collaborators of the engine-side value node, as far as the node observes them.
 * None of their own behaviour is modelled: a metadata type is only an identity and an
 * array flag, a runtime value only has a type, and the underlying .NET value node is a
 * bag of properties that the debugger engine may change between calls.
 */
module DotNet {
  import opened Wrappers

  /** C# `ulong`. */
  newtype u64 = x: int | 0 <= x < 0x1_0000_0000_0000_0000

  /** C# `int`. */
  newtype i32 = x: int | -0x8000_0000 <= x < 0x8000_0000

  /** A metadata type (`DmdType`): identified by its token, and either an array type or not. */
  datatype DmdType = DmdType(token: nat, isArray: bool)

  /** A value in the debugged runtime (`DbgDotNetValue`); its type may be unknown. */
  class DotNetValue {
    const valueType: Option<DmdType>

    constructor (valueType: Option<DmdType>)
      ensures this.valueType == valueType
    {
      this.valueType := valueType;
    }
  }

  /**
   * The raw node produced by an evaluation (`DbgDotNetValueNode`). Its properties are
   * fields that may change between two reads; `name` stands for its display text.
   */
  class DotNetValueNode {
    var errorMessage: Option<string>
    var value: Option<DotNetValue>
    var name: string
    var expression: string
    var imageName: string
    var isReadOnly: bool
    var causesSideEffects: bool
    var hasChildren: Option<bool>
    var childCount: u64
    var expectedType: Option<DmdType>

    constructor (errorMessage: Option<string>, value: Option<DotNetValue>, name: string,
                 expectedType: Option<DmdType>)
      ensures this.errorMessage == errorMessage && this.value == value
      ensures this.name == name && this.expectedType == expectedType
    {
      this.errorMessage := errorMessage;
      this.value := value;
      this.name := name;
      this.expectedType := expectedType;
    }
  }

  /** The value formatter (`DbgDotNetFormatter`); only its identity matters here. */
  class Formatter {
    constructor () { }
  }

  /** The runtime's dispatcher, passed through to the close calls. */
  datatype Dispatcher = Dispatcher(id: nat)

  /** An output sink (`IDbgTextWriter`). */
  datatype TextWriter = TextWriter(id: nat)

  /** Type formatting flags, passed through to the formatter unchanged. */
  datatype TypeFormatterOptions = TypeFormatterOptions(flags: nat)

  /** Value formatting flags, passed through to the formatter unchanged. */
  datatype ValueFormatterOptions = ValueFormatterOptions(flags: nat)

  /**
   * What a caller asks `Format` to write (`IDbgValueNodeFormatParameters`): each of the four
   * outputs is absent or a writer, and each formatter call gets its own options.
   */
  datatype FormatParameters = FormatParameters(
    nameOutput: Option<TextWriter>,
    expectedTypeOutput: Option<TextWriter>,
    actualTypeOutput: Option<TextWriter>,
    valueOutput: Option<TextWriter>,
    expectedTypeFormatterOptions: TypeFormatterOptions,
    actualTypeFormatterOptions: TypeFormatterOptions,
    valueFormatterOptions: ValueFormatterOptions)
}
