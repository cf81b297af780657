/**
 * The command catalogue's records: a command with its flags, options,
 * their value parameters and the worked examples whose presets can be
 * applied to the builder.
 */
module Model {
  import opened Wrappers
  import Text

  datatype ParameterType = TextType | NumberType | EnumType

  /** One choice of an enum parameter (`labelText` is the source's `label`, a Dafny keyword). */
  datatype EnumValue = EnumValue(value: string, labelText: string, description: Option<string>)

  /** A `string | number` value. Numbers are integers in this model. */
  datatype Value = Str(s: string) | Num(n: int)

  datatype Parameter = Parameter(
    kind: ParameterType,
    placeholder: Option<string>,
    enumValues: Option<seq<EnumValue>>,
    defaultValue: Option<Value>)

  /** A boolean switch; `flag` is its literal, such as "-v". */
  datatype Flag = Flag(
    id: string,
    flag: string,
    description: string,
    link: Option<string>,
    selected: Option<bool>,
    parameter: Option<Parameter>)

  /** A switch that may carry a value; `option` is its literal, such as "--port". */
  datatype OptionDef = OptionDef(
    id: string,
    option: string,
    description: string,
    link: Option<string>,
    selected: Option<bool>,
    parameter: Option<Parameter>)

  /** The selection an example prescribes for one flag or option id. */
  datatype Preset = Preset(selected: bool, value: Option<Value>)

  datatype Example = Example(command: string, description: string, presets: map<string, Preset>)

  datatype Command = Command(
    id: string,
    name: string,
    description: string,
    link: Option<string>,
    flags: seq<Flag>,
    options: seq<OptionDef>,
    examples: Option<seq<Example>>)

  datatype CommandData = CommandData(commands: seq<Command>)

  /**
   * JavaScript truthiness of an optional `string | number`: `undefined`,
   * the empty string and the number 0 are false, everything else is true.
   */
  predicate Truthy(v: Option<Value>) {
    match v
    case None => false
    case Some(Str(s)) => s != ""
    case Some(Num(n)) => n != 0
  }

  /** `value.toString()`. */
  function ValueText(v: Value): string {
    match v
    case Str(s) => s
    case Num(n) => Text.IntToString(n)
  }

  /** A truthy value never renders as the empty string. */
  lemma TruthyTextNonEmpty(v: Option<Value>)
    requires Truthy(v)
    ensures ValueText(v.value) != ""
  {
    if v.value.Num? {
      Text.IntToStringShape(v.value.n);
    }
  }
}
