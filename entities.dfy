/** The records a parse produces: validated parameters, per-line errors, markdown
    blocks and the form that gathers them. All are values, built once per parse. */
module Entities {
  import opened Python

  /** The three kinds of form field. */
  datatype FieldType = Dropdown | Slider | Input

  /** The variable types a field may declare. */
  datatype VarType = Boolean | Date | String | Raw | Number | Integer

  /** The name under which a variable type is written in an annotation. */
  function VarTypeName(t: VarType): string {
    match t
    case Boolean => "boolean"
    case Date => "date"
    case String => "string"
    case Raw => "raw"
    case Number => "number"
    case Integer => "integer"
  }

  /** The variable type written as `name`, if `name` is one of the six names. */
  function VarTypeNamed(name: string): (r: Option<VarType>)
    ensures r.Some? ==> VarTypeName(r.value) == name
    ensures r.None? ==> forall t: VarType :: VarTypeName(t) != name
  {
    if name == "boolean" then Some(Boolean)
    else if name == "date" then Some(Date)
    else if name == "string" then Some(String)
    else if name == "raw" then Some(Raw)
    else if name == "number" then Some(Number)
    else if name == "integer" then Some(Integer)
    else None
  }

  /** A validated form field. The optional attributes default as the dataclass does:
      no options, input not allowed, no bounds and no placeholder. Bounds hold the
      coerced bounds: the integer default, or the float of the given value. */
  datatype Param = Param(
    code: string,
    lineno: int,
    fieldType: FieldType,
    varType: VarType,
    variable: string,
    value: Value,
    options: Option<seq<string>> := None,
    allowInput: Value := PyBool(false),
    min: Value := PyNone,
    max: Value := PyNone,
    step: Value := PyNone,
    placeholder: Value := PyNone)

  /** A declaration that failed to parse or validate: its line, its 1-based number and the message. */
  datatype ParamError = ParamError(code: string, lineno: int, error: string)

  /** A markdown line: the line, its 1-based number and the text after the marker. */
  datatype Markdown = Markdown(code: string, lineno: int, text: string)

  /** The parsed document. The display mode defaults to "both"; it holds whatever
      value the title's configuration gave, since that value is not checked. */
  datatype Form = Form(
    code: seq<string>,
    title: Option<string>,
    params: seq<Param>,
    markdowns: seq<Markdown>,
    errors: seq<ParamError>,
    displayMode: Value := PyStr("both"))

  /** What a field of each kind carries once validated: a dropdown has options, a
      string or raw type and the value among its options unless free input is
      allowed; a slider has number type, numeric bounds in order and a float value
      between them; only an input has a placeholder. */
  predicate WellFormed(host: Host, p: Param) {
    match p.fieldType
    case Dropdown =>
      && p.options.Some?
      && p.varType in {String, Raw}
      && (!Truthy(p.allowInput) ==> Str(host, p.value) in p.options.value)
      && p.min == PyNone && p.max == PyNone && p.step == PyNone && p.placeholder == PyNone
    case Slider =>
      && p.varType == Number
      && p.value.PyFloat?
      && IsNumber(p.min) && IsNumber(p.max) && IsNumber(p.step)
      && Le(NumberValue(p.min), NumberValue(p.max))
      && Le(NumberValue(p.min), p.value.f) && Le(p.value.f, NumberValue(p.max))
      && p.options.None? && p.allowInput == PyBool(false) && p.placeholder == PyNone
    case Input =>
      && p.options.None? && p.allowInput == PyBool(false)
      && p.min == PyNone && p.max == PyNone && p.step == PyNone
  }
}
