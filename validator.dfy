/** Schema validation of one declaration: options make a dropdown, `type: "slider"`
    makes a slider, anything else is an input. Each kind accepts its own config
    keys and types, fills in defaults and checks the value; the first failing
    check decides the message. Every failure is returned, none is raised. */
module Validator {
  import opened Python
  import opened Entities

  const DropdownKeys: seq<string> := ["type", "allow-input"]
  const SliderKeys: seq<string> := ["type", "min", "max", "step"]
  const InputKeys: seq<string> := ["type", "placeholder"]
  const DropdownTypes: seq<VarType> := [String, Raw]
  const InputTypes: seq<VarType> := [String, Number, Date, Integer, Raw, Boolean]

  /** The slider bounds, in the order they are coerced, with their defaults. */
  const BoundKeys: seq<string> := ["min", "max", "step"]
  const BoundDefaults: seq<int> := [0, 100, 1]

  /** The config keys each kind of field accepts. */
  function AllowedKeys(kind: FieldType): seq<string> {
    match kind
    case Dropdown => DropdownKeys
    case Slider => SliderKeys
    case Input => InputKeys
  }

  /** The kind a declaration is validated as: options first, then a slider type. */
  function KindOf(options: Option<seq<Value>>, config: Dict): FieldType {
    if options.Some? then Dropdown
    else if DictGetOr(config, "type", PyNone) == PyStr("slider") then Slider
    else Input
  }

  /** Python's `str()` of a list of plain names, as in `['type', 'allow-input']`. */
  function NameList(names: seq<string>): string {
    "[" + QuotedNames(names) + "]"
  }

  function QuotedNames(names: seq<string>): string {
    if |names| == 0 then ""
    else if |names| == 1 then "'" + names[0] + "'"
    else "'" + names[0] + "', " + QuotedNames(names[1..])
  }

  function TypeNames(types: seq<VarType>): seq<string> {
    seq(|types|, i requires 0 <= i < |types| => VarTypeName(types[i]))
  }

  /** The index of the first config entry at or after `from` whose key `supported`
      does not list, or the number of entries when there is none. */
  function FirstUnsupported(config: Dict, supported: seq<string>, from: nat): (j: nat)
    requires from <= |config|
    ensures from <= j <= |config|
    ensures forall i :: from <= i < j ==> config[i].0 in supported
    ensures j < |config| ==> config[j].0 !in supported
    decreases |config| - from
  {
    if from == |config| || config[from].0 !in supported then from
    else FirstUnsupported(config, supported, from + 1)
  }

  /** The message naming the first unsupported key, in entry order, if any. */
  function CheckProperties(config: Dict, elem: string, supported: seq<string>): (r: Option<string>)
    ensures r.None? <==> forall i :: 0 <= i < |config| ==> config[i].0 in supported
    ensures r.Some? ==> exists i :: && 0 <= i < |config| && config[i].0 !in supported
                                    && (forall j :: 0 <= j < i ==> config[j].0 in supported)
                                    && r.value == elem + " only support the following properties: "
                                                  + NameList(supported) + ". Found: " + config[i].0
  {
    var i := FirstUnsupported(config, supported, 0);
    if i == |config| then None
    else Some(elem + " only support the following properties: " + NameList(supported) + ". Found: " + config[i].0)
  }

  /** The declared type when it is the name of one of `supported`, else the message. */
  function CheckType(host: Host, typ: Value, elem: string, supported: seq<VarType>): (r: Result<VarType, string>)
    ensures r.Ok? <==> exists t :: t in supported && typ == PyStr(VarTypeName(t))
    ensures r.Ok? ==> r.value in supported && typ == PyStr(VarTypeName(r.value))
    ensures r.Err? ==> r.error == elem + " only support the following types: "
                                  + NameList(TypeNames(supported)) + ". Found: " + Str(host, typ)
  {
    if typ.PyStr? && VarTypeNamed(typ.s).Some? && VarTypeNamed(typ.s).value in supported then
      Ok(VarTypeNamed(typ.s).value)
    else
      Err(elem + " only support the following types: " + NameList(TypeNames(supported)) + ". Found: " + Str(host, typ))
  }

  /** `[str(o) for o in options]`. */
  function Stringified(host: Host, options: seq<Value>): (r: seq<string>)
    ensures |r| == |options| && forall i :: 0 <= i < |options| ==> r[i] == Str(host, options[i])
  {
    seq(|options|, i requires 0 <= i < |options| => Str(host, options[i]))
  }

  /** The strings as Python string values, as the list `repr` prints them. */
  function StrValues(names: seq<string>): seq<Value> {
    seq(|names|, i requires 0 <= i < |names| => PyStr(names[i]))
  }

  /** A dropdown: only `type` and `allow-input`; the type defaults to "string" and
      must be "string" or "raw"; options are stringified; unless free input is
      allowed, the stringified value must be one of them. */
  function ValidateDropdown(host: Host, variable: string, value: Value, options: seq<Value>,
                            config: Dict, code: string, lineno: int): (r: Result<Param, string>)
    ensures CheckProperties(config, "Dropdowns", DropdownKeys).Some? ==>
              r == Err(CheckProperties(config, "Dropdowns", DropdownKeys).value)
    ensures var typ := DictGetOr(config, "type", PyNone);
            (CheckProperties(config, "Dropdowns", DropdownKeys).None? && typ != PyNone && typ != PyStr("string") && typ != PyStr("raw"))
              ==> r.Err? && r.error == CheckType(host, typ, "Dropdowns", DropdownTypes).error
    ensures var typ := DictGetOr(config, "type", PyNone);
            (CheckProperties(config, "Dropdowns", DropdownKeys).None? && typ in {PyNone, PyStr("string"), PyStr("raw")}) ==>
              if Truthy(DictGetOr(config, "allow-input", PyNone)) || Str(host, value) in Stringified(host, options) then r.Ok?
              else r == Err("Value " + Str(host, value) + " not in options: " + host.repr(PyList(StrValues(Stringified(host, options)))))
    ensures r.Ok? ==> && r.value.fieldType == Dropdown && WellFormed(host, r.value)
                      && r.value.options == Some(Stringified(host, options))
                      && r.value.value == value && r.value.variable == variable
                      && r.value.code == code && r.value.lineno == lineno
                      && r.value.allowInput == DictGetOr(config, "allow-input", PyBool(false))
                      && (DictGetOr(config, "type", PyNone) == PyNone ==> r.value.varType == String)
                      && (DictGetOr(config, "type", PyNone) != PyNone ==>
                            DictGetOr(config, "type", PyNone) == PyStr(VarTypeName(r.value.varType)))
  {
    match CheckProperties(config, "Dropdowns", DropdownKeys)
    case Some(err) => Err(err)
    case None =>
      var typ := DictGetOr(config, "type", PyNone);
      match CheckType(host, if typ == PyNone then PyStr("string") else typ, "Dropdowns", DropdownTypes)
      case Err(err) => Err(err)
      case Ok(varType) =>
        var shown := Stringified(host, options);
        if !Truthy(DictGetOr(config, "allow-input", PyNone)) && Str(host, value) !in shown then
          Err("Value " + Str(host, value) + " not in options: " + host.repr(PyList(StrValues(shown))))
        else
          Ok(Param(code, lineno, Dropdown, varType, variable, value,
                   options := Some(shown), allowInput := DictGetOr(config, "allow-input", PyBool(false))))
  }

  /** A slider bound after coercion: the value the config then holds (the integer
      default, or the float of the given value) and that value as a float. */
  datatype Bound = Bound(held: Value, num: Float)

  /** One bound: its default when absent, else `float()` of its value. */
  function CoerceBound(host: Host, config: Dict, key: string, default: int): (r: Result<Bound, string>)
    ensures r.Ok? ==> IsNumber(r.value.held) && r.value.num == NumberValue(r.value.held)
    ensures DictGet(config, key).None? ==> r == Ok(Bound(PyInt(default), Finite(default as real)))
    ensures DictGet(config, key).Some? ==>
              var v := DictGet(config, key).value;
              match ToFloat(host, v)
              case Converted(f) => r == Ok(Bound(PyFloat(f), f))
              case _ => r == Err(key + " must be a number. Found: " + Str(host, v))
  {
    match DictGet(config, key)
    case None => Ok(Bound(PyInt(default), Finite(default as real)))
    case Some(v) =>
      match ToFloat(host, v)
      case Converted(f) => Ok(Bound(PyFloat(f), f))
      case _ => Err(key + " must be a number. Found: " + Str(host, v))
  }

  /** The first `j` bounds, coerced in order; the first failure wins. */
  function CoercePrefix(host: Host, config: Dict, j: nat): (r: Result<seq<Bound>, string>)
    requires j <= |BoundKeys|
    ensures r.Ok? ==> |r.value| == j && forall t :: 0 <= t < j ==>
              CoerceBound(host, config, BoundKeys[t], BoundDefaults[t]) == Ok(r.value[t])
  {
    if j == 0 then Ok([])
    else
      match CoercePrefix(host, config, j - 1)
      case Err(e) => Err(e)
      case Ok(bounds) =>
        match CoerceBound(host, config, BoundKeys[j - 1], BoundDefaults[j - 1])
        case Err(e) => Err(e)
        case Ok(b) => Ok(bounds + [b])
  }

  /** Once a bound fails, the failure is the outcome of every longer prefix. */
  lemma {:induction false} CoerceFailureSticks(host: Host, config: Dict, j: nat, k: nat)
    requires j <= k <= |BoundKeys| && CoercePrefix(host, config, j).Err?
    ensures CoercePrefix(host, config, k) == CoercePrefix(host, config, j)
    decreases k - j
  {
    if j < k {
      CoerceFailureSticks(host, config, j, k - 1);
    }
  }

  lemma BoundKeysDistinct(t: nat, u: nat)
    requires t < u < |BoundKeys|
    ensures BoundKeys[t] != BoundKeys[u]
  {
    assert BoundKeys[0][1] == 'i' && BoundKeys[1][1] == 'a' && BoundKeys[2][1] == 't';
  }

  /** Writing the `j`th bound keeps the bounds written before it and every other key. */
  lemma SetBound(config: Dict, cfg: Dict, bounds: seq<Bound>, j: nat, b: Bound)
    requires j < |BoundKeys| && |bounds| == j
    requires forall t :: 0 <= t < j ==> DictGet(cfg, BoundKeys[t]) == Some(bounds[t].held)
    requires forall t :: j <= t < |BoundKeys| ==> DictGet(cfg, BoundKeys[t]) == DictGet(config, BoundKeys[t])
    requires forall k :: k !in BoundKeys ==> DictGet(cfg, k) == DictGet(config, k)
    ensures var cfg', bounds' := DictSet(cfg, BoundKeys[j], b.held), bounds + [b];
      && (forall t :: 0 <= t < j + 1 ==> DictGet(cfg', BoundKeys[t]) == Some(bounds'[t].held))
      && (forall t :: j + 1 <= t < |BoundKeys| ==> DictGet(cfg', BoundKeys[t]) == DictGet(config, BoundKeys[t]))
      && (forall k :: k !in BoundKeys ==> DictGet(cfg', k) == DictGet(config, k))
  {
    var cfg' := DictSet(cfg, BoundKeys[j], b.held);
    forall t | 0 <= t < j ensures DictGet(cfg', BoundKeys[t]) == Some(bounds[t].held) {
      BoundKeysDistinct(t, j);
    }
    forall t | j < t < |BoundKeys| ensures DictGet(cfg', BoundKeys[t]) == DictGet(config, BoundKeys[t]) {
      BoundKeysDistinct(j, t);
    }
  }

  lemma BoundKeysNamed()
    ensures BoundKeys[0] == "min" && BoundKeys[1] == "max" && BoundKeys[2] == "step"
    ensures "allow-input" !in BoundKeys && "placeholder" !in BoundKeys
  {
  }

  /** The bounds in order: min, then max, then step; the first failure wins. */
  lemma SliderBoundsInOrder(host: Host, config: Dict)
    ensures SliderBounds(host, config) ==
      match CoerceBound(host, config, "min", 0)
      case Err(e) => Err(e)
      case Ok(lo) =>
        match CoerceBound(host, config, "max", 100)
        case Err(e) => Err(e)
        case Ok(hi) =>
          match CoerceBound(host, config, "step", 1)
          case Err(e) => Err(e)
          case Ok(step) => Ok((lo, hi, step))
  {
    BoundKeysNamed();
    assert BoundDefaults[0] == 0 && BoundDefaults[1] == 100 && BoundDefaults[2] == 1;
    var lo, hi, step := CoerceBound(host, config, "min", 0), CoerceBound(host, config, "max", 100), CoerceBound(host, config, "step", 1);
    assert CoerceBound(host, config, BoundKeys[0], BoundDefaults[0]) == lo;
    assert CoerceBound(host, config, BoundKeys[1], BoundDefaults[1]) == hi;
    assert CoerceBound(host, config, BoundKeys[2], BoundDefaults[2]) == step;
    assert CoercePrefix(host, config, 1).Err? <==> lo.Err?;
    if lo.Ok? {
      assert CoercePrefix(host, config, 1).value == [lo.value];
      assert CoercePrefix(host, config, 2).Err? <==> hi.Err?;
      if hi.Ok? {
        assert CoercePrefix(host, config, 2).value == [lo.value, hi.value];
        assert CoercePrefix(host, config, 3).Err? <==> step.Err?;
        if step.Ok? {
          assert CoercePrefix(host, config, 3).value == [lo.value, hi.value, step.value];
        }
      } else {
        CoerceFailureSticks(host, config, 2, 3);
      }
    } else {
      CoerceFailureSticks(host, config, 1, 3);
    }
  }

  /** min, max and step, coerced in that order; the first failure wins. */
  function SliderBounds(host: Host, config: Dict): Result<(Bound, Bound, Bound), string> {
    match CoercePrefix(host, config, |BoundKeys|)
    case Err(e) => Err(e)
    case Ok(bounds) => Ok((bounds[0], bounds[1], bounds[2]))
  }

  /** The message for a value outside the bounds. */
  function OutOfRange(host: Host, x: Float, lo: Value, hi: Value): string {
    "Value " + host.formatFloat(x) + " not in range [" + Str(host, lo) + ", " + Str(host, hi) + "]"
  }

  /** A slider: only `type`, `min`, `max` and `step`; missing bounds default to
      0, 100 and 1; bounds and value must convert to floats (a value of the wrong
      type is reported like an unparsable one); then `min <= max` and
      `min <= value <= max` must hold, under Python's float comparison. */
  function ValidateSlider(host: Host, variable: string, value: Value, config: Dict,
                          code: string, lineno: int): Result<Param, string>
  {
    match CheckProperties(config, "Sliders", SliderKeys)
    case Some(err) => Err(err)
    case None =>
      match SliderBounds(host, config)
      case Err(e) => Err(e)
      case Ok((lo, hi, step)) =>
        match ToFloat(host, value)
        case Converted(x) =>
          if !Le(lo.num, hi.num) then Err("Min must be less than max")
          else if !(Le(lo.num, x) && Le(x, hi.num)) then Err(OutOfRange(host, x, lo.held, hi.held))
          else
            Ok(Param(code, lineno, Slider, Number, variable, PyFloat(x),
                     allowInput := DictGetOr(config, "allow-input", PyBool(false)),
                     min := lo.held, max := hi.held, step := step.held,
                     placeholder := DictGetOr(config, "placeholder", PyNone)))
        case _ => Err("value must be a number. Found: " + Str(host, value))
  }

  /** The slider checks run in order (keys, bounds, value, bounds' order, range), the
      first failure gives the message, and a slider that passes is well formed,
      holds the float of its value and the default of each missing bound. */
  lemma SliderOutcome(host: Host, variable: string, value: Value, config: Dict, code: string, lineno: int)
    ensures var r, unsupported, bounds := ValidateSlider(host, variable, value, config, code, lineno),
                                          CheckProperties(config, "Sliders", SliderKeys), SliderBounds(host, config);
      && (unsupported.Some? ==> r == Err(unsupported.value))
      && (unsupported.None? && bounds.Err? ==> r == Err(bounds.error))
      && (unsupported.None? && bounds.Ok? && !ToFloat(host, value).Converted? ==>
            r == Err("value must be a number. Found: " + Str(host, value)))
      && (unsupported.None? && bounds.Ok? && ToFloat(host, value).Converted? ==>
            var (lo, hi, x) := (bounds.value.0, bounds.value.1, ToFloat(host, value).f);
            && (!Le(lo.num, hi.num) ==> r == Err("Min must be less than max"))
            && (Le(lo.num, hi.num) && !(Le(lo.num, x) && Le(x, hi.num)) ==> r == Err(OutOfRange(host, x, lo.held, hi.held)))
            && (Le(lo.num, hi.num) && Le(lo.num, x) && Le(x, hi.num) ==> r.Ok?))
      && (r.Ok? ==> && r.value.fieldType == Slider && WellFormed(host, r.value)
                    && ToFloat(host, value) == Converted(r.value.value.f)
                    && r.value.variable == variable && r.value.code == code && r.value.lineno == lineno
                    && (DictGet(config, "min").None? ==> r.value.min == PyInt(0))
                    && (DictGet(config, "max").None? ==> r.value.max == PyInt(100))
                    && (DictGet(config, "step").None? ==> r.value.step == PyInt(1))
                    && (DictGet(config, "min").Some? ==> r.value.min == PyFloat(ToFloat(host, DictGet(config, "min").value).f))
                    && (DictGet(config, "max").Some? ==> r.value.max == PyFloat(ToFloat(host, DictGet(config, "max").value).f))
                    && (DictGet(config, "step").Some? ==> r.value.step == PyFloat(ToFloat(host, DictGet(config, "step").value).f)))
  {
    if ValidateSlider(host, variable, value, config, code, lineno).Ok? {
      assert "allow-input" !in SliderKeys && "placeholder" !in SliderKeys;
    }
  }

  /** An input: only `type` and `placeholder`; the type defaults to "raw" and must be
      one of the six variable types; the value is kept as given. */
  function ValidateInput(host: Host, variable: string, value: Value, config: Dict,
                         code: string, lineno: int): (r: Result<Param, string>)
    ensures CheckProperties(config, "Inputs", InputKeys).Some? ==>
              r == Err(CheckProperties(config, "Inputs", InputKeys).value)
    ensures var typ := DictGetOr(config, "type", PyNone);
            (CheckProperties(config, "Inputs", InputKeys).None? && typ != PyNone
             && (forall t :: typ != PyStr(VarTypeName(t))))
              ==> r.Err? && r.error == CheckType(host, typ, "Inputs", InputTypes).error
    ensures var typ := DictGetOr(config, "type", PyNone);
            (CheckProperties(config, "Inputs", InputKeys).None? && (typ == PyNone || exists t :: typ == PyStr(VarTypeName(t)))) ==> r.Ok?
    ensures r.Ok? ==> && r.value.fieldType == Input && WellFormed(host, r.value)
                      && r.value.value == value && r.value.variable == variable
                      && r.value.code == code && r.value.lineno == lineno
                      && r.value.placeholder == DictGetOr(config, "placeholder", PyNone)
                      && (DictGetOr(config, "type", PyNone) == PyNone ==> r.value.varType == Raw)
                      && (DictGetOr(config, "type", PyNone) != PyNone ==>
                            DictGetOr(config, "type", PyNone) == PyStr(VarTypeName(r.value.varType)))
  {
    match CheckProperties(config, "Inputs", InputKeys)
    case Some(err) => Err(err)
    case None =>
      var typ := DictGetOr(config, "type", PyNone);
      match CheckType(host, if typ == PyNone then PyStr("raw") else typ, "Inputs", InputTypes)
      case Err(err) => Err(err)
      case Ok(varType) =>
        assert "allow-input" !in InputKeys && "min" !in InputKeys && "max" !in InputKeys && "step" !in InputKeys;
        Ok(Param(code, lineno, Input, varType, variable, value,
                 allowInput := DictGetOr(config, "allow-input", PyBool(false)),
                 placeholder := DictGetOr(config, "placeholder", PyNone)))
  }

  /** A declaration's Param, or its ParamError carrying the line and its number. */
  function Validate(host: Host, variable: string, value: Value, options: Option<seq<Value>>,
                    config: Dict, code: string, lineno: int): (r: Result<Param, ParamError>)
    ensures r.Err? ==> r.error.code == code && r.error.lineno == lineno
    ensures r.Ok? ==> && WellFormed(host, r.value) && r.value.fieldType == KindOf(options, config)
                      && r.value.code == code && r.value.lineno == lineno && r.value.variable == variable
    ensures r.Ok? ==> forall i :: 0 <= i < |config| ==> config[i].0 in AllowedKeys(r.value.fieldType)
    ensures forall i :: 0 <= i < |config| && config[i].0 !in AllowedKeys(KindOf(options, config)) ==> r.Err?
  {
    var checked :=
      if options.Some? then ValidateDropdown(host, variable, value, options.value, config, code, lineno)
      else if DictGetOr(config, "type", PyNone) == PyStr("slider") then
        SliderOutcome(host, variable, value, config, code, lineno);
        ValidateSlider(host, variable, value, config, code, lineno)
      else ValidateInput(host, variable, value, config, code, lineno);
    match checked
    case Ok(p) => Ok(p)
    case Err(msg) => Err(ParamError(code, lineno, msg))
  }

  /** The bounds loop: each of min, max and step in turn is set to its default
      when absent and to its float otherwise; a bound that is not a number stops
      the loop with its message. */
  method CoerceBounds(host: Host, config: Dict) returns (r: Result<Dict, string>)
    ensures SliderBounds(host, config).Err? ==> r == Err(SliderBounds(host, config).error)
    ensures SliderBounds(host, config).Ok? ==>
              && r.Ok?
              && DictGet(r.value, "min") == Some(SliderBounds(host, config).value.0.held)
              && DictGet(r.value, "max") == Some(SliderBounds(host, config).value.1.held)
              && DictGet(r.value, "step") == Some(SliderBounds(host, config).value.2.held)
              && forall k :: k !in BoundKeys ==> DictGet(r.value, k) == DictGet(config, k)
  {
    var cfg := config;
    ghost var bounds: seq<Bound> := [];
    for j := 0 to |BoundKeys|
      invariant CoercePrefix(host, config, j) == Ok(bounds)
      invariant forall t :: 0 <= t < j ==> DictGet(cfg, BoundKeys[t]) == Some(bounds[t].held)
      invariant forall t :: j <= t < |BoundKeys| ==> DictGet(cfg, BoundKeys[t]) == DictGet(config, BoundKeys[t])
      invariant forall k :: k !in BoundKeys ==> DictGet(cfg, k) == DictGet(config, k)
    {
      var key := BoundKeys[j];
      var current := DictGet(cfg, key);
      var held: Value;
      if current.None? {
        held := PyInt(BoundDefaults[j]);
      } else {
        var converted := ToFloat(host, current.value);
        if !converted.Converted? {
          CoerceFailureSticks(host, config, j + 1, |BoundKeys|);
          return Err(key + " must be a number. Found: " + Str(host, current.value));
        }
        held := PyFloat(converted.f);
      }
      SetBound(config, cfg, bounds, j, CoerceBound(host, config, key, BoundDefaults[j]).value);
      cfg := DictSet(cfg, key, held);
      bounds := bounds + [CoerceBound(host, config, key, BoundDefaults[j]).value];
    }
    BoundKeysNamed();
    return Ok(cfg);
  }

  /** The slider branch step by step, in the source's order: the bounds are written
      back into a copy of the config by the bounds loop, and the checks then read
      that copy. A bound or value of the wrong type is reported and a NaN is
      rejected, which the code as written does not do (see the Findings module). */
  method CreateSlider(host: Host, variable: string, value: Value, config: Dict,
                      code: string, lineno: int) returns (r: Result<Param, string>)
    ensures r == ValidateSlider(host, variable, value, config, code, lineno)
  {
    var unsupported := CheckProperties(config, "Sliders", SliderKeys);
    if unsupported.Some? {
      return Err(unsupported.value);
    }
    var coerced := CoerceBounds(host, config);
    if coerced.Err? {
      return Err(coerced.error);
    }
    var cfg := coerced.value;
    BoundKeysNamed();
    var x := ToFloat(host, value);
    if !x.Converted? {
      return Err("value must be a number. Found: " + Str(host, value));
    }
    var lo, hi, step := DictGet(cfg, "min").value, DictGet(cfg, "max").value, DictGet(cfg, "step").value;
    if !Le(NumberValue(lo), NumberValue(hi)) {
      return Err("Min must be less than max");
    }
    if !(Le(NumberValue(lo), x.f) && Le(x.f, NumberValue(hi))) {
      return Err(OutOfRange(host, x.f, lo, hi));
    }
    r := Ok(Param(code, lineno, Slider, Number, variable, PyFloat(x.f),
                  allowInput := DictGetOr(cfg, "allow-input", PyBool(false)),
                  min := lo, max := hi, step := step,
                  placeholder := DictGetOr(cfg, "placeholder", PyNone)));
  }

  /** The validation of one declaration step by step, in the source's order, with
      the corrected slider branch. */
  method CreateParam(host: Host, variable: string, value: Value, options: Option<seq<Value>>,
                     config: Dict, code: string, lineno: int) returns (r: Result<Param, ParamError>)
    ensures r == Validate(host, variable, value, options, config, code, lineno)
  {
    var checked: Result<Param, string>;
    if options.Some? {
      checked := ValidateDropdown(host, variable, value, options.value, config, code, lineno);
    } else if DictGetOr(config, "type", PyNone) == PyStr("slider") {
      checked := CreateSlider(host, variable, value, config, code, lineno);
    } else {
      checked := ValidateInput(host, variable, value, config, code, lineno);
    }
    r := if checked.Ok? then Ok(checked.value) else Err(ParamError(code, lineno, checked.error));
  }
}
