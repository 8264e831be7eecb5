/** Behaviour of the parser as written that its evident intent rules out, each
    shown on one input next to the corrected definition the rest of the model uses. */
module Findings {
  import opened Python
  import opened Entities
  import opened Annotation
  import opened Validator
  import opened Parser

  // ---- the annotation search reads a byte offset as a character index ----

  /** The annotation search as written: the statement's end, a UTF-8 byte offset,
      is used as a character index into the line. */
  function CommentAsWritten(line: string, endColOffset: nat): Option<string> {
    ExtractComment(line, endColOffset)
  }

  /** On a line of ASCII characters the search as written is the corrected search. */
  lemma AsciiCommentAgrees(line: string, endColOffset: nat)
    requires forall i :: 0 <= i < |line| ==> line[i] as int < 0x80
    ensures CommentAsWritten(line, endColOffset) == CommentOf(line, endColOffset)
  {
    CharColumnAscii(line, endColOffset);
    if endColOffset > |line| {
      assert CommentAsWritten(line, endColOffset).None?;
      assert CommentOf(line, endColOffset) == ExtractComment(line, |line|);
    }
  }

  /** `x = "é"#@param`: the statement ends after 7 characters, which take 8 bytes,
      so the search as written starts past the `#` and the annotation is silently
      ignored, while the corrected search finds it. */
  lemma ByteOffsetSkipsComment()
    ensures var line := "x = \"é\"#@param";
      && Utf8Length(line[..7]) == 8
      && CommentAsWritten(line, 8) == None
      && CommentOf(line, 8) == Some("@param")
  {
    var line := "x = \"é\"#@param";
    StatementBytes(line);
    assert Find(line, '#', 8) == -1;
    AnnotationAtSeven(line);
    CommentAfterStatement(line, 7);
  }

  lemma StatementBytes(line: string)
    requires line == "x = \"é\"#@param"
    ensures Utf8Length(line[..7]) == 8
  {
    var s := line[..7];
    assert s == "x = \"é\"";
    assert Utf8Length(s[6..]) == 1;
    assert s[5..][1..] == s[6..] && Utf8Width(s[5]) == 2;
    assert Utf8Length(s[5..]) == 3;
    assert Utf8Length(s[4..]) == 4 by { assert s[4..][1..] == s[5..]; }
    assert Utf8Length(s[3..]) == 5 by { assert s[3..][1..] == s[4..]; }
    assert Utf8Length(s[2..]) == 6 by { assert s[2..][1..] == s[3..]; }
    assert Utf8Length(s[1..]) == 7 by { assert s[1..][1..] == s[2..]; }
  }

  lemma AnnotationAtSeven(line: string)
    requires line == "x = \"é\"#@param"
    ensures ExtractComment(line, 7) == Some("@param")
  {
    assert Find(line, '#', 7) == 7;
    assert line[8..] == "@param";
    assert Strip("@param") == "@param" by {
      assert LeadingSpaces("@param") == 0;
    }
  }

  // ---- the slider's float conversions ----

  /** One bound's coercion as written: only ValueError is caught. */
  datatype Coercion = Coerced(bound: Bound) | Refused(message: string) | Escaped

  /** What the slider branch as written does: accept, reject with a message, or let
      an exception escape the whole parse. */
  datatype Verdict = Accepted(param: Param) | Rejected(message: string) | Raised

  function CoerceBoundAsWritten(host: Host, config: Dict, key: string, default: int): Coercion {
    match DictGet(config, key)
    case None => Coerced(Bound(PyInt(default), Finite(default as real)))
    case Some(v) =>
      match ToFloat(host, v)
      case Converted(f) => Coerced(Bound(PyFloat(f), f))
      case ValueError => Refused(key + " must be a number. Found: " + Str(host, v))
      case TypeError => Escaped
  }

  /** The slider branch as written: `float()` of None, a list or a dict raises a
      TypeError that the `except ValueError` clauses do not catch, and the order
      checks use `>` and `<`, which a NaN passes. */
  function SliderAsWritten(host: Host, variable: string, value: Value, config: Dict,
                           code: string, lineno: int): (r: Verdict)
    ensures r.Accepted? ==> r.param.fieldType == Slider && r.param.value.PyFloat? && ToFloat(host, value) == Converted(r.param.value.f)
  {
    match CheckProperties(config, "Sliders", SliderKeys)
    case Some(err) => Rejected(err)
    case None =>
      match CoerceBoundAsWritten(host, config, "min", 0)
      case Refused(m) => Rejected(m)
      case Escaped => Raised
      case Coerced(lo) =>
        match CoerceBoundAsWritten(host, config, "max", 100)
        case Refused(m) => Rejected(m)
        case Escaped => Raised
        case Coerced(hi) =>
          match CoerceBoundAsWritten(host, config, "step", 1)
          case Refused(m) => Rejected(m)
          case Escaped => Raised
          case Coerced(step) =>
            match ToFloat(host, value)
            case TypeError => Raised
            case ValueError => Rejected("value must be a number. Found: " + Str(host, value))
            case Converted(x) =>
              if Lt(hi.num, lo.num) then Rejected("Min must be less than max")
              else if Lt(x, lo.num) || Lt(hi.num, x) then Rejected(OutOfRange(host, x, lo.held, hi.held))
              else Accepted(Param(code, lineno, Slider, Number, variable, PyFloat(x),
                                  allowInput := DictGetOr(config, "allow-input", PyBool(false)),
                                  min := lo.held, max := hi.held, step := step.held,
                                  placeholder := DictGetOr(config, "placeholder", PyNone)))
  }

  /** The corrected slider validation as a verdict. */
  function Corrected(r: Result<Param, string>): Verdict {
    match r
    case Ok(p) => Accepted(p)
    case Err(m) => Rejected(m)
  }

  /** `a = None # @param {type: "slider"}`: as written, `float(None)` raises a
      TypeError out of the parser; the corrected validation reports the error. */
  lemma NoneValueEscapes(host: Host)
    ensures var config := [("type", PyStr("slider"))];
      && SliderAsWritten(host, "a", PyNone, config, "a = None # @param {type: \"slider\"}", 1) == Raised
      && ValidateSlider(host, "a", PyNone, config, "a = None # @param {type: \"slider\"}", 1)
           == Err("value must be a number. Found: None")
  {
    var config := [("type", PyStr("slider"))];
    assert CheckProperties(config, "Sliders", SliderKeys).None?;
    assert DictGet(config, "min").None? && DictGet(config, "max").None? && DictGet(config, "step").None?;
    SliderBoundsInOrder(host, config);
    SliderOutcome(host, "a", PyNone, config, "a = None # @param {type: \"slider\"}", 1);
    assert SliderBounds(host, config).Ok?;
    assert "value must be a number. Found: " + Str(host, PyNone) == "value must be a number. Found: None";
  }

  /** `a = "nan" # @param {type: "slider"}`: as written, a NaN value passes both
      order checks and becomes a slider outside its own range; the corrected
      validation rejects it. */
  lemma NaNValueAccepted(host: Host)
    requires host.parseFloat("nan") == Some(NaN)
    ensures var config := [("type", PyStr("slider"))];
      && SliderAsWritten(host, "a", PyStr("nan"), config, "a = \"nan\" # @param {type: \"slider\"}", 1).Accepted?
      && !Le(Finite(0.0), SliderAsWritten(host, "a", PyStr("nan"), config, "a = \"nan\" # @param {type: \"slider\"}", 1).param.value.f)
      && ValidateSlider(host, "a", PyStr("nan"), config, "a = \"nan\" # @param {type: \"slider\"}", 1)
           == Err(OutOfRange(host, NaN, PyInt(0), PyInt(100)))
  {
    var config := [("type", PyStr("slider"))];
    assert CheckProperties(config, "Sliders", SliderKeys).None?;
    assert DictGet(config, "min").None? && DictGet(config, "max").None? && DictGet(config, "step").None?;
    SliderBoundsInOrder(host, config);
    SliderOutcome(host, "a", PyStr("nan"), config, "a = \"nan\" # @param {type: \"slider\"}", 1);
  }

  /** Wherever no TypeError arises and no NaN is involved, the corrected validation
      does exactly what the code as written does. */
  lemma SliderAgreesAwayFromFindings(host: Host, variable: string, value: Value, config: Dict, code: string, lineno: int)
    requires !ToFloat(host, value).TypeError? && ToFloat(host, value) != Converted(NaN)
    requires forall k :: k in BoundKeys && DictGet(config, k).Some? ==>
               !ToFloat(host, DictGet(config, k).value).TypeError? && ToFloat(host, DictGet(config, k).value) != Converted(NaN)
    ensures SliderAsWritten(host, variable, value, config, code, lineno)
            == Corrected(ValidateSlider(host, variable, value, config, code, lineno))
  {
    BoundKeysNamed();
    SliderBoundsInOrder(host, config);
    SliderOutcome(host, variable, value, config, code, lineno);
    if CheckProperties(config, "Sliders", SliderKeys).None? {
      BoundAgrees(host, config, "min", 0);
      BoundAgrees(host, config, "max", 100);
      BoundAgrees(host, config, "step", 1);
    }
  }

  /** A bound that `float()` converts to a number other than NaN, or refuses with a
      ValueError, is coerced the same way in both versions. */
  lemma BoundAgrees(host: Host, config: Dict, key: string, default: int)
    requires DictGet(config, key).Some? ==>
               !ToFloat(host, DictGet(config, key).value).TypeError? && ToFloat(host, DictGet(config, key).value) != Converted(NaN)
    ensures CoerceBoundAsWritten(host, config, key, default) ==
              match CoerceBound(host, config, key, default)
              case Ok(b) => Coerced(b)
              case Err(m) => Refused(m)
    ensures CoerceBound(host, config, key, default).Ok? ==> !CoerceBound(host, config, key, default).value.num.NaN?
  {
  }
}
