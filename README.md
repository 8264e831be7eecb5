# ipyform annotation parser, modelled in Dafny

ipyform turns a notebook cell into a form. Each top-level assignment on a single
line that ends in a `# @param …` comment declares a form field, for example
`speed = 3 # @param {type: "slider", min: 0, max: 10}`. The parser reads every
such declaration and validates it against the schema for its kind: dropdown,
slider or input. It collects the valid fields as parameters and the failures as
per-line errors. It also reads the first `# @title` line, which gives the title
and an optional display mode, and every `# @markdown` line. Before IPython runs a
cell, a cell transformer does one of three things:
- on Colab, it drops the lines that call the form magics;
- elsewhere, it turns a `#! %%form` comment into the `%%form` magic;
- in auto-detect mode, it puts `%%form` in front of a cell that mentions `# @param`.

The model has these modules:

- `Python`: the built-in behaviour the parser relies on: `str.strip`, `find`,
  `startswith`, whitespace, dict `get` and item assignment, `str()` and `float()`.
  Python floats are `Finite(real) | PosInf | NegInf | NaN`, compared as Python
  compares them. Library code that cannot be seen is a `Host` record of
  functions: the JS-literal parser (chompjs), float parsing and formatting, and
  `repr` of containers.
- `Entities`: `Param`, `ParamError`, `Markdown` and `Form` as values. The
  predicate `WellFormed` says what a validated field of each kind carries.
- `Extractor`: the balanced-literal search. Starting at `{` or `[`, it tries each
  later matching closer until the literal parser accepts the prefix.
- `Annotation`: finding the `@param` comment on a line, and splitting it into an
  options list and a config mapping.
- `Validator`: validation of one declaration: allowed keys, types, defaults,
  slider bounds and range, dropdown membership.
- `Parser`: the whole document: statements, title and display mode, markdown.
- `Transformer`: the cell transformer, with "running on Colab" and "auto-detect
  on" as parameters.
- `Findings`: the behaviour of the source as written where it departs from its
  evident intent, each shown on one input next to the corrected definition.

Python's syntax tree is an input to the model. Each top-level statement becomes a
`Parser.Statement` record holding what the parser reads of it: whether it is an
assignment, how many targets it has, its first and last line, the name of its
first target when that target is a plain name, its end column (a UTF-8 byte
offset, as Python reports it) and its right-hand side (a constant, or the
unparsed source text of any other expression).

Each function is the specification of what the source computes. The loops of
the source that build a result step by step are methods proved equal to their
functions (the key scan of `_check_properties` is the recursive
`Validator.FirstUnsupported` instead):
- `TryConsumeJson` to `Consume`;
- `SkipWhitespace` to `WhitespaceEnd`;
- `CoerceBounds`, `CreateSlider` and `CreateParam` to `SliderBounds`,
  `ValidateSlider` and `Validate`;
- `ExtractTitleAndDisplayMode` to `FirstTitle`;
- `ExtractMarkdown` to `Markdowns`;
- `Parse` to `Document`.

The properties the source promises are proved about those functions.

## Model

| member | source | states |
|---|---|---|
| Python.WhitespaceEnd | src/ipyform/parser.py:153-157 | the index reached is the first non-whitespace character at or after the start, or the end of the text; everything skipped is whitespace |
| Python.StripShape | src/ipyform/parser.py:83 | `strip()` keeps a contiguous slice that neither starts nor ends with whitespace, and cuts only whitespace on either side |
| Python.Find | src/ipyform/parser.py:78 | `find` returns the first index at or after the start holding the character, or -1 exactly when there is none |
| Python.DictGet | src/ipyform/parser.py:167 | `get` finds nothing exactly when no entry has the key; otherwise it returns the value of the last entry for the key |
| Python.DictSet | src/ipyform/parser.py:188-192 | after `config[k] = v`, `k` maps to `v`, every other key keeps its value, and no key is lost or invented |
| Python.ToFloat | src/ipyform/parser.py:192 | `float()` raises TypeError exactly on None, lists and dicts; it raises ValueError exactly on a string the float parser refuses; a string it parses converts to the parsed float, a bool to 1.0 or 0.0, an int or a float to its own value |
| Entities.VarTypeNamed | src/ipyform/entities.py:12 | a name denotes a variable type exactly when it is the written name of one of the six types |
| Extractor.Consume | src/ipyform/parser.py:112-125 | a found literal ends at a matching closer, its prefix parses, and no earlier closer's prefix parses; nothing is found exactly when no closer's prefix parses |
| Extractor.TryConsumeJson | src/ipyform/parser.py:112-125 | the search loop returns exactly the first closer position whose prefix parses, or fails when there is none |
| Extractor.ConsumeIgnoresSuffix | src/ipyform/parser.py:117-121 | text after the literal's closer never changes the literal found |
| Annotation.SkipWhitespace | src/ipyform/parser.py:153-157 | the loop stops at the first non-whitespace character at or after the start |
| Annotation.ExtractComment | src/ipyform/parser.py:76-86 | an annotation is the stripped text after the first `#` from the column on, and it starts with `@param`; a line with no `#` there has none |
| Annotation.CommentAtFirstHash | src/ipyform/parser.py:78-86 | only the first `#` matters: the annotation is the text after it when that text starts with `@param`, and there is none otherwise, whatever later `#`s hold |
| Annotation.ParseComment | src/ipyform/parser.py:89-109 | an empty remainder gives no options and an empty config; `{` gives a config; `[` gives options, then a config when a `{` follows after whitespace; a literal that does not parse, or any other first character, gives its error message |
| Annotation.AnnotationShape | src/ipyform/parser.py:91-109 | a remainder opening with `{` is a config alone, the shortest closer-delimited prefix that parses, and fails exactly when none parses; one opening with `[` is the shortest parsing options list, followed by a config exactly when the first non-whitespace character after it is `{` (again the shortest parsing prefix, failing exactly when none parses), and by an empty config otherwise; any other failure is the "Unable to parse" error |
| Annotation.LiteralUnique | src/ipyform/parser.py:112-125 | a shortest closer-delimited prefix that parses is exactly the literal the search returns |
| Validator.FirstUnsupported | src/ipyform/parser.py:234-236 | every key before the index found is supported, and the key at it is not |
| Validator.CheckProperties | src/ipyform/parser.py:232-236 | no message exactly when every key is supported; otherwise the message names the first unsupported key in entry order |
| Validator.CheckType | src/ipyform/parser.py:239-242 | accepted exactly when the type is the name of a supported type; otherwise the message lists the supported names and shows the type found |
| Validator.Stringified | src/ipyform/parser.py:178 | the options become their `str()`, one for one and in order |
| Validator.ValidateDropdown | src/ipyform/parser.py:170-180 | unsupported keys, then a bad type, then a value outside the options without `allow-input` give their errors in that order, the last with the "Value … not in options: …" message; a dropdown passing all three checks is accepted, well formed, keeps the value, holds the stringified options, and has type "string" by default |
| Validator.CoerceBound | src/ipyform/parser.py:187-194 | an absent bound takes its default; a present one is `float()` of its value, a number whose float the config then holds; a value `float()` refuses gives "<key> must be a number. Found: <value>" |
| Validator.CoercePrefix | src/ipyform/parser.py:187-194 | on success, each bound coerced so far is that key's own coercion, in the order min, max, step |
| Validator.CoerceFailureSticks | src/ipyform/parser.py:191-194 | the first bound that fails decides the outcome of the whole loop |
| Validator.SetBound | src/ipyform/parser.py:188-192 | writing one bound back keeps the bounds already written and every other key of the config |
| Validator.SliderBoundsInOrder | src/ipyform/parser.py:187 | the bounds are coerced min, then max, then step, and the first failure wins |
| Validator.SliderOutcome | src/ipyform/parser.py:183-202 | the checks run in order (keys, bounds, value, bounds' order, range) and the first failure gives the message; an accepted slider is well formed, holds the float of its value, defaults missing bounds to 0, 100 and 1, and holds the float of each bound given |
| Validator.ValidateInput | src/ipyform/parser.py:205-214 | unsupported keys, then a type that names no variable type, give their errors; an input with allowed keys and an absent or valid type is accepted, keeps the value and the placeholder, and has type "raw" by default |
| Validator.Validate | src/ipyform/parser.py:160-229 | an accepted field is well formed and of the kind its options and type select, and every config key is allowed for that kind; any unsupported key gives an error; an error carries the line and its number |
| Validator.CoerceBounds | src/ipyform/parser.py:187-194 | the loop writes each bound into the config as its default or its float, stops at the first bound that is not a number with that bound's coercion error, and leaves every key other than min, max and step as it was |
| Validator.CreateSlider | src/ipyform/parser.py:183-202 | the slider branch, run in the source's order with the bounds written back into the config, gives exactly the corrected slider validation `ValidateSlider` |
| Validator.CreateParam | src/ipyform/parser.py:160-229 | the dispatch on options and type, run in the source's order, gives exactly `Validate`, with the corrected slider branch |
| Parser.CharColumn | src/ipyform/parser.py:78 | the character index reached by a byte offset lies within the line, and never exceeds an offset that lies within the line |
| Parser.CharColumnInverts | src/ipyform/parser.py:78 | the byte length of the first `k` characters maps back to character `k` |
| Parser.CharColumnAscii | src/ipyform/parser.py:78 | on an ASCII line a byte offset is a character index |
| Parser.CommentAfterStatement | src/ipyform/parser.py:76-78 | the search for the annotation starts at the character where the statement ends |
| Parser.StatementOutcome | src/ipyform/parser.py:14-55 | a statement is skipped exactly when it is not a one-line single-target assignment to a plain name with an annotation; a declared parameter is well formed and carries its line, line number and variable; an error carries its line and line number |
| Parser.DeclaredParamsFrom | src/ipyform/parser.py:52-55 | every parameter comes from some statement, every declared statement's parameter is kept, and each statement contributes at most one parameter or error |
| Parser.FailuresFrom | src/ipyform/parser.py:35 | every error comes from some statement |
| Parser.StatementsIndependent | src/ipyform/parser.py:14-55 | parsing two runs of statements gives the parameters and errors of each, in order, so a faulty annotation never hides another declaration |
| Parser.FirstTitleLine | src/ipyform/parser.py:130-131 | the index found is a title line and no earlier line is one |
| Parser.TitleShape | src/ipyform/parser.py:128-140 | a title has no surrounding whitespace; a display mode comes only with a title cut before its `{`; a title line without `{` keeps all its text and has no display mode |
| Parser.TitleCases | src/ipyform/parser.py:131-139 | with no `{`, the whole stripped text is the title and there is no mode; when the config opened by the first `{` parses, the title is the stripped text before it and the mode is the config's `display-mode`; when it does not parse, the whole text is the title and there is no mode |
| Parser.ExtractTitleAndDisplayMode | src/ipyform/parser.py:128-140 | the loop returns the title and display mode of the first title line, and none when there is none |
| Parser.Markdowns | src/ipyform/parser.py:143-150 | every block comes from a marker line, numbered from 1, in increasing line order |
| Parser.MarkdownsText | src/ipyform/parser.py:146-148 | each block holds its line and the text after the marker, stripped |
| Parser.MarkdownsComplete | src/ipyform/parser.py:145-149 | no marker line is missed |
| Parser.ExtractMarkdown | src/ipyform/parser.py:143-150 | the markdown loop gives exactly those blocks |
| Parser.Document | src/ipyform/parser.py:57-66 | the form keeps every line verbatim; its parameters and errors are those of the statements in order, its title is the first title line's, its markdown blocks are those of all lines, and its display mode is the title's when that is truthy and "both" otherwise |
| Parser.ParamsDeclared | src/ipyform/parser.py:14-55 | every parameter of the form is well formed and declared by a one-line assignment to a plain name whose line carries the annotation |
| Parser.ErrorsAnnotated | src/ipyform/parser.py:27-36 | every error of the form sits on the line of a one-line assignment to a plain name that carries the annotation |
| Parser.DocumentComplete | src/ipyform/parser.py:14-55 | parameters plus errors number the non-skipped statements, and every declared parameter is in the form |
| Parser.Parse | src/ipyform/parser.py:9-66 | the parse loop with its early exits, followed by the title and markdown passes, gives exactly `Document` |
| Transformer.MagicLineIsFormPrefix | src/ipyform/ipython_ext.py:82 | a line that calls either magic is exactly a line that starts with `%%form` |
| Transformer.DropMagicLines | src/ipyform/ipython_ext.py:82 | no kept line calls a magic, every line that calls none is kept, and nothing is added |
| Transformer.DropMagicLinesAppend | src/ipyform/ipython_ext.py:82 | the lines are filtered one by one, so the kept lines stay in order |
| Transformer.StripMarker | src/ipyform/ipython_ext.py:88 | removing `#!` and the whitespace after it leaves a suffix of the line that does not start with whitespace |
| Transformer.StripMarkerExposesMagic | src/ipyform/ipython_ext.py:86-88 | removing the marker from a marker line leaves a line that calls the form magic |
| Transformer.FirstMarker | src/ipyform/ipython_ext.py:85-86 | the index found is a marker line and no earlier line is one |
| Transformer.CommentMagicTransformer | src/ipyform/ipython_ext.py:67-93 | on Colab the magic lines are dropped; elsewhere only the first marker line changes and it becomes the magic; without a marker line, auto-detect prepends `%%form` to a cell that mentions `# @param`; otherwise the cell is unchanged |
| Findings.AsciiCommentAgrees | src/ipyform/parser.py:78 | on a line of ASCII characters the search as written gives the same annotation as the corrected search |
| Findings.ByteOffsetSkipsComment | src/ipyform/parser.py:76-86 | on `x = "é"#@param`, the search as written misses the annotation and the corrected search finds it |
| Findings.SliderAsWritten | src/ipyform/parser.py:183-202 | an accepted slider as written holds the float of its value |
| Findings.NoneValueEscapes | src/ipyform/parser.py:195-198 | on `a = None # @param {type: "slider"}`, the code as written raises out of the parser; the corrected validation reports an error |
| Findings.NaNValueAccepted | src/ipyform/parser.py:199-202 | as written, a NaN value passes both order checks; the corrected validation rejects it as out of range |
| Findings.SliderAgreesAwayFromFindings | src/ipyform/parser.py:183-202 | with no TypeError and no NaN, the corrected slider validation does exactly what the code as written does |
| Findings.BoundAgrees | src/ipyform/parser.py:187-194 | a bound without a TypeError or a NaN is coerced the same way in both versions |

## Left out

- Parsing the code into a syntax tree and splitting it into lines are inputs, not modelled. `Parser.LinesCover` requires that every one-line assignment's line number names a line. A cell that does not parse raises SyntaxError out of the parser, which is not modelled.
- chompjs is `Host.parseObject` and `Host.parseArray`, a partial function per opener. Exceptions other than ValueError from chompjs are not modelled.
- A parsed dict is a list of entries in source order. Its `get` returns the last entry for a key. The model does not prove that chompjs never yields duplicate keys.
- Floats are reals plus infinities and NaN. Rounding to binary64, overflow in `float()` and the exact text of `str()` of a float (`Host.formatFloat`) are not modelled.
- Constants of type bytes, complex or Ellipsis on the right-hand side are not modelled. `ast.unparse` of other expressions is the statement's given source text.
- `repr` of lists and dicts, used in the dropdown's "not in options" message and in `str()` of a list or dict value, is `Host.repr`.
- `Param.__repr__` (src/ipyform/entities.py:26-34) is display only and is not modelled.
- The parser reads the statement's line before it checks that the target is a plain name. In the model, the line is read only for a plain-name target. `LinesCover` makes this unobservable.
- The display mode from the title configuration is kept as whatever value it holds. It is not checked against "form", "code" and "both", matching the code rather than the narrower documented type.
- Python's `any(...)` over the lines stops at the first match, whereas `CommentMagicTransformer` scans every line. The result is the same.
- The widget layer, the `%%form` and `%%form_config` magics, CONFIG handling and environment detection in src/ipyform/ipython_ext.py are not part of this model. "Running on Colab" and "auto-detect on" are parameters.
- `re.match(r"^#!\s*%%form", …)` and `re.sub(r"^#!\s*", "", …)` are modelled with the whitespace set of `str.isspace()`, which `\s` shares for `str` patterns.
- Validator.CreateParam: it follows the source's steps but gives the corrected slider outcome on the inputs listed under Findings. A bound or value of a type `float()` rejects is an error rather than an escaping TypeError, and a NaN is rejected.
- Validator.CreateSlider: it gives the same corrected slider outcome as `Validator.CreateParam`, for the same reason.
- Validator.ValidateSlider: the corrected slider validation reports a bound or value of the wrong type like an unparsable one, and rejects NaN. The code as written does neither; see Findings.
- Annotation.ExtractComment: the column searched from is a character index. The parser turns the syntax tree's byte offset into one (`Parser.CommentOf`); the code as written does not, as listed under Findings.

## Findings

| source | as written | input that shows it | evidently intended | confidence | as-written member | corrected member |
|---|---|---|---|---|---|---|
| src/ipyform/parser.py:78 | `line.find("#", node.end_col_offset)` uses the syntax tree's UTF-8 byte offset as a character index, so a non-ASCII character before the annotation moves the search past the `#` | `x = "é"#@param` (the statement ends after 7 characters, which take 8 bytes) | search from the character where the statement ends | high, not executed | Findings.CommentAsWritten, Findings.ByteOffsetSkipsComment, Findings.AsciiCommentAgrees | Parser.CommentOf, Parser.CommentAfterStatement |
| src/ipyform/parser.py:191-198 | `float()` of None, a list or a dict raises TypeError, which the `except ValueError` clauses do not catch, so the exception escapes the whole parse | `a = None # @param {type: "slider"}` | report "value must be a number. Found: None" as a ParamError, like every other validation failure | high, not executed | Findings.SliderAsWritten, Findings.NoneValueEscapes | Validator.ValidateSlider, Validator.SliderOutcome |
| src/ipyform/parser.py:199-202 | the order checks `min > max` and `value < min or value > max` are false for NaN, so a NaN value or bound passes them | `a = "nan" # @param {type: "slider"}` | a slider whose value lies within `[min, max]` | medium, not executed | Findings.SliderAsWritten, Findings.NaNValueAccepted | Validator.ValidateSlider, Validator.SliderOutcome |
