/** The document parser: every top-level one-line assignment to a plain name whose
    line carries an `@param` annotation becomes a validated parameter or an error,
    in statement order; the first `# @title` line gives the title and display mode;
    every `# @markdown` line becomes a markdown block. The syntax tree is an input:
    one record per top-level statement, holding what the parser reads of it. */
module Parser {
  import opened Python
  import opened Entities
  import opened Extractor
  import opened Annotation
  import opened Validator

  /** An assignment's right-hand side: a literal constant, or any other expression
      kept as its unparsed source text. */
  datatype Rhs = Constant(value: Value) | Expression(source: string)

  /** What the parser reads of one top-level statement of the syntax tree. */
  datatype Statement = Statement(
    /** the statement is an assignment `targets = value` */
    isAssign: bool,
    /** how many `=`-separated targets it has */
    targetCount: nat,
    /** 1-based first and last line */
    lineno: int,
    endLineno: int,
    /** the first target's name when that target is a plain variable */
    targetName: Option<string>,
    /** where the statement ends on its last line, as a UTF-8 byte offset */
    endColOffset: nat,
    rhs: Rhs)

  /** A single-target assignment that fits on one line. */
  predicate IsValidAssignment(st: Statement) {
    st.isAssign && st.targetCount == 1 && st.lineno == st.endLineno
  }

  /** A constant's value, or the source text of any other expression. */
  function ValueOf(rhs: Rhs): Value {
    match rhs
    case Constant(v) => v
    case Expression(source) => PyStr(source)
  }

  /** The number of bytes UTF-8 uses for `c`. */
  function Utf8Width(c: char): nat {
    if c as int < 0x80 then 1
    else if c as int < 0x800 then 2
    else if c as int < 0x1_0000 then 3
    else 4
  }

  /** The length of the UTF-8 encoding of `s`. */
  function Utf8Length(s: string): nat {
    if s == [] then 0 else Utf8Width(s[0]) + Utf8Length(s[1..])
  }

  /** The character index at which the first `offset` bytes of the UTF-8 encoding
      of `line` end (the end of the line when the offset lies beyond it). */
  function CharColumn(line: string, offset: nat): (k: nat)
    ensures k <= |line|
    ensures offset <= |line| ==> k <= offset
  {
    if offset == 0 || line == [] then 0
    else 1 + CharColumn(line[1..], if offset <= Utf8Width(line[0]) then 0 else offset - Utf8Width(line[0]))
  }

  /** Byte offsets and character indices correspond: the byte length of the first
      `k` characters maps back to `k`. */
  lemma {:induction false} CharColumnInverts(line: string, k: nat)
    requires k <= |line|
    ensures CharColumn(line, Utf8Length(line[..k])) == k
    decreases k
  {
    if k > 0 {
      var w := Utf8Width(line[0]);
      assert line[..k][0] == line[0] && line[..k][1..] == line[1..][..k - 1];
      CharColumnInverts(line[1..], k - 1);
      if k == 1 {
        assert Utf8Length(line[..k]) == w;
      } else {
        Utf8LengthPositive(line[1..][..k - 1]);
      }
    }
  }

  lemma {:induction false} Utf8LengthPositive(s: string)
    requires s != []
    ensures Utf8Length(s) >= |s|
    decreases |s|
  {
    if |s| > 1 {
      Utf8LengthPositive(s[1..]);
    }
  }

  /** On a line of ASCII characters a byte offset is a character index. */
  lemma {:induction false} CharColumnAscii(line: string, offset: nat)
    requires forall i :: 0 <= i < |line| ==> line[i] as int < 0x80
    ensures CharColumn(line, offset) == if offset <= |line| then offset else |line|
    decreases |line|
  {
    if offset > 0 && line != [] {
      CharColumnAscii(line[1..], offset - 1);
    }
  }

  /** The annotation on a statement's line, searched from the character where the
      statement ends. */
  function CommentOf(line: string, endColOffset: nat): Option<string> {
    ExtractComment(line, CharColumn(line, endColOffset))
  }

  /** The search for the annotation starts right where the statement ends: for a
      statement whose text ends after the `k`th character of its line, the byte
      offset the syntax tree reports leads back to character `k`. */
  lemma CommentAfterStatement(line: string, k: nat)
    requires k <= |line|
    ensures CommentOf(line, Utf8Length(line[..k])) == ExtractComment(line, k)
  {
    CharColumnInverts(line, k);
  }

  /** What one top-level statement contributes. */
  datatype Outcome = Skipped | Declared(param: Param) | Failed(failure: ParamError)

  /** The line of every single-line assignment exists. */
  predicate LinesCover(lines: seq<string>, stmts: seq<Statement>) {
    forall i :: 0 <= i < |stmts| && IsValidAssignment(stmts[i]) ==> 1 <= stmts[i].lineno <= |lines|
  }

  /** A statement is skipped unless it is a single-line assignment to a plain name
      with an `@param` annotation; an annotation that does not parse gives an error
      on that line; otherwise the validated declaration gives a parameter or an error. */
  function StatementOutcome(host: Host, lines: seq<string>, st: Statement): (r: Outcome)
    requires IsValidAssignment(st) ==> 1 <= st.lineno <= |lines|
    ensures r.Skipped? <==> !IsValidAssignment(st) || st.targetName.None? || CommentOf(lines[st.lineno - 1], st.endColOffset).None?
    ensures r.Declared? ==> && WellFormed(host, r.param) && r.param.lineno == st.lineno
                            && r.param.code == lines[st.lineno - 1] && Some(r.param.variable) == st.targetName
    ensures r.Failed? ==> r.failure.lineno == st.lineno && r.failure.code == lines[st.lineno - 1]
  {
    if !IsValidAssignment(st) || st.targetName.None? then Skipped
    else
      var line := lines[st.lineno - 1];
      match CommentOf(line, st.endColOffset)
      case None => Skipped
      case Some(comment) =>
        match ParseComment(host, comment)
        case Err(msg) => Failed(ParamError(line, st.lineno, msg))
        case Ok(a) =>
          match Validate(host, st.targetName.value, ValueOf(st.rhs), a.options, a.config, line, st.lineno)
          case Ok(p) => Declared(p)
          case Err(e) => Failed(e)
  }

  function Outcomes(host: Host, lines: seq<string>, stmts: seq<Statement>): (r: seq<Outcome>)
    requires LinesCover(lines, stmts)
    ensures |r| == |stmts|
  {
    seq(|stmts|, i requires 0 <= i < |stmts| => StatementOutcome(host, lines, stmts[i]))
  }

  /** The parameters among the outcomes, in order. */
  function DeclaredParams(outcomes: seq<Outcome>): seq<Param> {
    if outcomes == [] then []
    else
      var last := outcomes[|outcomes| - 1];
      DeclaredParams(outcomes[..|outcomes| - 1]) + if last.Declared? then [last.param] else []
  }

  /** The errors among the outcomes, in order. */
  function Failures(outcomes: seq<Outcome>): seq<ParamError> {
    if outcomes == [] then []
    else
      var last := outcomes[|outcomes| - 1];
      Failures(outcomes[..|outcomes| - 1]) + if last.Failed? then [last.failure] else []
  }

  /** Every parameter is the outcome of some statement, and of one statement each. */
  lemma {:induction false} DeclaredParamsFrom(outcomes: seq<Outcome>)
    ensures forall p :: p in DeclaredParams(outcomes) ==> Declared(p) in outcomes
    ensures forall i :: 0 <= i < |outcomes| && outcomes[i].Declared? ==> outcomes[i].param in DeclaredParams(outcomes)
    ensures |DeclaredParams(outcomes)| + |Failures(outcomes)| + CountSkipped(outcomes) == |outcomes|
    decreases |outcomes|
  {
    if outcomes != [] {
      var init := outcomes[..|outcomes| - 1];
      DeclaredParamsFrom(init);
      forall i | 0 <= i < |outcomes| - 1 ensures outcomes[i] == init[i] { }
    }
  }

  function CountSkipped(outcomes: seq<Outcome>): nat {
    if outcomes == [] then 0
    else CountSkipped(outcomes[..|outcomes| - 1]) + if outcomes[|outcomes| - 1].Skipped? then 1 else 0
  }

  /** The errors are each the outcome of some statement. */
  lemma {:induction false} FailuresFrom(outcomes: seq<Outcome>)
    ensures forall e :: e in Failures(outcomes) ==> Failed(e) in outcomes
    decreases |outcomes|
  {
    if outcomes != [] {
      FailuresFrom(outcomes[..|outcomes| - 1]);
    }
  }

  /** Filtering a concatenation filters each part. */
  lemma {:induction false} CollectAppend(a: seq<Outcome>, b: seq<Outcome>)
    ensures DeclaredParams(a + b) == DeclaredParams(a) + DeclaredParams(b)
    ensures Failures(a + b) == Failures(a) + Failures(b)
    decreases |b|
  {
    if b == [] {
      assert a + b == a;
    } else {
      var b' := b[..|b| - 1];
      assert (a + b)[..|a + b| - 1] == a + b';
      CollectAppend(a, b');
    }
  }

  /** One statement's outcome does not depend on the others: parsing two runs of
      statements one after the other gives the parameters and errors of each, in
      order, so a faulty annotation never hides another declaration. */
  lemma StatementsIndependent(host: Host, lines: seq<string>, s1: seq<Statement>, s2: seq<Statement>)
    requires LinesCover(lines, s1) && LinesCover(lines, s2)
    ensures LinesCover(lines, s1 + s2)
    ensures DeclaredParams(Outcomes(host, lines, s1 + s2)) == DeclaredParams(Outcomes(host, lines, s1)) + DeclaredParams(Outcomes(host, lines, s2))
    ensures Failures(Outcomes(host, lines, s1 + s2)) == Failures(Outcomes(host, lines, s1)) + Failures(Outcomes(host, lines, s2))
  {
    var o, o1, o2 := Outcomes(host, lines, s1 + s2), Outcomes(host, lines, s1), Outcomes(host, lines, s2);
    forall i | 0 <= i < |o| ensures o[i] == (o1 + o2)[i] {
      if i < |s1| {
        assert (s1 + s2)[i] == s1[i];
      } else {
        assert (s1 + s2)[i] == s2[i - |s1|];
      }
    }
    assert o == o1 + o2;
    CollectAppend(o1, o2);
  }

  // ---- title and display mode ----

  const TitleMarker := "# @title"

  /** A title line's title and display mode: the text after the marker, stripped;
      when it holds a `{` whose configuration parses, the title is the stripped text
      before it and the mode is the configuration's `display-mode`. */
  function TitleOf(host: Host, line: string): (string, Option<Value>) {
    var title := Strip(RemovePrefix(line, TitleMarker));
    var i := Find(title, '{', 0);
    if i == -1 then (title, None)
    else
      match Consume(host.parseObject, title, i)
      case Some((config, _)) => (Strip(title[..i]), DictGet(config, "display-mode"))
      case None => (title, None)
  }

  /** The index of the first title line among `lines[from..]`, or the number of
      lines when there is none. */
  function FirstTitleLine(lines: seq<string>, from: nat): (i: nat)
    requires from <= |lines|
    ensures from <= i <= |lines|
    ensures i < |lines| ==> StartsWith(lines[i], TitleMarker)
    ensures forall j :: from <= j < i ==> !StartsWith(lines[j], TitleMarker)
    decreases |lines| - from
  {
    if from == |lines| || StartsWith(lines[from], TitleMarker) then from
    else FirstTitleLine(lines, from + 1)
  }

  /** The title and display mode of the first title line; none when there is none. */
  function FirstTitle(host: Host, lines: seq<string>): (Option<string>, Option<Value>) {
    var i := FirstTitleLine(lines, 0);
    if i == |lines| then (None, None) else (Some(TitleOf(host, lines[i]).0), TitleOf(host, lines[i]).1)
  }

  /** A title has no surrounding whitespace; a title line without `{` has no display
      mode and keeps all its text; a display mode is only read from a configuration
      that parsed, and then the title is the text before the first `{`, so it has none. */
  lemma TitleShape(host: Host, line: string)
    ensures var (title, mode) := TitleOf(host, line);
      && (title == [] || (!IsSpace(title[0]) && !IsSpace(title[|title| - 1])))
      && (mode.Some? ==> '{' !in title)
      && ('{' !in Strip(RemovePrefix(line, TitleMarker)) ==> title == Strip(RemovePrefix(line, TitleMarker)) && mode.None?)
  {
    var text := Strip(RemovePrefix(line, TitleMarker));
    var i := Find(text, '{', 0);
    if i != -1 && Consume(host.parseObject, text, i).Some? {
      var title := Strip(text[..i]);
      var k := LeadingSpaces(text[..i]);
      forall c | 0 <= c < |title| ensures title[c] != '{' {
        assert title[c] == text[..i][k + c] == text[k + c];
      }
    }
  }

  /** `i` holds the first `{` of `text`. */
  predicate FirstBrace(text: string, i: nat) {
    i < |text| && text[i] == '{' && forall j :: 0 <= j < i ==> text[j] != '{'
  }

  /** The three outcomes of a title line, on the text after the marker, stripped:
      with no `{` the whole text is the title; when the configuration opened by the
      first `{` parses, the title is the stripped text before it and the mode is the
      configuration's `display-mode`; when it does not parse, the error is swallowed
      and the whole text, `{` included, is the title, with no mode. */
  lemma TitleCases(host: Host, line: string)
    ensures var text := Strip(RemovePrefix(line, TitleMarker));
      && ('{' !in text ==> TitleOf(host, line) == (text, None))
      && forall i: nat :: FirstBrace(text, i) ==>
           TitleOf(host, line) == match Consume(host.parseObject, text, i)
                                  case Some((config, _)) => (Strip(text[..i]), DictGet(config, "display-mode"))
                                  case None => (text, None)
  {
    var text := Strip(RemovePrefix(line, TitleMarker));
    forall i: nat | FirstBrace(text, i) ensures Find(text, '{', 0) == i { }
  }

  /** The title loop: the first title line decides, the others are not read. */
  method ExtractTitleAndDisplayMode(host: Host, lines: seq<string>) returns (title: Option<string>, mode: Option<Value>)
    ensures (title, mode) == FirstTitle(host, lines)
  {
    for k := 0 to |lines|
      invariant FirstTitleLine(lines, 0) == FirstTitleLine(lines, k)
    {
      var line := lines[k];
      if StartsWith(line, TitleMarker) {
        var text := Strip(RemovePrefix(line, TitleMarker));
        var i := Find(text, '{', 0);
        if i != -1 {
          var opt := TryConsumeJson(host.parseObject, text, i);
          if opt.Some? {
            return Some(Strip(text[..i])), DictGet(opt.value.0, "display-mode");
          }
        }
        return Some(text), None;
      }
    }
    return None, None;
  }

  // ---- markdown ----

  const MarkdownMarker := "# @markdown"

  /** The `i`th line (0-based) starts with the markdown marker. */
  predicate IsMarkdownLine(lines: seq<string>, i: int) {
    0 <= i < |lines| && StartsWith(lines[i], MarkdownMarker)
  }

  /** The text of a markdown line: what follows the marker, stripped. */
  function MarkdownText(line: string): string {
    Strip(RemovePrefix(line, MarkdownMarker))
  }

  /** The markdown block of the `n`th line (1-based). */
  function MarkdownOf(line: string, n: int): Markdown {
    Markdown(line, n, MarkdownText(line))
  }

  /** The markdown blocks of `lines[..n]`: one per line starting with the marker,
      numbered from 1, holding the line and the text after the marker, stripped,
      in line order. */
  function Markdowns(lines: seq<string>, n: nat): (r: seq<Markdown>)
    requires n <= |lines|
    ensures forall j :: 0 <= j < |r| ==> && 1 <= r[j].lineno <= n && IsMarkdownLine(lines, r[j].lineno - 1)
    ensures forall a, b :: 0 <= a < b < |r| ==> r[a].lineno < r[b].lineno
  {
    if n == 0 then []
    else
      var prefix := Markdowns(lines, n - 1);
      if StartsWith(lines[n - 1], MarkdownMarker) then
        var r := prefix + [MarkdownOf(lines[n - 1], n)];
        assert forall j :: 0 <= j < |prefix| ==> r[j] == prefix[j];
        r
      else prefix
  }

  /** Each block holds its line and the text after the marker, stripped. */
  lemma {:induction false} MarkdownsText(lines: seq<string>, n: nat)
    requires n <= |lines|
    ensures forall m :: m in Markdowns(lines, n) ==> m == MarkdownOf(lines[m.lineno - 1], m.lineno)
    decreases n
  {
    if n > 0 {
      MarkdownsText(lines, n - 1);
    }
  }

  /** No markdown line is missed: each line of `lines[..n]` that starts with the
      marker has its block among the markdown blocks. */
  lemma {:induction false} MarkdownsComplete(lines: seq<string>, n: nat, i: nat)
    requires n <= |lines| && i < n && IsMarkdownLine(lines, i)
    ensures MarkdownOf(lines[i], i + 1) in Markdowns(lines, n)
    decreases n
  {
    var prefix := Markdowns(lines, n - 1);
    if i < n - 1 {
      MarkdownsComplete(lines, n - 1, i);
      assert prefix <= Markdowns(lines, n);
    } else {
      assert Markdowns(lines, n) == prefix + [MarkdownOf(lines[i], i + 1)];
    }
  }

  /** The markdown loop. */
  method ExtractMarkdown(lines: seq<string>) returns (out: seq<Markdown>)
    ensures out == Markdowns(lines, |lines|)
  {
    out := [];
    for i := 0 to |lines|
      invariant out == Markdowns(lines, i)
    {
      var line := lines[i];
      if StartsWith(line, MarkdownMarker) {
        out := out + [Markdown(line, i + 1, Strip(RemovePrefix(line, MarkdownMarker)))];
        assert out == Markdowns(lines, i) + [MarkdownOf(lines[i], i + 1)];
      }
    }
  }

  // ---- the whole document ----

  /** The form a document parses to. A missing or falsy display mode becomes "both". */
  function Document(host: Host, lines: seq<string>, stmts: seq<Statement>): (form: Form)
    requires LinesCover(lines, stmts)
    ensures form.code == lines && Truthy(form.displayMode)
    ensures form.title == FirstTitle(host, lines).0 && form.markdowns == Markdowns(lines, |lines|)
    ensures form.params == DeclaredParams(Outcomes(host, lines, stmts)) && form.errors == Failures(Outcomes(host, lines, stmts))
    ensures var mode := FirstTitle(host, lines).1;
      form.displayMode == if mode.Some? && Truthy(mode.value) then mode.value else PyStr("both")
  {
    var outcomes := Outcomes(host, lines, stmts);
    var (title, mode) := FirstTitle(host, lines);
    var displayMode := if mode.Some? && Truthy(mode.value) then mode.value else PyStr("both");
    Form(lines, title, DeclaredParams(outcomes), Markdowns(lines, |lines|), Failures(outcomes), displayMode)
  }

  /** Each parameter of a parsed form is well formed and declared by a single-line
      assignment to a plain name whose line carries the annotation. */
  lemma ParamsDeclared(host: Host, lines: seq<string>, stmts: seq<Statement>)
    requires LinesCover(lines, stmts)
    ensures forall p :: p in Document(host, lines, stmts).params ==>
              && WellFormed(host, p)
              && exists st :: && st in stmts && IsValidAssignment(st) && st.targetName == Some(p.variable)
                              && st.lineno == p.lineno && p.code == lines[st.lineno - 1]
                              && CommentOf(p.code, st.endColOffset).Some?
  {
    var outcomes := Outcomes(host, lines, stmts);
    DeclaredParamsFrom(outcomes);
    forall p | p in DeclaredParams(outcomes)
      ensures && WellFormed(host, p)
              && exists st :: && st in stmts && IsValidAssignment(st) && st.targetName == Some(p.variable)
                              && st.lineno == p.lineno && p.code == lines[st.lineno - 1]
                              && CommentOf(p.code, st.endColOffset).Some?
    {
      var i :| 0 <= i < |outcomes| && outcomes[i] == Declared(p);
      var st := stmts[i];
      assert StatementOutcome(host, lines, st) == Declared(p);
    }
  }

  /** Each error of a parsed form sits on the line of a single-line assignment to a
      plain name that carries the annotation. */
  lemma ErrorsAnnotated(host: Host, lines: seq<string>, stmts: seq<Statement>)
    requires LinesCover(lines, stmts)
    ensures forall e :: e in Document(host, lines, stmts).errors ==>
              exists st :: && st in stmts && IsValidAssignment(st) && st.targetName.Some?
                           && st.lineno == e.lineno && e.code == lines[st.lineno - 1]
                           && CommentOf(e.code, st.endColOffset).Some?
  {
    var outcomes := Outcomes(host, lines, stmts);
    FailuresFrom(outcomes);
    forall e | e in Failures(outcomes)
      ensures exists st :: && st in stmts && IsValidAssignment(st) && st.targetName.Some?
                           && st.lineno == e.lineno && e.code == lines[st.lineno - 1]
                           && CommentOf(e.code, st.endColOffset).Some?
    {
      var i :| 0 <= i < |outcomes| && outcomes[i] == Failed(e);
      var st := stmts[i];
      assert StatementOutcome(host, lines, st) == Failed(e);
    }
  }

  /** Every annotated declaration yields exactly one parameter or one error, and
      every declared parameter is in the form. */
  lemma DocumentComplete(host: Host, lines: seq<string>, stmts: seq<Statement>)
    requires LinesCover(lines, stmts)
    ensures var outcomes := Outcomes(host, lines, stmts);
      && |DeclaredParams(outcomes)| + |Failures(outcomes)| == |stmts| - CountSkipped(outcomes)
      && forall i :: 0 <= i < |stmts| && outcomes[i].Declared? ==> outcomes[i].param in DeclaredParams(outcomes)
  {
    DeclaredParamsFrom(Outcomes(host, lines, stmts));
  }

  /** The parser as the source runs it: one pass over the statements, skipping
      those that are not annotated declarations, then the title and markdown passes. */
  method Parse(host: Host, lines: seq<string>, stmts: seq<Statement>) returns (form: Form)
    requires LinesCover(lines, stmts)
    ensures form == Document(host, lines, stmts)
  {
    var params: seq<Param> := [];
    var failures: seq<ParamError> := [];
    for k := 0 to |stmts|
      invariant params == DeclaredParams(Outcomes(host, lines, stmts[..k]))
      invariant failures == Failures(Outcomes(host, lines, stmts[..k]))
    {
      assert Outcomes(host, lines, stmts[..k + 1]) == Outcomes(host, lines, stmts[..k]) + [StatementOutcome(host, lines, stmts[k])];
      assert Outcomes(host, lines, stmts[..k + 1])[..k] == Outcomes(host, lines, stmts[..k]);
      var st := stmts[k];
      if !IsValidAssignment(st) {
        continue;
      }
      var line := lines[st.lineno - 1];
      if st.targetName.None? {
        continue;
      }
      var variable := st.targetName.value;
      var comment := CommentOf(line, st.endColOffset);
      if comment.None? {
        continue;
      }
      var annotation := ParseComment(host, comment.value);
      if annotation.Err? {
        failures := failures + [ParamError(line, st.lineno, annotation.error)];
        continue;
      }
      var p := CreateParam(host, variable, ValueOf(st.rhs), annotation.value.options, annotation.value.config, line, st.lineno);
      if p.Err? {
        failures := failures + [p.error];
      } else {
        params := params + [p.value];
      }
    }
    assert stmts[..|stmts|] == stmts;
    var title, mode := ExtractTitleAndDisplayMode(host, lines);
    var markdowns := ExtractMarkdown(lines);
    var displayMode := if mode.Some? && Truthy(mode.value) then mode.value else PyStr("both");
    form := Form(lines, title, params, markdowns, failures, displayMode);
  }
}
