/** The cell transformer that runs before IPython reads a cell. On Colab it drops
    the lines that call the form magics. Elsewhere it turns the first `#! %%form`
    comment into the `%%form` magic; failing that, in auto-detect mode, a cell that
    mentions `# @param` gets `%%form` put in front. Whether the notebook runs on
    Colab and whether auto-detect is on are parameters here. */
module Transformer {
  import opened Python

  const FormMagic := "%%form"
  const ConfigMagic := "%%form_config"
  const MarkerPrefix := "#!"
  const Annotated := "# @param"

  /** The line starts with either magic. */
  predicate IsMagicLine(line: string) {
    StartsWith(line, FormMagic) || StartsWith(line, ConfigMagic)
  }

  /** Every line that calls the config magic also starts with the form magic, so the
      second prefix adds nothing. */
  lemma MagicLineIsFormPrefix(line: string)
    ensures IsMagicLine(line) <==> StartsWith(line, FormMagic)
  {
    if StartsWith(line, ConfigMagic) {
      assert line[..|FormMagic|] == line[..|ConfigMagic|][..|FormMagic|];
    }
  }

  /** The lines that do not call a magic, in order. */
  function DropMagicLines(lines: seq<string>): (r: seq<string>)
    ensures |r| <= |lines|
    ensures forall j :: 0 <= j < |r| ==> r[j] in lines && !IsMagicLine(r[j])
    ensures forall i :: 0 <= i < |lines| && !IsMagicLine(lines[i]) ==> lines[i] in r
  {
    if lines == [] then []
    else
      var init := DropMagicLines(lines[..|lines| - 1]);
      var last := lines[|lines| - 1];
      assert forall i :: 0 <= i < |lines| - 1 ==> lines[..|lines| - 1][i] == lines[i];
      if IsMagicLine(last) then init else init + [last]
  }

  /** Dropping magic lines from two runs of lines drops them from each, so the kept
      lines stay in their order. */
  lemma {:induction false} DropMagicLinesAppend(a: seq<string>, b: seq<string>)
    ensures DropMagicLines(a + b) == DropMagicLines(a) + DropMagicLines(b)
    decreases |b|
  {
    if b == [] {
      assert a + b == a;
    } else {
      var b' := b[..|b| - 1];
      assert (a + b)[..|a + b| - 1] == a + b';
      DropMagicLinesAppend(a, b');
    }
  }

  /** `re.match(r"^#!\s*%%form", line)`: the marker, any whitespace, then the magic. */
  predicate IsMarkerLine(line: string) {
    StartsWith(line, MarkerPrefix) && StartsWith(line[WhitespaceEnd(line, |MarkerPrefix|)..], FormMagic)
  }

  /** `re.sub(r"^#!\s*", "", line)` on a line that starts with the marker. */
  function StripMarker(line: string): (r: string)
    requires StartsWith(line, MarkerPrefix)
    ensures |r| <= |line| - |MarkerPrefix| && line[|line| - |r|..] == r
    ensures forall i :: |MarkerPrefix| <= i < |line| - |r| ==> IsSpace(line[i])
    ensures r == [] || !IsSpace(r[0])
  {
    line[WhitespaceEnd(line, |MarkerPrefix|)..]
  }

  /** Removing the marker from a marker line exposes the form magic. */
  lemma StripMarkerExposesMagic(line: string)
    requires IsMarkerLine(line)
    ensures StartsWith(StripMarker(line), FormMagic) && IsMagicLine(StripMarker(line))
  {
  }

  /** The index of the first marker line at or after `from`, or the number of lines. */
  function FirstMarker(lines: seq<string>, from: nat): (i: nat)
    requires from <= |lines|
    ensures from <= i <= |lines|
    ensures i < |lines| ==> IsMarkerLine(lines[i])
    ensures forall j :: from <= j < i ==> !IsMarkerLine(lines[j])
    decreases |lines| - from
  {
    if from == |lines| || IsMarkerLine(lines[from]) then from else FirstMarker(lines, from + 1)
  }

  /** Some line mentions `# @param`. */
  predicate MentionsParam(lines: seq<string>) {
    exists i :: 0 <= i < |lines| && Contains(lines[i], Annotated)
  }

  /** The transformer. On Colab every line that calls a magic goes; elsewhere the
      first marker line becomes the magic and nothing else changes; with no marker
      line, auto-detect puts the magic in front of a cell that mentions `# @param`;
      otherwise the cell is left as it is. */
  method CommentMagicTransformer(lines: seq<string>, inColab: bool, autoDetect: bool) returns (out: seq<string>)
    ensures inColab ==> out == DropMagicLines(lines)
    ensures !inColab && FirstMarker(lines, 0) < |lines| ==>
              var i := FirstMarker(lines, 0);
              && |out| == |lines| && out[i] == StripMarker(lines[i]) && StartsWith(out[i], FormMagic)
              && forall j :: 0 <= j < |lines| && j != i ==> out[j] == lines[j]
    ensures !inColab && FirstMarker(lines, 0) == |lines| ==>
              out == if autoDetect && MentionsParam(lines) then [FormMagic] + lines else lines
  {
    if inColab {
      return DropMagicLines(lines);
    }
    for i := 0 to |lines|
      invariant FirstMarker(lines, 0) == FirstMarker(lines, i)
    {
      if IsMarkerLine(lines[i]) {
        out := lines[i := StripMarker(lines[i])];
        return;
      }
    }
    var found := false;
    for i := 0 to |lines|
      invariant found <==> exists j :: 0 <= j < i && Contains(lines[j], Annotated)
    {
      if Contains(lines[i], Annotated) {
        found := true;
      }
    }
    if autoDetect && found {
      return [FormMagic] + lines;
    }
    return lines;
  }
}
