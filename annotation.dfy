/** The annotation grammar: the text after `#` on an assignment's line must start
    with `@param`; what follows is nothing, a config object `{…}`, or an options
    list `[…]` optionally followed by a config object. */
module Annotation {
  import opened Python
  import opened Extractor

  const Marker := "@param"

  /** An annotation's parts: the raw options list (present only for `[…]`) and the
      config mapping (empty when absent). */
  datatype Annotation = Annotation(options: Option<seq<Value>>, config: Dict)

  /** The loop that skips whitespace. */
  method SkipWhitespace(s: string, idx: nat) returns (j: nat)
    ensures j == WhitespaceEnd(s, idx)
  {
    j := idx;
    while j < |s| && IsSpace(s[j])
      invariant idx <= j && WhitespaceEnd(s, j) == WhitespaceEnd(s, idx)
      decreases |s| - j
    {
      j := j + 1;
    }
  }

  /** `k` holds the first `#` at or after `column`. */
  predicate FirstHash(line: string, column: nat, k: nat) {
    && column <= k < |line| && line[k] == '#'
    && forall i :: column <= i < k ==> line[i] != '#'
  }

  /** The text after the `#` at `k`, stripped. */
  function CommentAt(line: string, k: nat): string
    requires k < |line|
  {
    Strip(line[k + 1..])
  }

  /** The annotation on `line`: the first `#` at or after `column`, then the rest
      of the line stripped, kept only when it starts with `@param`. */
  function ExtractComment(line: string, column: nat): (r: Option<string>)
    ensures r.Some? ==> && StartsWith(r.value, Marker)
                        && exists k :: FirstHash(line, column, k) && r.value == CommentAt(line, k)
    ensures (forall k :: column <= k < |line| ==> line[k] != '#') ==> r.None?
  {
    var start := Find(line, '#', column);
    if start == -1 then None
    else
      var comment := CommentAt(line, start);
      if StartsWith(comment, Marker) then Some(comment) else None
  }

  /** The annotation is decided by the first `#` alone: it is the text after that
      `#` when that text starts with `@param`, and there is none otherwise. */
  lemma CommentAtFirstHash(line: string, column: nat, k: nat)
    requires FirstHash(line, column, k)
    ensures ExtractComment(line, column) == if StartsWith(CommentAt(line, k), Marker) then Some(CommentAt(line, k)) else None
  {
    assert Find(line, '#', column) == k;
  }

  /** What follows the marker, stripped. */
  function Remainder(comment: string): string {
    Strip(RemovePrefix(comment, Marker))
  }

  /** The message for an annotation that has neither shape. */
  function Unparsable(c: string): string {
    "Unable to parse @param comment: `" + c + "`"
  }

  /** The annotation's options and config, or the message of the error raised. */
  function ParseComment(host: Host, comment: string): (r: Result<Annotation, string>)
    ensures var c := Remainder(comment);
      && (c == [] ==> r == Ok(Annotation(None, [])))
      && (c != [] && c[0] != '{' && c[0] != '[' ==> r == Err(Unparsable(c)))
      && (c != [] && c[0] == '{' ==>
            match Consume(host.parseObject, c, 0)
            case Some((config, _)) => r == Ok(Annotation(None, config))
            case None => r == Err(ParseFailure(c, 0)))
      && (c != [] && c[0] == '[' ==>
            match Consume(host.parseArray, c, 0)
            case None => r == Err(ParseFailure(c, 0))
            case Some((options, n)) =>
              var j := WhitespaceEnd(c, n);
              if j < |c| && c[j] == '{' then
                match Consume(host.parseObject, c, j)
                case Some((config, _)) => r == Ok(Annotation(Some(options), config))
                case None => r == Err(ParseFailure(c, j))
              else r == Ok(Annotation(Some(options), [])))
  {
    var c := Remainder(comment);
    if c == [] then Ok(Annotation(None, []))
    else if c[0] == '{' then
      match Consume(host.parseObject, c, 0)
      case Some((config, _)) => Ok(Annotation(None, config))
      case None => Err(ParseFailure(c, 0))
    else if c[0] == '[' then
      match Consume(host.parseArray, c, 0)
      case None => Err(ParseFailure(c, 0))
      case Some((options, n)) =>
        var j := WhitespaceEnd(c, n);
        if j < |c| && c[j] == '{' then
          match Consume(host.parseObject, c, j)
          case Some((config, _)) => Ok(Annotation(Some(options), config))
          case None => Err(ParseFailure(c, j))
        else Ok(Annotation(Some(options), []))
    else Err(Unparsable(c))
  }

  /** The literal opened at `start` ends just before `n` and parses to `v`, and no
      shorter closer-delimited prefix parses. */
  ghost predicate LiteralAt<T>(parse: string -> Option<T>, c: string, start: nat, n: nat, v: T) {
    && start < |c| && ClosesAt(c, start, n) && parse(c[start..n]) == Some(v)
    && forall m :: m < n && ClosesAt(c, start, m) ==> parse(c[start..m]).None?
  }

  /** No closer-delimited prefix of the literal opened at `start` parses. */
  ghost predicate NoLiteral<T>(parse: string -> Option<T>, c: string, start: nat)
    requires start < |c|
  {
    forall n :: ClosesAt(c, start, n) ==> parse(c[start..n]).None?
  }

  /** The grammar of an annotation's remainder `c`, stated through the literals it
      holds rather than through the search. A remainder opening with `{` is a config
      alone: the shortest closer-delimited prefix that parses. A remainder opening
      with `[` is an options list, the shortest `]`-delimited prefix that parses; a
      config follows exactly when the first non-whitespace character after the list
      is `{`, and is then the shortest prefix from there that parses; otherwise the
      config is empty. The parse fails exactly when the remainder opens with another
      character, or a literal it needs has no prefix that parses. */
  lemma AnnotationShape(host: Host, comment: string)
    ensures var c, r := Remainder(comment), ParseComment(host, comment);
      && (c != [] && c[0] == '{' ==>
            && (r.Ok? ==> r.value.options.None? && exists n :: LiteralAt(host.parseObject, c, 0, n, r.value.config))
            && (r.Err? <==> NoLiteral(host.parseObject, c, 0)))
      && (c != [] && c[0] == '[' ==>
            && (NoLiteral(host.parseArray, c, 0) ==> r.Err?)
            && forall n: nat, options :: LiteralAt(host.parseArray, c, 0, n, options) ==>
                 var j := WhitespaceEnd(c, n);
                 if j < |c| && c[j] == '{' then
                   && (r.Ok? ==> r.value.options == Some(options) && exists m :: LiteralAt(host.parseObject, c, j, m, r.value.config))
                   && (r.Err? <==> NoLiteral(host.parseObject, c, j))
                 else r == Ok(Annotation(Some(options), [])))
      && (r.Err? ==> c != [] && (c[0] == '{' || c[0] == '[' || r.error == Unparsable(c)))
  {
    var c := Remainder(comment);
    if c != [] && c[0] == '{' {
      var found := Consume(host.parseObject, c, 0);
      if found.Some? {
        assert LiteralAt(host.parseObject, c, 0, found.value.1, found.value.0);
      }
    }
    if c != [] && c[0] == '[' {
      var found := Consume(host.parseArray, c, 0);
      forall n: nat, options | LiteralAt(host.parseArray, c, 0, n, options)
        ensures found == Some((options, n))
      {
        LiteralUnique(host.parseArray, c, 0, n, options);
      }
      if found.Some? {
        var j := WhitespaceEnd(c, found.value.1);
        if j < |c| && c[j] == '{' {
          var config := Consume(host.parseObject, c, j);
          if config.Some? {
            assert LiteralAt(host.parseObject, c, j, config.value.1, config.value.0);
          }
        }
      }
    }
  }

  /** A literal that is the shortest parsing prefix is the one the search finds. */
  lemma LiteralUnique<T>(parse: string -> Option<T>, c: string, start: nat, n: nat, v: T)
    requires LiteralAt(parse, c, start, n, v)
    ensures Consume(parse, c, start) == Some((v, n))
  {
    var found := Consume(parse, c, start);
    assert found.Some?;
    assert found.value.1 == n;
  }
}
