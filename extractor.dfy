/** Balanced-literal extraction: from an opening `{` or `[`, try each later
    occurrence of the matching closer in turn and keep the first prefix the
    literal parser accepts. A closer inside a string literal makes the parser
    reject that prefix, so the search moves on past it. */
module Extractor {
  import opened Python

  /** The delimiter that closes a literal opened by `opener`. */
  function Closer(opener: char): char {
    if opener == '{' then '}' else ']'
  }

  /** `n` is just past a closer for the literal opened at `start`, at least one
      character after the opener. */
  predicate ClosesAt(s: string, start: nat, n: int)
    requires start < |s|
  {
    start + 2 <= n <= |s| && s[n - 1] == Closer(s[start])
  }

  /** The search from `from` on: the first closer position at or after `from`
      whose prefix `parse` accepts, with the parsed value. */
  function ConsumeFrom<T>(parse: string -> Option<T>, s: string, start: nat, from: nat): (r: Option<(T, nat)>)
    requires start < from <= |s|
    ensures r.Some? ==> && from < r.value.1 && ClosesAt(s, start, r.value.1)
                        && parse(s[start..r.value.1]) == Some(r.value.0)
                        && forall n :: from < n < r.value.1 && ClosesAt(s, start, n) ==> parse(s[start..n]).None?
    ensures r.None? ==> forall n :: from < n <= |s| && ClosesAt(s, start, n) ==> parse(s[start..n]).None?
    decreases |s| - from
  {
    var i := Find(s, Closer(s[start]), from);
    if i == -1 then None
    else match parse(s[start..i + 1])
      case Some(v) => Some((v, i + 1))
      case None => ConsumeFrom(parse, s, start, i + 1)
  }

  /** The literal opened at `start` and the index just past its closer: the first
      closer position whose prefix parses. None when no closer position parses. */
  function Consume<T>(parse: string -> Option<T>, s: string, start: nat): (r: Option<(T, nat)>)
    requires start < |s|
    ensures r.Some? ==> && ClosesAt(s, start, r.value.1)
                        && parse(s[start..r.value.1]) == Some(r.value.0)
                        && forall n :: n < r.value.1 && ClosesAt(s, start, n) ==> parse(s[start..n]).None?
    ensures r.None? <==> forall n :: ClosesAt(s, start, n) ==> parse(s[start..n]).None?
  {
    ConsumeFrom(parse, s, start, start + 1)
  }

  /** The message raised when no closer position parses. */
  function ParseFailure(s: string, start: nat): string
    requires start <= |s|
  {
    "JSON parsing failed for: `" + s[start..] + "`"
  }

  /** The search loop itself: `i` advances to the next closer, and past it when
      the prefix does not parse, until no closer is left. */
  method TryConsumeJson<T>(parse: string -> Option<T>, s: string, start: nat) returns (r: Option<(T, nat)>)
    requires start < |s|
    ensures r == Consume(parse, s, start)
  {
    var endChar := Closer(s[start]);
    var i: int := start + 1;
    while i != -1
      invariant i == -1 || start < i <= |s|
      invariant Consume(parse, s, start) == if i == -1 then None else ConsumeFrom(parse, s, start, i)
      decreases if i == -1 then 0 else |s| + 1 - i
    {
      i := Find(s, endChar, i);
      if i != -1 {
        var parsed := parse(s[start..i + 1]);
        if parsed.Some? {
          return Some((parsed.value, i + 1));
        }
        i := i + 1;
      }
    }
    return None;
  }

  /** Two texts that agree up to a closer position agree on the literal found there:
      what follows the literal's closer never changes the result. */
  lemma {:induction false} ConsumeIgnoresSuffix<T>(parse: string -> Option<T>, s: string, t: string, start: nat)
    requires start < |s| && Consume(parse, s, start).Some?
    requires Consume(parse, s, start).value.1 <= |t| && s[..Consume(parse, s, start).value.1] == t[..Consume(parse, s, start).value.1]
    ensures Consume(parse, t, start) == Consume(parse, s, start)
  {
    var n := Consume(parse, s, start).value.1;
    assert t[start] == s[..n][start] == s[start];
    assert t[start..n] == s[start..n] by {
      assert t[start..n] == t[..n][start..] && s[start..n] == s[..n][start..];
    }
    forall m | ClosesAt(t, start, m) && m <= n ensures ClosesAt(s, start, m) && t[start..m] == s[start..m] {
      assert t[m - 1] == t[..n][m - 1] == s[..n][m - 1] == s[m - 1];
      assert t[start..m] == t[start..n][..m - start];
      assert s[start..m] == s[start..n][..m - start];
    }
    var r := Consume(parse, t, start);
    assert ClosesAt(t, start, n) && parse(t[start..n]).Some?;
    assert r.Some?;
    var m := r.value.1;
    assert m <= n;
    assert ClosesAt(s, start, m) && parse(s[start..m]).Some?;
    assert m == n;
  }
}
