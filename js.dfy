/**
 * The pieces of JavaScript semantics that the controllers and models lean on:
 * request-body keys that may be absent, truthiness tests (`x || fallback`,
 * `if (x)`), the `\s` character class, `String.prototype.trim` and
 * `String.prototype.split(' ')`.
 */
module Js {
  import opened Wrappers

  /** Instants are milliseconds since the epoch, as `Date.now()` returns them. */
  type Instant = nat

  /** A key of a JSON request body: absent (`undefined`) or sent with a value. */
  datatype Given<T> = Omitted | Sent(value: T)

  /** A string field is truthy when it is present and non-empty. */
  predicate StrTruthy(s: Option<string>) {
    s.Some? && s.value != ""
  }

  /** An identifier or number is truthy when it is present and non-zero. */
  predicate IdTruthy(n: Option<nat>) {
    n.Some? && n.value != 0
  }

  predicate IntTruthy(n: Option<int>) {
    n.Some? && n.value != 0
  }

  /** `x || fallback` for a string field. */
  function OrStr(x: Option<string>, fallback: string): string {
    if StrTruthy(x) then x.value else fallback
  }

  /** `x || fallback` for an identifier. */
  function OrId(x: Option<nat>, fallback: nat): nat {
    if IdTruthy(x) then x.value else fallback
  }

  /** `x || fallback` for a value that is truthy whenever it is present (a time string, a date string). */
  function OrElse<T>(x: Option<T>, fallback: T): T {
    if x.Some? then x.value else fallback
  }

  /** `x !== undefined ? x : fallback`. */
  function IfSent<T>(x: Given<T>, fallback: T): T {
    if x.Sent? then x.value else fallback
  }

  /** The characters of the regular-expression class `\s`, the same set `trim` removes. */
  predicate IsSpace(c: char) {
    c == '\t' || c == '\n' || c == '\U{000B}' || c == '\U{000C}' || c == '\r' || c == ' '
    || c == '\U{00A0}' || c == '\U{1680}' || ('\U{2000}' <= c <= '\U{200A}')
    || c == '\U{2028}' || c == '\U{2029}' || c == '\U{202F}' || c == '\U{205F}'
    || c == '\U{3000}' || c == '\U{FEFF}'
  }

  /** `s.trimStart()`: what is kept is a suffix of `s` (the removed prefix is whitespace, see `TrimStartSpaces`). */
  function TrimStart(s: string): (r: string)
    ensures |r| <= |s| && r == s[|s| - |r|..]
  {
    if |s| > 0 && IsSpace(s[0]) then TrimStart(s[1..]) else s
  }

  /** `s.trimEnd()`: what is kept is a prefix of `s` (the removed suffix is whitespace, see `TrimEndSpaces`). */
  function TrimEnd(s: string): (r: string)
    ensures |r| <= |s| && r == s[..|r|]
  {
    if |s| > 0 && IsSpace(s[|s| - 1]) then TrimEnd(s[..|s| - 1]) else s
  }

  /** `TrimStart` removes whitespace only, and what it keeps starts with a non-space character. */
  lemma {:induction false} TrimStartSpaces(s: string)
    ensures forall i :: 0 <= i < |s| - |TrimStart(s)| ==> IsSpace(s[i])
    ensures |TrimStart(s)| > 0 ==> !IsSpace(TrimStart(s)[0])
    decreases |s|
  {
    if |s| > 0 && IsSpace(s[0]) {
      var cauda := s[1..];
      TrimStartSpaces(cauda);
      assert forall i :: 1 <= i < |s| ==> s[i] == cauda[i - 1];
    }
  }

  /** `TrimEnd` removes whitespace only, and what it keeps ends with a non-space character. */
  lemma {:induction false} TrimEndSpaces(s: string)
    ensures forall i :: |TrimEnd(s)| <= i < |s| ==> IsSpace(s[i])
    ensures |TrimEnd(s)| > 0 ==> !IsSpace(TrimEnd(s)[|TrimEnd(s)| - 1])
    decreases |s|
  {
    if |s| > 0 && IsSpace(s[|s| - 1]) {
      var cabeca := s[..|s| - 1];
      TrimEndSpaces(cabeca);
      assert forall i :: 0 <= i < |s| - 1 ==> s[i] == cabeca[i];
    }
  }

  /** `s.trim()`: `s` without its leading and trailing whitespace. */
  function Trim(s: string): string {
    TrimEnd(TrimStart(s))
  }

  /** A string trims to nothing exactly when every character of it is whitespace. */
  lemma {:induction false} TrimBlankIff(s: string)
    ensures Trim(s) == "" <==> forall i :: 0 <= i < |s| ==> IsSpace(s[i])
  {
    var t := TrimStart(s);
    TrimStartSpaces(s);
    assert |t| > 0 ==> t[0] == s[|s| - |t|];
    if !forall i :: 0 <= i < |s| ==> IsSpace(s[i]) {
      var k :| 0 <= k < |s| && !IsSpace(s[k]);
      assert |s| - |t| <= k;
      assert t[k - (|s| - |t|)] == s[k];
      TrimEndSpaces(t);
      assert TrimEnd(t) != "";
    }
  }

  /** Some character of `s` is not whitespace. */
  predicate HasNonSpace(s: string) {
    exists i :: 0 <= i < |s| && !IsSpace(s[i])
  }

  /** Leading whitespace is removed from the front only: text after a non-space character is kept. */
  lemma {:induction false} TrimStartConcat(x: string, y: string)
    requires HasNonSpace(x)
    ensures TrimStart(x + y) == TrimStart(x) + y
    decreases |x|
  {
    if IsSpace(x[0]) {
      assert (x + y)[1..] == x[1..] + y;
      var i :| 0 <= i < |x| && !IsSpace(x[i]);
      assert x[1..][i - 1] == x[i];
      TrimStartConcat(x[1..], y);
    }
  }

  /** A run of whitespace in front is removed whole. */
  lemma {:induction false} TrimStartBlank(w: string, y: string)
    requires forall i :: 0 <= i < |w| ==> IsSpace(w[i])
    ensures TrimStart(w + y) == TrimStart(y)
    decreases |w|
  {
    if |w| > 0 {
      assert (w + y)[1..] == w[1..] + y;
      TrimStartBlank(w[1..], y);
    } else {
      assert w + y == y;
    }
  }

  /** Trailing whitespace is removed from the back only: text before a non-space character is kept. */
  lemma {:induction false} TrimEndConcat(x: string, y: string)
    requires HasNonSpace(y)
    ensures TrimEnd(x + y) == x + TrimEnd(y)
    decreases |y|
  {
    var s := x + y;
    assert s[|s| - 1] == y[|y| - 1];
    if IsSpace(y[|y| - 1]) {
      var y' := y[..|y| - 1];
      assert s[..|s| - 1] == x + y';
      var i :| 0 <= i < |y| && !IsSpace(y[i]);
      assert i < |y| - 1 && y'[i] == y[i];
      TrimEndConcat(x, y');
    }
  }

  /** Trimming text that has a non-space character on both sides of `meio` trims only the two ends. */
  lemma TrimAround(x: string, meio: string, y: string)
    requires HasNonSpace(x) && HasNonSpace(y)
    ensures Trim(x + meio + y) == TrimStart(x) + meio + TrimEnd(y)
  {
    assert x + meio + y == x + (meio + y);
    TrimStartConcat(x, meio + y);
    assert TrimStart(x) + (meio + y) == (TrimStart(x) + meio) + y;
    TrimEndConcat(TrimStart(x) + meio, y);
  }

  /**
   * `s.split(sep)` for a one-character separator: the maximal runs between the
   * separators, empty runs included, so the result always has one more part
   * than `s` has separators.
   */
  function SplitOn(s: string, sep: char): (parts: seq<string>)
    ensures |parts| >= 1
    ensures forall k :: 0 <= k < |parts| ==> sep !in parts[k]
    ensures Join(parts, sep) == s
    decreases |s|
  {
    if |s| == 0 then [""]
    else
      var rest := SplitOn(s[1..], sep);
      if s[0] == sep then
        assert ([""] + rest)[1..] == rest;
        [""] + rest
      else
        JoinHead([s[0]], rest, sep);
        assert [s[0]] + s[1..] == s;
        [[s[0]] + rest[0]] + rest[1..]
  }

  /** `parts.join(sep)`: the parts with one separator between each two. */
  function Join(parts: seq<string>, sep: char): string
    decreases |parts|
  {
    if |parts| == 0 then ""
    else if |parts| == 1 then parts[0]
    else parts[0] + [sep] + Join(parts[1..], sep)
  }

  /** Text put in front of the first part is put in front of the joined text. */
  lemma JoinHead(x: string, ps: seq<string>, sep: char)
    requires |ps| >= 1
    ensures Join([x + ps[0]] + ps[1..], sep) == x + Join(ps, sep)
  {
    var qs := [x + ps[0]] + ps[1..];
    assert qs[0] == x + ps[0];
    if |ps| > 1 {
      assert qs[1..] == ps[1..];
      assert x + ps[0] + [sep] + Join(ps[1..], sep) == x + (ps[0] + [sep] + Join(ps[1..], sep));
    }
  }

  /** Text without a separator is a single part. */
  lemma {:induction false} SplitOnNoSeparator(s: string, sep: char)
    requires sep !in s
    ensures SplitOn(s, sep) == [s]
    decreases |s|
  {
    if |s| > 0 {
      assert sep !in s[1..];
      SplitOnNoSeparator(s[1..], sep);
      assert [s[0]] + s[1..] == s;
    }
  }

  /** A separator-free prefix followed by a separator becomes the first part. */
  lemma {:induction false} SplitOnPrefix(a: string, sep: char, t: string)
    requires sep !in a
    ensures SplitOn(a + [sep] + t, sep) == [a] + SplitOn(t, sep)
    decreases |a|
  {
    var s := a + [sep] + t;
    if |a| == 0 {
      assert s[1..] == t;
    } else {
      assert s[1..] == a[1..] + [sep] + t;
      assert sep !in a[1..];
      SplitOnPrefix(a[1..], sep, t);
      assert [a[0]] + a[1..] == a;
    }
  }
}
