/** Shared value types and text helpers used by every part of the model:
    an Option type, generic list queries (the shapes of JavaScript's
    `filter`, `find` and Mongo's `findOne`), and the character classes and
    string operations the validators and route handlers rely on. */
module Common {

  datatype Option<+T> = None | Some(value: T)

  /** The outcome of an operation that can be refused, with the refusal's text. */
  datatype Result<+T> = Ok(value: T) | Err(error: string)

  /** An HTTP route's answer: `{message}` with status 200, or `{error}`
      with the given status code. */
  datatype Response = Done(message: string) | Fail(status: nat, error: string)

  /** JavaScript falsiness of an optional string field: absent or empty. */
  predicate Falsy(s: Option<string>) {
    s.None? || s.value == ""
  }

  // ---------------------------------------------------------------------
  // Generic list queries

  /** The elements of `s` that satisfy `p`, in their original order. */
  function Filter<T(==,!new)>(s: seq<T>, p: T -> bool): (r: seq<T>)
    ensures |r| <= |s|
    ensures forall x :: x in r <==> x in s && p(x)
    ensures forall i :: 0 <= i < |r| ==> p(r[i])
  {
    if s == [] then [] else
    var rest := Filter(s[1..], p);
    assert forall x :: x in s <==> x == s[0] || x in s[1..];
    if p(s[0]) then [s[0]] + rest else rest
  }

  lemma {:induction false} FilterAppend<T(!new)>(a: seq<T>, b: seq<T>, p: T -> bool)
    ensures Filter(a + b, p) == Filter(a, p) + Filter(b, p)
  {
    if a == [] {
      assert a + b == b;
    } else {
      assert (a + b)[1..] == a[1..] + b;
      FilterAppend(a[1..], b, p);
    }
  }

  /** Two predicates that agree on every element select the same list. */
  lemma {:induction false} FilterCongruent<T(!new)>(s: seq<T>, p: T -> bool, q: T -> bool)
    requires forall i :: 0 <= i < |s| ==> p(s[i]) == q(s[i])
    ensures Filter(s, p) == Filter(s, q)
  {
    if s != [] {
      FilterCongruent(s[1..], p, q);
    }
  }

  /** `ok` holds from every element to every later one. */
  predicate Pairwise<T>(s: seq<T>, ok: (T, T) -> bool) {
    forall i, j :: 0 <= i < j < |s| ==> ok(s[i], s[j])
  }

  /** Filtering keeps the relative order of what it keeps, so a relation
      every earlier element has to every later one still holds after it. */
  lemma {:induction false} FilterKeepsPairwise<T(!new)>(s: seq<T>, p: T -> bool, ok: (T, T) -> bool)
    requires Pairwise(s, ok)
    ensures Pairwise(Filter(s, p), ok)
  {
    if s != [] {
      PairwiseSplit(s, ok);
      FilterKeepsPairwise(s[1..], p, ok);
      if p(s[0]) {
        PairwiseCons(s[0], Filter(s[1..], p), ok);
      }
    }
  }

  lemma PairwiseSplit<T>(s: seq<T>, ok: (T, T) -> bool)
    requires s != [] && Pairwise(s, ok)
    ensures Pairwise(s[1..], ok)
    ensures forall x :: x in s[1..] ==> ok(s[0], x)
  {
    var tail := s[1..];
    assert forall i :: 0 <= i < |tail| ==> tail[i] == s[i + 1];
  }

  lemma PairwiseCons<T>(x: T, rest: seq<T>, ok: (T, T) -> bool)
    requires Pairwise(rest, ok)
    requires forall y :: y in rest ==> ok(x, y)
    ensures Pairwise([x] + rest, ok)
  {
    var r := [x] + rest;
    forall i, j | 0 <= i < j < |r| ensures ok(r[i], r[j]) {
      assert r[j] == rest[j - 1];
      if i > 0 {
        assert r[i] == rest[i - 1];
      }
    }
  }

  /** The first element satisfying `p`, the way `findOne` and `find` answer. */
  function First<T(==,!new)>(s: seq<T>, p: T -> bool): (r: Option<T>)
    ensures r.Some? ==> r.value in s && p(r.value)
    ensures r.None? <==> forall x :: x in s ==> !p(x)
    ensures r.Some? ==> exists i :: 0 <= i < |s| && s[i] == r.value && forall j :: 0 <= j < i ==> !p(s[j])
  {
    if s == [] then None
    else if p(s[0]) then Some(s[0])
    else
      var r := First(s[1..], p);
      assert forall x :: x in s <==> x == s[0] || x in s[1..];
      assert r.Some? ==> exists i :: 0 <= i < |s| && s[i] == r.value && forall j :: 0 <= j < i ==> !p(s[j]) by {
        if r.Some? {
          var i :| 0 <= i < |s| - 1 && s[1..][i] == r.value && forall j :: 0 <= j < i ==> !p(s[1..][j]);
          assert s[i + 1] == r.value && forall j :: 0 <= j < i + 1 ==> !p(s[j]);
        }
      }
      r
  }

  /** The number of elements satisfying `p` (Mongo's `countDocuments`). */
  function Count<T(==,!new)>(s: seq<T>, p: T -> bool): nat {
    |Filter(s, p)|
  }

  lemma CountAppend<T(!new)>(a: seq<T>, b: seq<T>, p: T -> bool)
    ensures Count(a + b, p) == Count(a, p) + Count(b, p)
  {
    FilterAppend(a, b, p);
  }

  // ---------------------------------------------------------------------
  // Character classes

  predicate IsAsciiUpper(c: char) { 'A' <= c <= 'Z' }
  predicate IsAsciiLower(c: char) { 'a' <= c <= 'z' }
  predicate IsAsciiLetter(c: char) { IsAsciiUpper(c) || IsAsciiLower(c) }
  /** `\d` in a JavaScript regular expression without the `u` flag. */
  predicate IsAsciiDigit(c: char) { '0' <= c <= '9' }

  /** A JavaScript line terminator: what `.` in a regular expression refuses to match. */
  predicate IsLineTerminator(c: char) {
    c == '\n' || c == '\r' || c == '\U{2028}' || c == '\U{2029}'
  }

  /** JavaScript's WhiteSpace and LineTerminator characters: the class `\s`
      matches exactly these, and `String.prototype.trim` removes exactly these. */
  predicate IsJsWhitespace(c: char) {
    c == ' ' || c == '\t' || c == '\U{000B}' || c == '\U{000C}' || c == '\U{00A0}' || c == '\U{FEFF}'
    || c == '\U{1680}' || ('\U{2000}' <= c <= '\U{200A}') || c == '\U{202F}' || c == '\U{205F}' || c == '\U{3000}'
    || IsLineTerminator(c)
  }

  /** `s.trim()` is the empty string. */
  predicate Blank(s: string) {
    forall i :: 0 <= i < |s| ==> IsJsWhitespace(s[i])
  }

  function LowerChar(c: char): (r: char)
    ensures IsAsciiUpper(c) ==> IsAsciiLower(r)
    ensures !IsAsciiUpper(c) ==> r == c
  {
    if IsAsciiUpper(c) then (c as int + 32) as char else c
  }

  /** `toLowerCase()` restricted to ASCII letters. */
  function Lower(s: string): (r: string)
    ensures |r| == |s|
    ensures forall i :: 0 <= i < |s| ==> r[i] == LowerChar(s[i])
  {
    seq(|s|, i requires 0 <= i < |s| => LowerChar(s[i]))
  }

  lemma LowerIdempotent(s: string)
    ensures Lower(Lower(s)) == Lower(s)
  {
  }

  lemma LowerAppend(a: string, b: string)
    ensures Lower(a + b) == Lower(a) + Lower(b)
  {
  }

  lemma LowerSlice(s: string, a: nat, b: nat)
    requires a <= b <= |s|
    ensures Lower(s)[a..b] == Lower(s[a..b])
  {
  }

  /** Lower-casing keeps every dot where it is, and adds none. */
  lemma LowerKeepsDots(s: string)
    ensures forall i :: 0 <= i < |s| ==> (Lower(s)[i] == '.' <==> s[i] == '.')
  {
  }

  /** An occurrence survives lower-casing both strings. */
  lemma ContainsLower(s: string, w: string)
    requires Contains(s, w)
    ensures Contains(Lower(s), Lower(w))
  {
    var i: nat :| OccursAt(s, w, i);
    LowerSlice(s, i, i + |w|);
    assert OccursAt(Lower(s), Lower(w), i);
  }

  // ---------------------------------------------------------------------
  // Substrings and searching

  predicate OccursAt(s: string, w: string, i: nat) {
    i + |w| <= |s| && s[i..i + |w|] == w
  }

  /** `s.includes(w)`, computed by a scan from the left. */
  function Contains(s: string, w: string): (r: bool)
    ensures r <==> exists i: nat :: OccursAt(s, w, i)
    decreases |s|
  {
    if |w| > |s| then
      assert forall i: nat :: !OccursAt(s, w, i);
      false
    else if s[..|w|] == w then
      assert OccursAt(s, w, 0);
      true
    else
      var r := Contains(s[1..], w);
      assert forall i: nat :: OccursAt(s, w, i + 1) <==> OccursAt(s[1..], w, i) by {
        forall i: nat ensures OccursAt(s, w, i + 1) <==> OccursAt(s[1..], w, i) {
          OccursShift(s, w, i);
        }
      }
      assert forall i: nat :: OccursAt(s, w, i) ==> i == 0 || OccursAt(s[1..], w, i - 1);
      assert r ==> exists i: nat :: OccursAt(s, w, i) by {
        if r {
          var i: nat :| OccursAt(s[1..], w, i);
          assert OccursAt(s, w, i + 1);
        }
      }
      r
  }

  lemma OccursShift(s: string, w: string, i: nat)
    requires |s| > 0
    ensures OccursAt(s, w, i + 1) <==> OccursAt(s[1..], w, i)
  {
    if i + 1 + |w| <= |s| {
      assert s[i + 1..i + 1 + |w|] == s[1..][i..i + |w|];
    }
  }

  /** The index of the last occurrence of `c` in `s`, or -1. */
  function LastIndexOf(s: string, c: char): (r: int)
    ensures -1 <= r < |s|
    ensures r >= 0 ==> s[r] == c
    ensures forall j :: r < j < |s| ==> s[j] != c
  {
    if s == [] then -1
    else if s[|s| - 1] == c then |s| - 1
    else LastIndexOf(s[..|s| - 1], c)
  }

  /** The index of the first occurrence of `c` in `s`, or -1. */
  function IndexOf(s: string, c: char): (r: int)
    ensures -1 <= r < |s|
    ensures r >= 0 ==> s[r] == c
    ensures forall j :: 0 <= j < |s| && (r < 0 || j < r) ==> s[j] != c
  {
    if s == [] then -1
    else if s[0] == c then 0
    else
      var r := IndexOf(s[1..], c);
      if r < 0 then -1 else r + 1
  }

  /** The number a string of decimal digits denotes. */
  function DigitsValue(s: string): nat
    requires forall i :: 0 <= i < |s| ==> IsAsciiDigit(s[i])
  {
    if s == [] then 0
    else
      assert IsAsciiDigit(s[|s| - 1]);
      10 * DigitsValue(s[..|s| - 1]) + (s[|s| - 1] as int - '0' as int)
  }

  /** The decimal digits of `n`, as `String(n)` writes them: they denote
      `n`, and there is no leading zero. */
  function DecimalString(n: nat): (r: string)
    ensures |r| > 0
    ensures forall i :: 0 <= i < |r| ==> IsAsciiDigit(r[i])
    ensures DigitsValue(r) == n
    ensures |r| > 1 ==> r[0] != '0'
  {
    var d := ['0' + (n % 10) as char];
    if n < 10 then d
    else
      var p := DecimalString(n / 10);
      assert (p + d)[..|p + d| - 1] == p;
      p + d
  }
}
