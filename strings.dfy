/**
  The JavaScript string operations the storefront relies on: `toLowerCase`
  (over ASCII), `includes`, `join`, `split` on one character, the truthiness
  test behind `a || b`, and the decimal text of an integer.
 */
module Strings {
  import opened Wrappers

  /** `toLowerCase` on one character; only the ASCII letters `A`-`Z` change. */
  function LowerChar(c: char): char {
    if 'A' <= c <= 'Z' then (c as int + 32) as char else c
  }

  function Lower(s: string): (r: string)
    ensures |r| == |s|
    ensures forall i :: 0 <= i < |s| ==> r[i] == LowerChar(s[i])
  {
    seq(|s|, i requires 0 <= i < |s| => LowerChar(s[i]))
  }

  /** `s.includes(t)`: `t` occurs in `s` at some position (the empty string occurs everywhere). */
  predicate Includes(s: string, t: string) {
    exists i | 0 <= i <= |s| - |t| :: OccursAt(s, t, i)
  }

  predicate OccursAt(s: string, t: string, i: nat) {
    i + |t| <= |s| && s[i..i + |t|] == t
  }

  lemma IncludesEmpty(s: string)
    ensures Includes(s, "")
  {
    assert OccursAt(s, "", 0);
  }

  /** JavaScript truthiness of a value that is a string or absent: `undefined`, `null` and `""` are falsy. */
  predicate Truthy(o: Option<string>) {
    o.Some? && o.value != ""
  }

  /** `o || d` for a string default `d`. */
  function OrElse(o: Option<string>, d: string): string {
    if Truthy(o) then o.value else d
  }

  /** `xs.join(sep)`. */
  function Join(xs: seq<string>, sep: string): string
    decreases |xs|
  {
    if xs == [] then ""
    else if |xs| == 1 then xs[0]
    else xs[0] + sep + Join(xs[1..], sep)
  }

  /** Joining two lists is joining each and, when both are non-empty, putting the separator between. */
  lemma {:induction false} JoinConcat(a: seq<string>, b: seq<string>, sep: string)
    ensures Join(a + b, sep) ==
      if a == [] then Join(b, sep) else if b == [] then Join(a, sep) else Join(a, sep) + sep + Join(b, sep)
    decreases |a|
  {
    if a == [] {
      assert a + b == b;
    } else if b == [] {
      assert a + b == a;
    } else if |a| == 1 {
      assert (a + b)[0] == a[0] && (a + b)[1..] == b;
    } else {
      assert (a + b)[0] == a[0] && (a + b)[1..] == a[1..] + b;
      JoinConcat(a[1..], b, sep);
    }
  }

  /** `s.split(c)` for a one-character separator: the pieces between separators, at least one. */
  function Split(s: string, c: char): (r: seq<string>)
    ensures |r| >= 1
    decreases |s|
  {
    if s == [] then [""]
    else
      var rest := Split(s[1..], c);
      if s[0] == c then [""] + rest else [[s[0]] + rest[0]] + rest[1..]
  }

  /** Splitting text that starts with a separator-free piece `x`: `x` joins the first piece. */
  lemma {:induction false} SplitPrefix(x: string, c: char, tail: string)
    requires c !in x
    ensures Split(x + tail, c) == [x + Split(tail, c)[0]] + Split(tail, c)[1..]
    decreases |x|
  {
    if x != [] {
      assert (x + tail)[0] == x[0] && (x + tail)[1..] == x[1..] + tail;
      SplitPrefix(x[1..], c, tail);
      assert [x[0]] + (x[1..] + Split(tail, c)[0]) == x + Split(tail, c)[0];
    } else {
      var r := Split(tail, c);
      assert x + tail == tail && x + r[0] == r[0];
      assert r == [r[0]] + r[1..];
    }
  }

  /** Splitting a join on a separator that no piece contains gives the pieces back. */
  lemma {:induction false} SplitJoin(xs: seq<string>, c: char)
    requires |xs| >= 1
    requires forall i :: 0 <= i < |xs| ==> c !in xs[i]
    ensures Split(Join(xs, [c]), c) == xs
    decreases |xs|
  {
    if |xs| == 1 {
      SplitPrefix(xs[0], c, "");
      assert xs[0] + "" == xs[0];
    } else {
      var j := Join(xs[1..], [c]);
      SplitJoin(xs[1..], c);
      assert Join(xs, [c]) == xs[0] + ([c] + j);
      SplitPrefix(xs[0], c, [c] + j);
      assert ([c] + j)[0] == c && ([c] + j)[1..] == j;
      assert Split([c] + j, c) == [""] + xs[1..];
      assert xs[0] + "" == xs[0];
    }
  }

  function DigitChar(d: nat): char
    requires d < 10
  {
    ('0' as int + d) as char
  }

  /** The decimal text of a whole number, as `String(n)` writes it. */
  function NatToString(n: nat): (r: string)
    ensures |r| >= 1
    ensures forall i :: 0 <= i < |r| ==> '0' <= r[i] <= '9'
    decreases n
  {
    if n < 10 then [DigitChar(n)] else NatToString(n / 10) + [DigitChar(n % 10)]
  }

  /** Reads a string of decimal digits back as a number. */
  function ParseDigits(s: string): nat
    requires forall i :: 0 <= i < |s| ==> '0' <= s[i] <= '9'
    decreases |s|
  {
    if s == [] then 0 else ParseDigits(s[..|s| - 1]) * 10 + (s[|s| - 1] as int - '0' as int)
  }

  /** The decimal text determines the number: reading it back gives `n`. */
  lemma {:induction false} NatToStringRoundTrip(n: nat)
    ensures ParseDigits(NatToString(n)) == n
    decreases n
  {
    if n >= 10 {
      NatToStringRoundTrip(n / 10);
      var s := NatToString(n);
      assert s[..|s| - 1] == NatToString(n / 10);
    }
  }

  /** `String(i)` for an integer: a minus sign before the digits of a negative number. */
  function IntToString(i: int): string {
    if i < 0 then "-" + NatToString(-i) else NatToString(i)
  }
}
