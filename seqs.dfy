/**
  Sequence operations the storefront takes from JavaScript's `Array.prototype`:
  `filter`, `map`, `slice` (with its clamping of negative and oversized
  indices) and the `Math.ceil(n / k)` used to count pages.
 */
module Seqs {

  function Min(a: int, b: int): int { if a <= b then a else b }

  function Max(a: int, b: int): int { if a >= b then a else b }

  /** `s.filter(p)`: the elements of `s` satisfying `p`, in their original order. */
  function Filter<T(!new)>(p: T -> bool, s: seq<T>): (r: seq<T>)
    ensures |r| <= |s|
    ensures forall x :: x in r <==> x in s && p(x)
    ensures forall i :: 0 <= i < |r| ==> p(r[i])
  {
    if s == [] then [] else (if p(s[0]) then [s[0]] else []) + Filter(p, s[1..])
  }

  /** Filtering distributes over concatenation: the kept elements keep their order. */
  lemma {:induction false} FilterConcat<T(!new)>(p: T -> bool, a: seq<T>, b: seq<T>)
    ensures Filter(p, a + b) == Filter(p, a) + Filter(p, b)
  {
    if a != [] {
      assert (a + b)[0] == a[0] && (a + b)[1..] == a[1..] + b;
      FilterConcat(p, a[1..], b);
      assert Filter(p, a + b) == (if p(a[0]) then [a[0]] else []) + Filter(p, a[1..] + b);
    } else {
      assert a + b == b;
    }
  }

  /** Filtering with a predicate every element satisfies changes nothing. */
  lemma {:induction false} FilterAllKept<T(!new)>(p: T -> bool, s: seq<T>)
    requires forall i :: 0 <= i < |s| ==> p(s[i])
    ensures Filter(p, s) == s
  {
    if s != [] {
      FilterAllKept(p, s[1..]);
    }
  }

  /**
    A relation that no earlier/later pair of `s` is in stays so after filtering:
    filtering only deletes, it never reorders.
   */
  lemma {:induction false} FilterKeepsPairwise<T(!new)>(p: T -> bool, rel: (T, T) -> bool, s: seq<T>)
    requires forall i, j :: 0 <= i < j < |s| ==> !rel(s[i], s[j])
    ensures forall i, j :: 0 <= i < j < |Filter(p, s)| ==> !rel(Filter(p, s)[i], Filter(p, s)[j])
  {
    if s != [] {
      var rest := Filter(p, s[1..]);
      assert forall i, j :: 0 <= i < j < |s[1..]| ==> !rel(s[1..][i], s[1..][j]) by {
        forall i, j | 0 <= i < j < |s[1..]| ensures !rel(s[1..][i], s[1..][j]) {
          assert s[1..][i] == s[i + 1] && s[1..][j] == s[j + 1];
        }
      }
      FilterKeepsPairwise(p, rel, s[1..]);
      if p(s[0]) {
        var r := [s[0]] + rest;
        forall i, j | 0 <= i < j < |r| ensures !rel(r[i], r[j]) {
          if i == 0 {
            assert r[j] in s[1..];
            var k :| 0 <= k < |s[1..]| && s[1..][k] == r[j];
            assert s[k + 1] == r[j];
          } else {
            assert r[i] == rest[i - 1] && r[j] == rest[j - 1];
          }
        }
      }
    }
  }

  /** `s.map(f)`. */
  function Map<T, U>(f: T -> U, s: seq<T>): seq<U> {
    seq(|s|, i requires 0 <= i < |s| => f(s[i]))
  }

  /** Concatenation is associative; stated once so that long texts need not be compared element by element. */
  lemma AppendAssoc<T>(a: seq<T>, b: seq<T>, c: seq<T>)
    ensures (a + b) + c == a + (b + c)
  {
  }

  /** The pieces `f(x)` for the elements `x` of `s`, concatenated in order. */
  function FlatMap<T, U>(f: T -> seq<U>, s: seq<T>): seq<U>
    decreases |s|
  {
    if s == [] then [] else FlatMap(f, s[..|s| - 1]) + f(s[|s| - 1])
  }

  lemma FlatMapOne<T, U>(f: T -> seq<U>, x: T)
    ensures FlatMap(f, [x]) == f(x)
  {
    assert [x][..0] == [];
  }

  lemma {:induction false} FlatMapConcat<T, U>(f: T -> seq<U>, a: seq<T>, b: seq<T>)
    ensures FlatMap(f, a + b) == FlatMap(f, a) + FlatMap(f, b)
    decreases |b|
  {
    if b == [] {
      assert a + b == a;
    } else {
      assert (a + b)[..|a + b| - 1] == a + b[..|b| - 1];
      FlatMapConcat(f, a, b[..|b| - 1]);
    }
  }

  /** Flattening the flattenings is flattening once, when each piece is itself a flattening. */
  lemma {:induction false} FlatMapFlatMap<T, U, V>(f: T -> seq<V>, g: U -> seq<V>, h: T -> seq<U>, s: seq<T>)
    requires forall i :: 0 <= i < |s| ==> f(s[i]) == FlatMap(g, h(s[i]))
    ensures FlatMap(f, s) == FlatMap(g, FlatMap(h, s))
    decreases |s|
  {
    if s != [] {
      var init := s[..|s| - 1];
      FlatMapFlatMap(f, g, h, init);
      FlatMapConcat(g, FlatMap(h, init), h(s[|s| - 1]));
    }
  }

  /** How `slice` reads one of its index arguments: negative counts from the end, then clamp to `[0, len]`. */
  function ClampIndex(i: int, len: nat): (r: nat)
    ensures r <= len
    ensures 0 <= i <= len ==> r == i
    ensures i > len ==> r == len
    ensures i < 0 ==> r == Max(0, len + i)
  {
    if i < 0 then (if len + i < 0 then 0 else len + i)
    else if i > len then len
    else i
  }

  /** `s.slice(start, end)` as JavaScript defines it. */
  function Slice<T>(s: seq<T>, start: int, end: int): (r: seq<T>)
    ensures |r| <= |s|
    ensures 0 <= start <= end <= |s| ==> r == s[start..end]
  {
    var a, b := ClampIndex(start, |s|), ClampIndex(end, |s|);
    if a < b then s[a..b] else []
  }

  /** A slice with bounds `0 <= start <= end` is the part of `s` between them, clipped to `s`. */
  lemma SliceNonNegative<T>(s: seq<T>, start: nat, end: nat)
    requires start <= end
    ensures Slice(s, start, end) == s[Min(start, |s|)..Min(end, |s|)]
    ensures |Slice(s, start, end)| <= end - start
    ensures forall i :: 0 <= i < |Slice(s, start, end)| ==> Slice(s, start, end)[i] == s[start + i]
  {
  }

  /** `Math.ceil(n / k)` for a count `n` and a positive page size `k`: the fewest pages of `k` that hold `n`. */
  function CeilDiv(n: nat, k: nat): (r: nat)
    requires k > 0
    ensures n <= r * k
    ensures r > 0 ==> (r - 1) * k < n
    ensures r == 0 <==> n == 0
    decreases n
  {
    if n == 0 then 0 else if n <= k then 1 else 1 + CeilDiv(n - k, k)
  }

  lemma {:induction false} MulMonotone(a: nat, b: nat, k: nat)
    requires a <= b
    ensures a * k <= b * k
    decreases b - a
  {
    if a < b {
      MulMonotone(a, b - 1, k);
      assert b * k == (b - 1) * k + k;
    }
  }

  /** Page `p` (counting from 1) of `k` items begins inside a list of `n` items iff `p` is at most `ceil(n / k)`. */
  lemma PageStartsInside(n: nat, k: nat, p: nat)
    requires k > 0 && p >= 1
    ensures p <= CeilDiv(n, k) <==> (p - 1) * k < n
  {
    var t := CeilDiv(n, k);
    if p <= t {
      MulMonotone(p - 1, t - 1, k);
    } else {
      MulMonotone(t, p - 1, k);
    }
  }
}
