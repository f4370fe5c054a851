/**
  Generic sequence vocabulary shared by the page models: an optional value,
  order-preserving filtering (JavaScript's `Array.prototype.filter`), the
  subsequence relation that states "in the original order", and sums
  (`reduce((total, x) => total + f(x), 0)`).
 */
module Seqs {

  datatype Option<T> = None | Some(value: T) {
    function GetOr(default: T): T {
      match this
      case Some(v) => v
      case None => default
    }
  }

  /** `r` occurs in `s` with gaps: every element of `r` is matched, left to right, by a distinct later element of `s`. */
  predicate SubseqOf<T(==)>(r: seq<T>, s: seq<T>)
    decreases |s|
  {
    if |r| == 0 then true
    else if |s| == 0 then false
    else if r[0] == s[0] then SubseqOf(r[1..], s[1..])
    else SubseqOf(r, s[1..])
  }

  /** The elements of `s` that satisfy `p`, in their original order. */
  function Filter<T(==,!new)>(s: seq<T>, p: T -> bool): (r: seq<T>)
    ensures |r| <= |s|
    ensures forall x :: x in r <==> x in s && p(x)
    ensures forall x :: multiset(r)[x] == if p(x) then multiset(s)[x] else 0
    ensures SubseqOf(r, s)
  {
    if |s| == 0 then []
    else
      assert s == [s[0]] + s[1..];
      var rest := Filter(s[1..], p);
      if p(s[0]) then
        [s[0]] + rest
      else
        assert |rest| > 0 ==> rest[0] in rest && rest[0] != s[0];
        rest
  }

  /** Filtering distributes over concatenation. */
  lemma {:induction false} FilterAppend<T(!new)>(a: seq<T>, b: seq<T>, p: T -> bool)
    ensures Filter(a + b, p) == Filter(a, p) + Filter(b, p)
  {
    if |a| == 0 {
      assert a + b == b;
    } else {
      assert (a + b)[1..] == a[1..] + b;
      FilterAppend(a[1..], b, p);
    }
  }

  /** A filter that keeps every element is the identity. */
  lemma {:induction false} FilterAll<T(!new)>(s: seq<T>, p: T -> bool)
    requires forall x :: x in s ==> p(x)
    ensures Filter(s, p) == s
  {
    if |s| > 0 {
      assert forall x :: x in s[1..] ==> x in s;
      FilterAll(s[1..], p);
    }
  }

  /** Sum of `f` over `s`, left to right. */
  function SumOf<T>(s: seq<T>, f: T -> int): int
  {
    if |s| == 0 then 0 else f(s[0]) + SumOf(s[1..], f)
  }

  lemma {:induction false} SumOfAppend<T>(a: seq<T>, b: seq<T>, f: T -> int)
    ensures SumOf(a + b, f) == SumOf(a, f) + SumOf(b, f)
  {
    if |a| == 0 {
      assert a + b == b;
    } else {
      assert (a + b)[1..] == a[1..] + b;
      SumOfAppend(a[1..], b, f);
    }
  }

  /** Two summands that agree on every element give the same sum. */
  lemma {:induction false} SumOfCongruent<T>(s: seq<T>, f: T -> int, g: T -> int)
    requires forall i :: 0 <= i < |s| ==> f(s[i]) == g(s[i])
    ensures SumOf(s, f) == SumOf(s, g)
  {
    if |s| > 0 {
      SumOfCongruent(s[1..], f, g);
    }
  }

  /** Elements of `xs` joined with `sep` between neighbours (JavaScript's `Array.prototype.join`). */
  function Join(xs: seq<string>, sep: string): (r: string)
    ensures |xs| == 0 ==> r == ""
    ensures |xs| == 1 ==> r == xs[0]
    ensures |xs| > 1 ==> r == Join(xs[..|xs| - 1], sep) + sep + xs[|xs| - 1]
  {
    if |xs| == 0 then ""
    else if |xs| == 1 then xs[0]
    else
      var rest, init := xs[1..], xs[..|xs| - 1];
      assert rest[..|rest| - 1] == init[1..] && rest[|rest| - 1] == xs[|xs| - 1] && init[0] == xs[0];
      assert |xs| == 2 ==> init == [xs[0]] && rest == [xs[1]];
      xs[0] + sep + Join(rest, sep)
  }
}
