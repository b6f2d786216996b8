/** Array operations the components use on their record lists: `filter`,
    `filter(...).length`, `reduce` sums, `new Set(map(...))` and the
    subsequence relation that states "original order is preserved". */
module Seqs {

  /** `r` can be obtained from `s` by deleting elements (order preserved). */
  ghost predicate IsSubseq<T>(r: seq<T>, s: seq<T>)
    decreases |s|
  {
    if |r| == 0 then true
    else if |s| == 0 then false
    else (r[0] == s[0] && IsSubseq(r[1..], s[1..])) || IsSubseq(r, s[1..])
  }

  /** Number of elements of `s` satisfying `p` (`s.filter(p).length`). */
  function CountIf<T>(s: seq<T>, p: T -> bool): (n: nat)
    ensures n <= |s|
    ensures n == 0 <==> forall x :: x in s ==> !p(x)
    ensures n == |s| <==> forall x :: x in s ==> p(x)
    decreases |s|
  {
    if |s| == 0 then 0
    else (if p(s[0]) then 1 else 0) + CountIf(s[1..], p)
  }

  /** `s.filter(p)`: the elements of `s` satisfying `p`, in their original order. */
  function Filter<T>(s: seq<T>, p: T -> bool): (r: seq<T>)
    ensures |r| == CountIf(s, p)
    ensures forall x :: x in r ==> x in s && p(x)
    ensures forall x :: x in s && p(x) ==> x in r
    ensures IsSubseq(r, s)
    decreases |s|
  {
    if |s| == 0 then []
    else if p(s[0]) then [s[0]] + Filter(s[1..], p)
    else Filter(s[1..], p)
  }

  /** `s.reduce((sum, x) => sum + f(x), 0)`. */
  function SumBy<T>(s: seq<T>, f: T -> int): int
    decreases |s|
  {
    if |s| == 0 then 0 else f(s[0]) + SumBy(s[1..], f)
  }

  /** `new Set(s.map(f))`, as a mathematical set. */
  function Image<T, U>(s: seq<T>, f: T -> U): (r: set<U>)
    ensures |r| <= |s|
    ensures forall x :: x in s ==> f(x) in r
    ensures forall y :: y in r ==> exists x :: x in s && f(x) == y
    decreases |s|
  {
    if |s| == 0 then {}
    else
      var rest := Image(s[1..], f);
      assert s == [s[0]] + s[1..];
      {f(s[0])} + rest
  }

  /** No element occurs twice. */
  predicate NoDuplicates<T(==)>(s: seq<T>)
  {
    forall i, j :: 0 <= i < j < |s| ==> s[i] != s[j]
  }

  /** Index of the first occurrence of `x` in `s`. */
  function IndexOf<T(==)>(s: seq<T>, x: T): (i: nat)
    requires x in s
    ensures i < |s| && s[i] == x && x !in s[..i]
    decreases |s|
  {
    if s[0] == x then 0
    else
      var k := IndexOf(s[1..], x);
      assert s[1..][..k] == s[1..k + 1];
      1 + k
  }

  /** Every element of a subsequence whose elements all satisfy `p` is counted
      by `CountIf`, so such a subsequence is never longer than the filter. */
  lemma {:induction false} SubseqOfSatisfyingIsShort<T>(r: seq<T>, s: seq<T>, p: T -> bool)
    requires IsSubseq(r, s)
    requires forall x :: x in r ==> p(x)
    ensures |r| <= CountIf(s, p)
    decreases |s|
  {
    if |r| == 0 {
    } else if r[0] == s[0] && IsSubseq(r[1..], s[1..]) {
      assert r[0] in r;
      assert forall x :: x in r[1..] ==> x in r;
      SubseqOfSatisfyingIsShort(r[1..], s[1..], p);
    } else {
      SubseqOfSatisfyingIsShort(r, s[1..], p);
    }
  }

  /** The three properties `Filter` promises pin its result down: a
      subsequence of `s`, made only of elements satisfying `p`, as long as the
      number of such elements, is exactly `s.filter(p)`. */
  lemma {:induction false} FilterIsUnique<T>(r: seq<T>, s: seq<T>, p: T -> bool)
    requires IsSubseq(r, s)
    requires forall x :: x in r ==> p(x)
    requires |r| == CountIf(s, p)
    ensures r == Filter(s, p)
    decreases |s|
  {
    if |s| == 0 {
    } else if |r| == 0 {
      assert CountIf(s, p) == 0;
    } else {
      var rest := s[1..];
      assert forall x :: x in r[1..] ==> x in r;
      if p(s[0]) {
        if r[0] == s[0] && IsSubseq(r[1..], rest) {
          FilterIsUnique(r[1..], rest, p);
          assert r == [r[0]] + r[1..];
        } else {
          SubseqOfSatisfyingIsShort(r, rest, p);
          assert false;
        }
      } else {
        assert r[0] in r;
        FilterIsUnique(r, rest, p);
      }
    }
  }

  /** A stricter predicate keeps a subsequence of what a looser one keeps. */
  lemma {:induction false} FilterMonotone<T>(s: seq<T>, strict: T -> bool, loose: T -> bool)
    requires forall x :: strict(x) ==> loose(x)
    ensures IsSubseq(Filter(s, strict), Filter(s, loose))
    decreases |s|
  {
    if |s| > 0 {
      FilterMonotone(s[1..], strict, loose);
      var a := Filter(s[1..], strict);
      var b := Filter(s[1..], loose);
      if strict(s[0]) {
        assert ([s[0]] + a)[1..] == a;
        assert ([s[0]] + b)[1..] == b;
      } else if loose(s[0]) {
        assert ([s[0]] + b)[1..] == b;
      }
    }
  }

  /** Every element satisfies `p` or its negation, so the two counts add up. */
  lemma {:induction false} CountComplement<T>(s: seq<T>, p: T -> bool, q: T -> bool)
    requires forall x :: q(x) <==> !p(x)
    ensures CountIf(s, p) + CountIf(s, q) == |s|
    decreases |s|
  {
    if |s| > 0 {
      CountComplement(s[1..], p, q);
    }
  }

  /** Two predicates that agree on every element of `s` keep the same elements. */
  lemma {:induction false} FilterCongruent<T>(s: seq<T>, p: T -> bool, q: T -> bool)
    requires forall x :: x in s ==> (p(x) <==> q(x))
    ensures Filter(s, p) == Filter(s, q)
    decreases |s|
  {
    if |s| > 0 {
      assert forall x :: x in s[1..] ==> x in s;
      FilterCongruent(s[1..], p, q);
    }
  }

  /** A predicate that holds everywhere keeps the whole list. */
  lemma {:induction false} FilterAll<T>(s: seq<T>, p: T -> bool)
    requires forall x :: x in s ==> p(x)
    ensures Filter(s, p) == s
    decreases |s|
  {
    if |s| > 0 {
      assert forall x :: x in s[1..] ==> x in s;
      FilterAll(s[1..], p);
      assert s == [s[0]] + s[1..];
    }
  }

  /** With non-negative summands, summing a filtered list gives no more than
      summing the whole list. */
  lemma {:induction false} SumFilterAtMost<T>(s: seq<T>, p: T -> bool, f: T -> int)
    requires forall x :: x in s ==> f(x) >= 0
    ensures SumBy(Filter(s, p), f) <= SumBy(s, f)
    decreases |s|
  {
    if |s| > 0 {
      assert forall x :: x in s[1..] ==> x in s;
      SumFilterAtMost(s[1..], p, f);
      if p(s[0]) {
        assert ([s[0]] + Filter(s[1..], p))[1..] == Filter(s[1..], p);
      }
    }
  }

  /** Splitting a list by a predicate and its negation splits its sum. */
  lemma {:induction false} SumFilterSplit<T>(s: seq<T>, p: T -> bool, q: T -> bool, f: T -> int)
    requires forall x :: q(x) <==> !p(x)
    ensures SumBy(Filter(s, p), f) + SumBy(Filter(s, q), f) == SumBy(s, f)
    decreases |s|
  {
    if |s| > 0 {
      SumFilterSplit(s[1..], p, q, f);
      if p(s[0]) {
        assert ([s[0]] + Filter(s[1..], p))[1..] == Filter(s[1..], p);
      } else {
        assert ([s[0]] + Filter(s[1..], q))[1..] == Filter(s[1..], q);
      }
    }
  }

  /** Summing distributes over concatenation. */
  lemma {:induction false} SumAppend<T>(s: seq<T>, t: seq<T>, f: T -> int)
    ensures SumBy(s + t, f) == SumBy(s, f) + SumBy(t, f)
    decreases |s|
  {
    if |s| == 0 {
      assert s + t == t;
    } else {
      assert (s + t)[1..] == s[1..] + t;
      SumAppend(s[1..], t, f);
    }
  }

  /** Filtering distributes over concatenation. */
  lemma {:induction false} FilterAppend<T>(s: seq<T>, t: seq<T>, p: T -> bool)
    ensures Filter(s + t, p) == Filter(s, p) + Filter(t, p)
    decreases |s|
  {
    if |s| == 0 {
      assert s + t == t;
    } else {
      assert (s + t)[0] == s[0];
      assert (s + t)[1..] == s[1..] + t;
      FilterAppend(s[1..], t, p);
    }
  }

  /** Counting `q` among the elements kept by `p` counts the elements that
      satisfy both. */
  lemma {:induction false} CountFilter<T>(s: seq<T>, p: T -> bool, q: T -> bool, both: T -> bool)
    requires forall x :: both(x) <==> p(x) && q(x)
    ensures CountIf(Filter(s, p), q) == CountIf(s, both)
    decreases |s|
  {
    if |s| > 0 {
      CountFilter(s[1..], p, q, both);
      if p(s[0]) {
        assert ([s[0]] + Filter(s[1..], p))[1..] == Filter(s[1..], p);
      }
    }
  }

  /** Two predicates no element satisfies at once count at most `|s|` together. */
  lemma {:induction false} CountDisjoint<T>(s: seq<T>, p: T -> bool, q: T -> bool)
    requires forall x :: !(p(x) && q(x))
    ensures CountIf(s, p) + CountIf(s, q) <= |s|
    decreases |s|
  {
    if |s| > 0 {
      CountDisjoint(s[1..], p, q);
    }
  }

  /** `[...new Set(s)]`: the distinct elements of `s`, each where it first
      occurs (see `DistinctKeepsFirstOccurrenceOrder`). */
  function Distinct<T(==)>(s: seq<T>): (r: seq<T>)
    ensures NoDuplicates(r)
    ensures forall x :: x in r ==> x in s
    ensures forall x :: x in s ==> x in r
    ensures |r| <= |s|
    decreases |s|
  {
    if |s| == 0 then []
    else
      var init := s[..|s| - 1];
      assert s == init + [s[|s| - 1]];
      var d := Distinct(init);
      if s[|s| - 1] in d then d else d + [s[|s| - 1]]
  }

  /** The first occurrence of an element of `p` in `p + t` is the one in `p`. */
  lemma {:induction false} IndexOfPrefix<T>(p: seq<T>, t: seq<T>, x: T)
    requires x in p
    ensures IndexOf(p + t, x) == IndexOf(p, x)
    decreases |p|
  {
    if p[0] != x {
      assert (p + t)[1..] == p[1..] + t;
      IndexOfPrefix(p[1..], t, x);
    }
  }

  /** Elements of `Distinct(s)` appear in the order of their first
      occurrences in `s`. */
  lemma {:induction false} DistinctKeepsFirstOccurrenceOrder<T>(s: seq<T>)
    ensures forall i, j :: 0 <= i < j < |Distinct(s)| ==> IndexOf(s, Distinct(s)[i]) < IndexOf(s, Distinct(s)[j])
    decreases |s|
  {
    if |s| > 0 {
      var init, last := s[..|s| - 1], s[|s| - 1];
      assert s == init + [last];
      var d := Distinct(init);
      DistinctKeepsFirstOccurrenceOrder(init);
      forall x | x in d ensures IndexOf(s, x) == IndexOf(init, x) {
        IndexOfPrefix(init, [last], x);
      }
      if last !in d {
        var r := d + [last];
        forall i, j | 0 <= i < j < |r| ensures IndexOf(s, r[i]) < IndexOf(s, r[j]) {
          if j < |d| {
            assert r[i] == d[i] && r[j] == d[j];
          } else {
            assert r[i] == d[i];
          }
        }
      }
    }
  }

  /** `s.map(f)`. */
  function Map<T, U>(s: seq<T>, f: T -> U): (r: seq<U>)
    ensures |r| == |s|
    ensures forall i :: 0 <= i < |s| ==> r[i] == f(s[i])
    ensures forall x :: x in s ==> f(x) in r
    ensures forall y :: y in r ==> exists i :: 0 <= i < |s| && f(s[i]) == y
    decreases |s|
  {
    if |s| == 0 then []
    else
      var rest := Map(s[1..], f);
      assert forall y :: y in rest ==> exists i :: 0 <= i < |s| && f(s[i]) == y by {
        forall y | y in rest ensures exists i :: 0 <= i < |s| && f(s[i]) == y {
          var i :| 0 <= i < |s[1..]| && f(s[1..][i]) == y;
          assert f(s[i + 1]) == y;
        }
      }
      [f(s[0])] + rest
  }

  /** A subsequence only holds elements of the list. */
  lemma {:induction false} SubseqMembers<T>(r: seq<T>, s: seq<T>)
    requires IsSubseq(r, s)
    ensures forall x :: x in r ==> x in s
    decreases |s|
  {
    if |r| > 0 {
      if r[0] == s[0] && IsSubseq(r[1..], s[1..]) {
        SubseqMembers(r[1..], s[1..]);
        assert r == [r[0]] + r[1..];
      } else {
        SubseqMembers(r, s[1..]);
      }
    }
  }

  /** A subsequence of a list without duplicates has none either. */
  lemma {:induction false} SubseqKeepsNoDuplicates<T>(r: seq<T>, s: seq<T>)
    requires IsSubseq(r, s) && NoDuplicates(s)
    ensures NoDuplicates(r)
    decreases |s|
  {
    if |r| > 0 {
      assert NoDuplicates(s[1..]) by {
        forall i, j | 0 <= i < j < |s[1..]| ensures s[1..][i] != s[1..][j] {
          assert s[1..][i] == s[i + 1] && s[1..][j] == s[j + 1];
        }
      }
      if r[0] == s[0] && IsSubseq(r[1..], s[1..]) {
        SubseqKeepsNoDuplicates(r[1..], s[1..]);
        SubseqMembers(r[1..], s[1..]);
        forall i, j | 0 <= i < j < |r| ensures r[i] != r[j] {
          assert r[j] == r[1..][j - 1];
          if i == 0 {
            assert r[j] in s[1..];
            var k :| 0 <= k < |s[1..]| && s[1..][k] == r[j];
            assert s[k + 1] == r[j];
          } else {
            assert r[i] == r[1..][i - 1];
          }
        }
      } else {
        SubseqKeepsNoDuplicates(r, s[1..]);
      }
    }
  }
}
