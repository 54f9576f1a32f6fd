/** Generic list helpers shared by every component of the storefront model.
    Each one mirrors an Array.prototype idiom the components use
    (filter, reduce-to-sum, includes-then-filter-or-append, Set insertion order,
    slice) and carries the facts the rest of the model relies on. */
module Seqs {

  /** `a` can be obtained from `b` by deleting elements: the relative order of
      what is kept is the order in `b`. */
  predicate Subseq<T(==)>(a: seq<T>, b: seq<T>)
    decreases |b|
  {
    |a| <= |b| &&
    (|a| == 0 || (a[0] == b[0] && Subseq(a[1..], b[1..])) || Subseq(a, b[1..]))
  }

  /** Every sequence is a subsequence of itself. */
  lemma {:induction false} SubseqRefl<T>(a: seq<T>)
    ensures Subseq(a, a)
  {
    if |a| > 0 {
      SubseqRefl(a[1..]);
    }
  }

  /** Being a subsequence is transitive. */
  lemma {:induction false} SubseqTrans<T>(a: seq<T>, b: seq<T>, c: seq<T>)
    requires (Subseq(a, b) || a == b) && (Subseq(b, c) || b == c)
    ensures Subseq(a, c)
    decreases |c|
  {
    if a == b && b == c {
      SubseqRefl(a);
    } else if a == b {
    } else if b == c {
    } else if |a| > 0 {
      if b[0] == c[0] && Subseq(b[1..], c[1..]) {
        if a[0] == b[0] && Subseq(a[1..], b[1..]) {
          SubseqTrans(a[1..], b[1..], c[1..]);
        } else {
          SubseqTrans(a, b[1..], c[1..]);
        }
      } else {
        SubseqTrans(a, b, c[1..]);
      }
    }
  }

  /** No element occurs twice. */
  predicate Distinct<T(==)>(s: seq<T>) {
    forall i, j :: 0 <= i < j < |s| ==> s[i] != s[j]
  }

  /** The elements of `s` that satisfy `p`, in their original order
      (`Array.prototype.filter`). Each kept value keeps its multiplicity. */
  function Filter<T(==,!new)>(s: seq<T>, p: T -> bool): (r: seq<T>)
    ensures |r| <= |s|
    ensures forall x :: x in r <==> x in s && p(x)
    ensures forall x :: multiset(r)[x] == if p(x) then multiset(s)[x] else 0
    ensures Subseq(r, s)
  {
    if |s| == 0 then []
    else
      assert s == [s[0]] + s[1..];
      var rest := Filter(s[1..], p);
      if p(s[0]) then [s[0]] + rest else rest
  }

  /** Number of elements satisfying `p` (`filter(p).length`). */
  function Count<T(==,!new)>(s: seq<T>, p: T -> bool): nat {
    |Filter(s, p)|
  }

  /** `s.reduce((sum, x) => sum + f(x), 0)`. */
  function SumBy<T>(s: seq<T>, f: T -> int): int {
    if |s| == 0 then 0 else f(s[0]) + SumBy(s[1..], f)
  }

  /** The first `n` elements, or all of them when there are fewer (`slice(0, n)`). */
  function Take<T>(s: seq<T>, n: nat): (r: seq<T>)
    ensures |r| == if n < |s| then n else |s|
    ensures r <= s
  {
    if n < |s| then s[..n] else s
  }

  /** A prefix of a list without repeats has none either. */
  lemma TakeDistinct<T>(s: seq<T>, n: nat)
    requires Distinct(s)
    ensures Distinct(Take(s, n))
  {
    var r := Take(s, n);
    forall i, j | 0 <= i < j < |r| ensures r[i] != r[j] {
      assert r[i] == s[i] && r[j] == s[j];
    }
  }

  /** Everything in a prefix is in the list. */
  lemma TakeSubset<T>(s: seq<T>, n: nat)
    ensures forall x :: x in Take(s, n) ==> x in s
  {
    var r := Take(s, n);
    forall x | x in r ensures x in s {
      var i :| 0 <= i < |r| && r[i] == x;
      assert s[i] == x;
    }
  }

  /** The test `y => y !== x` that drops `x`. */
  function Other<T(==)>(x: T): T -> bool {
    y => y != x
  }

  /** `xs.includes(x) ? xs.filter(y => y !== x) : [...xs, x]`, the toggle used by
      every multi-select in the forms. */
  function Toggle<T(==,!new)>(xs: seq<T>, x: T): (r: seq<T>)
    ensures x in r <==> x !in xs
    ensures forall y :: y != x ==> (y in r <==> y in xs)
    ensures x !in xs ==> r == xs + [x]
    ensures x in xs ==> Subseq(r, xs) && forall y :: multiset(r)[y] == if y == x then 0 else multiset(xs)[y]
    ensures Distinct(xs) ==> Distinct(r)
  {
    if x in xs then
      var r := Filter(xs, Other(x));
      assert Distinct(xs) ==> Distinct(r) by {
        if Distinct(xs) {
          FilterDistinct(xs, Other(x));
        }
      }
      r
    else
      assert Distinct(xs) ==> Distinct(xs + [x]) by {
        if Distinct(xs) {
          forall i, j | 0 <= i < j < |xs + [x]| ensures (xs + [x])[i] != (xs + [x])[j] {
            if j == |xs| {
              assert (xs + [x])[i] == xs[i];
            }
          }
        }
      }
      xs + [x]
  }

  /** Toggling the same value twice restores membership of every value, and
      restores the list itself when the value was absent. */
  lemma ToggleTwice<T(!new)>(xs: seq<T>, x: T)
    ensures forall y :: y in Toggle(Toggle(xs, x), x) <==> y in xs
    ensures x !in xs ==> Toggle(Toggle(xs, x), x) == xs
  {
    if x !in xs {
      FilterAppendDropped(xs, x);
    }
  }

  /** Removing a value from a list that gained it by appending gives back the list. */
  lemma FilterAppendDropped<T(!new)>(xs: seq<T>, x: T)
    requires x !in xs
    ensures Filter(xs + [x], Other(x)) == xs
  {
    FilterAppend(xs, [x], Other(x));
    FilterAll(xs, Other(x));
    assert Filter([x], Other(x)) == Filter([x][1..], Other(x));
    assert [x][1..] == [];
  }

  lemma DistinctCons<T>(h: T, t: seq<T>)
    ensures Distinct([h] + t) <==> h !in t && Distinct(t)
  {
    var s := [h] + t;
    if h !in t && Distinct(t) {
      forall i, j | 0 <= i < j < |s| ensures s[i] != s[j] {
        if i == 0 {
          assert s[j] == t[j - 1];
        } else {
          assert s[i] == t[i - 1] && s[j] == t[j - 1];
        }
      }
    }
    if Distinct(s) {
      forall k | 0 <= k < |t| ensures t[k] != h {
        assert s[0] != s[k + 1];
      }
      forall i, j | 0 <= i < j < |t| ensures t[i] != t[j] {
        assert t[i] == s[i + 1] && t[j] == s[j + 1];
      }
    }
  }

  /** Filtering a list without duplicates yields a list without duplicates. */
  lemma {:induction false} FilterDistinct<T(!new)>(s: seq<T>, p: T -> bool)
    requires Distinct(s)
    ensures Distinct(Filter(s, p))
  {
    if |s| > 0 {
      assert s == [s[0]] + s[1..];
      DistinctCons(s[0], s[1..]);
      FilterDistinct(s[1..], p);
      if p(s[0]) {
        DistinctCons(s[0], Filter(s[1..], p));
      }
    }
  }

  /** Filtering distributes over concatenation. */
  lemma {:induction false} FilterAppend<T(!new)>(a: seq<T>, b: seq<T>, p: T -> bool)
    ensures Filter(a + b, p) == Filter(a, p) + Filter(b, p)
  {
    if |a| == 0 {
      assert a + b == b;
    } else {
      var c := a + b;
      assert c[0] == a[0] && c[1..] == a[1..] + b;
      FilterAppend(a[1..], b, p);
      FilterCons(c, p);
      FilterCons(a, p);
      var h := if p(a[0]) then [a[0]] else [];
      assert Filter(c, p) == h + (Filter(a[1..], p) + Filter(b, p));
      AppendAssoc(h, Filter(a[1..], p), Filter(b, p));
    }
  }

  /** Filtering a list with one more element at the end. */
  lemma FilterSnoc<T(!new)>(s: seq<T>, x: T, p: T -> bool)
    ensures Filter(s + [x], p) == if p(x) then Filter(s, p) + [x] else Filter(s, p)
  {
    FilterAppend(s, [x], p);
    FilterCons([x], p);
    assert [x][1..] == [];
  }

  lemma AppendAssoc<T>(a: seq<T>, b: seq<T>, c: seq<T>)
    ensures a + (b + c) == (a + b) + c
  {
  }

  /** Filtering a non-empty list: its head, if kept, then the filtered tail. */
  lemma FilterCons<T(!new)>(s: seq<T>, p: T -> bool)
    requires |s| > 0
    ensures Filter(s, p) == (if p(s[0]) then [s[0]] else []) + Filter(s[1..], p)
  {
  }

  /** A predicate and its negation split a list: the two counts add up to its length. */
  lemma {:induction false} CountComplement<T(!new)>(s: seq<T>, p: T -> bool, q: T -> bool)
    requires forall x :: q(x) == !p(x)
    ensures Count(s, p) + Count(s, q) == |s|
  {
    if |s| > 0 {
      CountComplement(s[1..], p, q);
    }
  }

  /** Two extensionally equal predicates filter alike. */
  lemma {:induction false} FilterExt<T(!new)>(s: seq<T>, p: T -> bool, q: T -> bool)
    requires forall x :: p(x) == q(x)
    ensures Filter(s, p) == Filter(s, q)
  {
    if |s| > 0 {
      FilterExt(s[1..], p, q);
    }
  }

  /** A predicate that holds of every element keeps the whole list. */
  lemma {:induction false} FilterAll<T(!new)>(s: seq<T>, p: T -> bool)
    requires forall x :: x in s ==> p(x)
    ensures Filter(s, p) == s
  {
    if |s| > 0 {
      FilterAll(s[1..], p);
      assert s == [s[0]] + s[1..];
    }
  }

  /** Filtering twice is filtering by the conjunction. */
  lemma {:induction false} FilterFilter<T(!new)>(s: seq<T>, p: T -> bool, q: T -> bool)
    ensures Filter(Filter(s, p), q) == Filter(s, x => p(x) && q(x))
  {
    if |s| > 0 {
      FilterFilter(s[1..], p, q);
    }
  }

  /** Counts of two predicates that never hold together add up to the count of
      their disjunction, so together they never exceed the list length. */
  lemma {:induction false} CountDisjoint<T(!new)>(s: seq<T>, p: T -> bool, q: T -> bool)
    requires forall x :: !(p(x) && q(x))
    ensures Count(s, p) + Count(s, q) == Count(s, x => p(x) || q(x))
    ensures Count(s, p) + Count(s, q) <= |s|
  {
    if |s| > 0 {
      CountDisjoint(s[1..], p, q);
    }
  }

  /** Summing over a filtered list equals summing the list with the rejected
      elements contributing zero. */
  lemma {:induction false} SumByFilter<T(!new)>(s: seq<T>, p: T -> bool, f: T -> int)
    ensures SumBy(Filter(s, p), f) == SumBy(s, x => if p(x) then f(x) else 0)
  {
    if |s| > 0 {
      SumByFilter(s[1..], p, f);
      if p(s[0]) {
        assert ([s[0]] + Filter(s[1..], p))[1..] == Filter(s[1..], p);
      }
    }
  }

  /** Two extensionally equal term functions sum alike. */
  lemma {:induction false} SumByExt<T>(s: seq<T>, f: T -> int, g: T -> int)
    requires forall x :: f(x) == g(x)
    ensures SumBy(s, f) == SumBy(s, g)
  {
    if |s| > 0 {
      SumByExt(s[1..], f, g);
    }
  }

  /** A sum of terms each at least `c` is at least `c` per element. */
  lemma {:induction false} SumByAtLeast<T>(s: seq<T>, f: T -> int, c: int)
    ensures (forall i :: 0 <= i < |s| ==> f(s[i]) >= c) ==> SumBy(s, f) >= c * |s|
  {
    if |s| > 0 && forall i :: 0 <= i < |s| ==> f(s[i]) >= c {
      assert forall i :: 1 <= i < |s| ==> s[1..][i - 1] == s[i];
      SumByAtLeast(s[1..], f, c);
      assert c * |s| == c + c * (|s| - 1);
    }
  }

  lemma {:induction false} SumByAppend<T>(a: seq<T>, b: seq<T>, f: T -> int)
    ensures SumBy(a + b, f) == SumBy(a, f) + SumBy(b, f)
  {
    if |a| == 0 {
      assert a + b == b;
    } else {
      assert (a + b)[1..] == a[1..] + b;
      SumByAppend(a[1..], b, f);
    }
  }

  /** Replacing one element changes a sum by the difference of its terms. */
  lemma {:induction false} SumByUpdate<T>(s: seq<T>, k: nat, v: T, f: T -> int)
    requires k < |s|
    ensures SumBy(s[k := v], f) == SumBy(s, f) - f(s[k]) + f(v)
  {
    if k > 0 {
      assert s[k := v][1..] == s[1..][k - 1 := v];
      SumByUpdate(s[1..], k - 1, v, f);
    } else {
      assert s[k := v][1..] == s[1..];
    }
  }

  /** Replacing one element changes a count by at most the two elements' votes. */
  lemma {:induction false} CountUpdate<T(!new)>(s: seq<T>, k: nat, v: T, p: T -> bool)
    requires k < |s|
    ensures Count(s[k := v], p) == Count(s, p) - (if p(s[k]) then 1 else 0) + (if p(v) then 1 else 0)
  {
    var u := s[k := v];
    CountCons(s, p);
    CountCons(u, p);
    if k == 0 {
      assert u[1..] == s[1..];
    } else {
      assert u[1..] == s[1..][k - 1 := v];
      CountUpdate(s[1..], k - 1, v, p);
    }
  }

  /** A count splits into the first element's vote and the count of the rest. */
  lemma CountCons<T(!new)>(s: seq<T>, p: T -> bool)
    requires |s| > 0
    ensures Count(s, p) == (if p(s[0]) then 1 else 0) + Count(s[1..], p)
  {
  }

  /** Position of the first occurrence of `x` (`indexOf`). */
  function IndexOf<T(==)>(s: seq<T>, x: T): (i: nat)
    requires x in s
    ensures i < |s| && s[i] == x && x !in s[..i]
  {
    if s[0] == x then 0
    else
      assert s[1..][..IndexOf(s[1..], x)] == s[1..IndexOf(s[1..], x) + 1];
      1 + IndexOf(s[1..], x)
  }

  lemma IndexOfUnique<T>(s: seq<T>, x: T, i: nat)
    requires i < |s| && s[i] == x && x !in s[..i]
    ensures x in s && IndexOf(s, x) == i
  {
    var k := IndexOf(s, x);
    forall m | 0 <= m < i ensures s[m] != x {
      assert s[m] == s[..i][m];
    }
    forall m | 0 <= m < k ensures s[m] != x {
      assert s[m] == s[..k][m];
    }
  }

  /** The distinct elements of `s` in order of first appearance
      (`Array.from(new Set(s))`): scanning left to right, a value is kept the
      first time it is seen. */
  function Dedup<T(==,!new)>(s: seq<T>): (r: seq<T>)
    ensures Distinct(r)
    ensures forall x :: x in r <==> x in s
    ensures forall i, j :: 0 <= i < j < |r| ==> r[i] in s && r[j] in s && IndexOf(s, r[i]) < IndexOf(s, r[j])
    decreases |s|
  {
    if |s| == 0 then []
    else
      var init := s[..|s| - 1];
      var last := s[|s| - 1];
      var prev := Dedup(init);
      assert s == init + [last];
      if last in init then
        DedupRepeat(init, last, prev);
        prev
      else
        DedupNew(init, last, prev);
        prev + [last]
  }

  /** `r` lists the distinct values of `s` in order of first occurrence. */
  ghost predicate DedupOf<T(!new)>(s: seq<T>, r: seq<T>) {
    && Distinct(r)
    && (forall x :: x in r <==> x in s)
    && forall i, j :: 0 <= i < j < |r| ==> r[i] in s && r[j] in s && IndexOf(s, r[i]) < IndexOf(s, r[j])
  }

  /** Appending leaves the first position of every earlier value alone. */
  lemma IndexOfAppend<T>(init: seq<T>, last: T, x: T)
    requires x in init
    ensures x in init + [last] && IndexOf(init + [last], x) == IndexOf(init, x)
  {
    var s := init + [last];
    var k := IndexOf(init, x);
    assert s[..k] == init[..k];
    IndexOfUnique(s, x, k);
  }

  /** A value seen before leaves the distinct list as it was. */
  lemma DedupRepeat<T(!new)>(init: seq<T>, last: T, prev: seq<T>)
    requires DedupOf(init, prev) && last in init
    ensures DedupOf(init + [last], prev)
  {
    var s := init + [last];
    forall i, j | 0 <= i < j < |prev|
      ensures prev[i] in s && prev[j] in s && IndexOf(s, prev[i]) < IndexOf(s, prev[j])
    {
      IndexOfAppend(init, last, prev[i]);
      IndexOfAppend(init, last, prev[j]);
    }
  }

  /** A new value goes last. */
  lemma DedupNew<T(!new)>(init: seq<T>, last: T, prev: seq<T>)
    requires DedupOf(init, prev) && last !in init
    ensures DedupOf(init + [last], prev + [last])
  {
    var s := init + [last];
    var r := prev + [last];
    assert s[..|init|] == init;
    IndexOfUnique(s, last, |s| - 1);
    assert forall i :: 0 <= i < |prev| ==> r[i] == prev[i] && prev[i] in init;
    assert r[|r| - 1] == last;
    assert Distinct(r) by {
      forall i, j | 0 <= i < j < |r| ensures r[i] != r[j] {
        if j == |r| - 1 {
          assert r[i] in init;
        }
      }
    }
    forall i, j | 0 <= i < j < |r|
      ensures r[i] in s && r[j] in s && IndexOf(s, r[i]) < IndexOf(s, r[j])
    {
      IndexOfAppend(init, last, r[i]);
      if j < |prev| {
        IndexOfAppend(init, last, r[j]);
      }
    }
  }


}
