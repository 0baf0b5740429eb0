/**
 * Sequences without repeats, binomial coefficients and the enumeration of
 * k-combinations of a sequence in the order `itertools.combinations` yields
 * them (lexicographic in the positions of the input).
 */
module Combinatorics {

  /** No element occurs twice in `s`. */
  predicate Distinct<T(==)>(s: seq<T>) {
    forall i, j :: 0 <= i < j < |s| ==> s[i] != s[j]
  }

  /** The set of elements of `s`. */
  function Elems<T>(s: seq<T>): set<T> {
    set x | x in s
  }

  /** Dropping the last element of a sequence without repeats removes exactly that element from its set. */
  lemma DistinctSnoc<T>(s: seq<T>)
    requires Distinct(s) && s != []
    ensures Distinct(s[..|s| - 1])
    ensures Elems(s) == Elems(s[..|s| - 1]) + {s[|s| - 1]}
    ensures s[|s| - 1] !in Elems(s[..|s| - 1])
  {
    assert s == s[..|s| - 1] + [s[|s| - 1]];
  }

  /** A sequence without repeats has as many elements as its set. */
  lemma {:induction false} DistinctCard<T>(s: seq<T>)
    requires Distinct(s)
    ensures |Elems(s)| == |s|
  {
    if s != [] {
      DistinctSnoc(s);
      DistinctCard(s[..|s| - 1]);
    }
  }

  /**
   * The elements of `s` in the order of their first occurrence, each once:
   * the key order of a dictionary built by inserting `s` left to right.
   */
  function Dedup<T(==)>(s: seq<T>): (r: seq<T>)
    ensures Distinct(r)
    ensures Elems(r) == Elems(s)
    ensures |r| <= |s|
    ensures forall i :: 0 <= i < |r| ==> r[i] in s
  {
    if s == [] then []
    else
      var p := s[..|s| - 1];
      var d := Dedup(p);
      var last := s[|s| - 1];
      assert s == p + [last];
      assert Elems(s) == Elems(p) + {last};
      if last in d then d
      else
        assert last !in Elems(d);
        d + [last]
  }

  /** The number of k-element subsets of an n-element set (Pascal's rule). */
  function Binomial(n: nat, k: nat): nat {
    if k == 0 then 1
    else if n == 0 then 0
    else Binomial(n - 1, k - 1) + Binomial(n - 1, k)
  }

  /** Prefixes `a` to each sequence of `cs`. */
  function Prepend<T>(a: T, cs: seq<seq<T>>): (r: seq<seq<T>>)
    ensures |r| == |cs|
    ensures forall i :: 0 <= i < |cs| ==> r[i] == [a] + cs[i]
  {
    seq(|cs|, i requires 0 <= i < |cs| => [a] + cs[i])
  }

  /**
   * The k-combinations of `s`: every subsequence of length `k`, those that
   * take `s[0]` first, each group in the same order recursively.
   */
  function Combinations<T>(s: seq<T>, k: nat): (r: seq<seq<T>>)
    ensures |r| == Binomial(|s|, k)
    ensures forall i :: 0 <= i < |r| ==> |r[i]| == k && Elems(r[i]) <= Elems(s)
    decreases |s|
  {
    if k == 0 then [[]]
    else if s == [] then []
    else
      var rest := s[1..];
      assert Elems(s) == {s[0]} + Elems(rest) by {
        assert s == [s[0]] + rest;
      }
      Prepend(s[0], Combinations(rest, k - 1)) + Combinations(rest, k)
  }

  /** Putting a fresh element in front keeps a sequence free of repeats and adds it to the set. */
  lemma PrependFresh<T>(a: T, c: seq<T>)
    requires Distinct(c) && a !in Elems(c)
    ensures Distinct([a] + c)
    ensures Elems([a] + c) == {a} + Elems(c)
  {
    var ac := [a] + c;
    forall i, j | 0 <= i < j < |ac|
      ensures ac[i] != ac[j]
    {
      assert ac[j] == c[j - 1];
      if i > 0 {
        assert ac[i] == c[i - 1];
      } else {
        assert ac[j] in Elems(c);
      }
    }
  }

  /** The combinations that take the head of `s`, followed by those that skip it. */
  lemma CombinationsSplit<T>(s: seq<T>, k: nat)
    requires k > 0 && s != []
    ensures Combinations(s, k) == Prepend(s[0], Combinations(s[1..], k - 1)) + Combinations(s[1..], k)
    ensures Elems(s) == {s[0]} + Elems(s[1..])
  {
    assert s == [s[0]] + s[1..];
  }

  /** Over a sequence without repeats, no combination repeats an element. */
  lemma {:induction false} CombinationsDistinct<T>(s: seq<T>, k: nat)
    requires Distinct(s)
    ensures forall i :: 0 <= i < |Combinations(s, k)| ==> Distinct(Combinations(s, k)[i])
  {
    if k != 0 && s != [] {
      var a, rest := s[0], s[1..];
      CombinationsSplit(s, k);
      assert Distinct(rest);
      CombinationsDistinct(rest, k - 1);
      CombinationsDistinct(rest, k);
      PrependDistinct(a, Combinations(rest, k - 1), rest);
      ConcatDistinct(Prepend(a, Combinations(rest, k - 1)), Combinations(rest, k));
    }
  }

  /** Prefixing an element that none of `cs` holds keeps each of them free of repeats. */
  lemma PrependDistinct<T>(a: T, cs: seq<seq<T>>, rest: seq<T>)
    requires a !in rest
    requires forall i :: 0 <= i < |cs| ==> Distinct(cs[i]) && Elems(cs[i]) <= Elems(rest)
    ensures forall i :: 0 <= i < |cs| ==> Distinct(Prepend(a, cs)[i])
  {
    forall i | 0 <= i < |cs|
      ensures Distinct(Prepend(a, cs)[i])
    {
      assert a !in Elems(cs[i]);
      PrependFresh(a, cs[i]);
    }
  }

  /** Two lists of sequences without repeats, concatenated. */
  lemma ConcatDistinct<T>(xs: seq<seq<T>>, ys: seq<seq<T>>)
    requires forall i :: 0 <= i < |xs| ==> Distinct(xs[i])
    requires forall i :: 0 <= i < |ys| ==> Distinct(ys[i])
    ensures forall i :: 0 <= i < |xs + ys| ==> Distinct((xs + ys)[i])
  {
    forall i | 0 <= i < |xs + ys|
      ensures Distinct((xs + ys)[i])
    {
      if i >= |xs| {
        assert (xs + ys)[i] == ys[i - |xs|];
      }
    }
  }

  /** No two sequences of `cs` hold the same set of elements. */
  ghost predicate UniqueSets<T>(cs: seq<seq<T>>) {
    forall i, j :: 0 <= i < j < |cs| ==> Elems(cs[i]) != Elems(cs[j])
  }

  /**
   * Over a sequence without repeats, no two combinations select the same
   * set: each subset is visited once.
   */
  lemma {:induction false} CombinationsUnique<T>(s: seq<T>, k: nat)
    requires Distinct(s)
    ensures UniqueSets(Combinations(s, k))
  {
    if k != 0 && s != [] {
      var a, rest := s[0], s[1..];
      CombinationsSplit(s, k);
      assert Distinct(rest);
      CombinationsUnique(rest, k - 1);
      CombinationsUnique(rest, k);
      PrependUnique(a, Combinations(rest, k - 1), rest);
      ConcatUnique(a, Prepend(a, Combinations(rest, k - 1)), Combinations(rest, k), rest);
    }
  }

  /** Prefixing an element that none of `cs` holds keeps their sets apart, and puts it in each. */
  lemma PrependUnique<T>(a: T, cs: seq<seq<T>>, rest: seq<T>)
    requires a !in rest
    requires forall i :: 0 <= i < |cs| ==> Elems(cs[i]) <= Elems(rest)
    requires UniqueSets(cs)
    ensures UniqueSets(Prepend(a, cs))
    ensures forall i :: 0 <= i < |cs| ==> a in Elems(Prepend(a, cs)[i])
  {
    var r := Prepend(a, cs);
    forall i | 0 <= i < |cs|
      ensures Elems(r[i]) == {a} + Elems(cs[i]) && a !in Elems(cs[i])
    {
      assert r[i] == [a] + cs[i];
    }
    forall i, j | 0 <= i < j < |cs|
      ensures Elems(r[i]) != Elems(r[j])
    {
      assert Elems(cs[i]) == Elems(r[i]) - {a};
      assert Elems(cs[j]) == Elems(r[j]) - {a};
    }
  }

  /** Sequences holding `a` followed by sequences without it, each group with distinct sets. */
  lemma ConcatUnique<T>(a: T, xs: seq<seq<T>>, ys: seq<seq<T>>, rest: seq<T>)
    requires a !in rest
    requires UniqueSets(xs) && UniqueSets(ys)
    requires forall i :: 0 <= i < |xs| ==> a in Elems(xs[i])
    requires forall j :: 0 <= j < |ys| ==> Elems(ys[j]) <= Elems(rest)
    ensures UniqueSets(xs + ys)
  {
    var r := xs + ys;
    forall i, j | 0 <= i < j < |r|
      ensures Elems(r[i]) != Elems(r[j])
    {
      if i >= |xs| {
        assert r[i] == ys[i - |xs|] && r[j] == ys[j - |xs|];
      } else if j >= |xs| {
        assert r[j] == ys[j - |xs|];
        assert a in Elems(r[i]) && a !in Elems(r[j]);
      }
    }
  }

  /** Every k-subset of the elements of a sequence without repeats is selected by some combination. */
  lemma {:induction false} CombinationsComplete<T>(s: seq<T>, k: nat, sub: set<T>)
    requires Distinct(s)
    requires sub <= Elems(s) && |sub| == k
    ensures exists i :: 0 <= i < |Combinations(s, k)| && Elems(Combinations(s, k)[i]) == sub
    decreases |s|
  {
    if k == 0 {
      assert sub == {};
      assert Elems(Combinations(s, k)[0]) == sub;
    } else {
      assert s != [] by {
        var x :| x in sub;
        assert x in Elems(s);
      }
      CombinationsSplit(s, k);
      var a, rest := s[0], s[1..];
      assert Distinct(rest);
      var i;
      if a in sub {
        i := CompleteWithHead(s, k, sub);
      } else {
        i := CompleteWithoutHead(s, k, sub);
      }
    }
  }

  /** A k-subset that holds the head of `s` is selected by a combination that takes the head. */
  lemma {:induction false} CompleteWithHead<T>(s: seq<T>, k: nat, sub: set<T>) returns (i: nat)
    requires Distinct(s) && s != [] && k > 0
    requires sub <= Elems(s) && |sub| == k && s[0] in sub
    ensures i < |Combinations(s, k)| && Elems(Combinations(s, k)[i]) == sub
    decreases |s|, 0
  {
    var a, rest := s[0], s[1..];
    var smaller := sub - {a};
    DropHead(s, sub);
    CombinationsComplete(rest, k - 1, smaller);
    var with := Combinations(rest, k - 1);
    i :| 0 <= i < |with| && Elems(with[i]) == smaller;
    HeadIndex(s, k, i);
    assert Elems([a] + with[i]) == {a} + smaller;
  }

  /** Taking the head of `s` out of a subset of its elements leaves a subset of the rest, one element smaller. */
  lemma DropHead<T>(s: seq<T>, sub: set<T>)
    requires Distinct(s) && s != []
    requires sub <= Elems(s) && s[0] in sub
    ensures Distinct(s[1..])
    ensures sub - {s[0]} <= Elems(s[1..]) && |sub - {s[0]}| == |sub| - 1
  {
    assert s == [s[0]] + s[1..];
  }

  /** The i-th combination that takes the head of `s` is the head before the i-th (k - 1)-combination of the rest. */
  lemma HeadIndex<T>(s: seq<T>, k: nat, i: nat)
    requires s != [] && k > 0 && i < |Combinations(s[1..], k - 1)|
    ensures i < |Combinations(s, k)| && Combinations(s, k)[i] == [s[0]] + Combinations(s[1..], k - 1)[i]
  {
    CombinationsSplit(s, k);
  }

  /** A k-subset without the head of `s` is selected by a combination that skips the head. */
  lemma {:induction false} CompleteWithoutHead<T>(s: seq<T>, k: nat, sub: set<T>) returns (i: nat)
    requires Distinct(s) && s != [] && k > 0
    requires sub <= Elems(s) && |sub| == k && s[0] !in sub
    ensures i < |Combinations(s, k)| && Elems(Combinations(s, k)[i]) == sub
    decreases |s|, 0
  {
    var rest := s[1..];
    SkipHead(s, sub);
    CombinationsComplete(rest, k, sub);
    var without := Combinations(rest, k);
    var j :| 0 <= j < |without| && Elems(without[j]) == sub;
    i := |Combinations(rest, k - 1)| + j;
    TailIndex(s, k, j);
  }

  /** A subset of the elements of `s` without its head is a subset of the rest. */
  lemma SkipHead<T>(s: seq<T>, sub: set<T>)
    requires Distinct(s) && s != []
    requires sub <= Elems(s) && s[0] !in sub
    ensures Distinct(s[1..]) && sub <= Elems(s[1..])
  {
    assert s == [s[0]] + s[1..];
  }

  /** The combinations that skip the head of `s` follow those that take it. */
  lemma TailIndex<T>(s: seq<T>, k: nat, j: nat)
    requires s != [] && k > 0 && j < |Combinations(s[1..], k)|
    ensures |Combinations(s[1..], k - 1)| + j < |Combinations(s, k)|
    ensures Combinations(s, k)[|Combinations(s[1..], k - 1)| + j] == Combinations(s[1..], k)[j]
  {
    CombinationsSplit(s, k);
  }
}
