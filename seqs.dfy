/**
 * Sequence helpers. A queryset `.filter(...)` and a bulk `.delete()` are both
 * modelled with `Filter`: the rows that satisfy a predicate, in their order.
 */
module Seqs {

  /** The elements of `s` that satisfy `keep`, in their original order. */
  function Filter<T(!new)>(s: seq<T>, keep: T -> bool): (r: seq<T>)
    ensures |r| <= |s|
    ensures forall x :: x in r <==> x in s && keep(x)
    decreases |s|
  {
    if s == [] then []
    else
      var init := s[..|s| - 1];
      assert s == init + [s[|s| - 1]];
      Filter(init, keep) + (if keep(s[|s| - 1]) then [s[|s| - 1]] else [])
  }

  /** Filtering a concatenation filters each part. */
  lemma {:induction false} FilterAppend<T(!new)>(a: seq<T>, b: seq<T>, keep: T -> bool)
    ensures Filter(a + b, keep) == Filter(a, keep) + Filter(b, keep)
    decreases |b|
  {
    if b == [] {
      assert a + b == a;
    } else {
      var b0, last := b[..|b| - 1], b[|b| - 1];
      var tail := if keep(last) then [last] else [];
      FilterAppend(a, b0, keep);
      assert (a + b)[..|a + b| - 1] == a + b0;
      assert (a + b)[|a + b| - 1] == last;
      assert Filter(a + b, keep) == Filter(a + b0, keep) + tail;
      assert Filter(b, keep) == Filter(b0, keep) + tail;
    }
  }

  /** Filtering keeps every element when every element passes. */
  lemma {:induction false} FilterKeepsAll<T(!new)>(s: seq<T>, keep: T -> bool)
    requires forall k :: 0 <= k < |s| ==> keep(s[k])
    ensures Filter(s, keep) == s
    decreases |s|
  {
    if s != [] {
      var init := s[..|s| - 1];
      forall k | 0 <= k < |init| ensures keep(init[k]) {
        assert init[k] == s[k];
      }
      FilterKeepsAll(init, keep);
      assert keep(s[|s| - 1]);
      assert Filter(s, keep) == Filter(init, keep) + [s[|s| - 1]];
      assert s == init + [s[|s| - 1]];
    }
  }

  /**
   * Filtering with a weaker predicate first and a stronger one second is the
   * same as filtering with the stronger one alone (deleting rows never changes
   * the rows a narrower query selects).
   */
  lemma {:induction false} FilterNarrower<T(!new)>(s: seq<T>, wide: T -> bool, narrow: T -> bool)
    requires forall x :: narrow(x) ==> wide(x)
    ensures Filter(Filter(s, wide), narrow) == Filter(s, narrow)
    decreases |s|
  {
    if s != [] {
      var init := s[..|s| - 1];
      var last := s[|s| - 1];
      FilterNarrower(init, wide, narrow);
      assert Filter(s, narrow) == Filter(init, narrow) + (if narrow(last) then [last] else []);
      if wide(last) {
        assert Filter(s, wide) == Filter(init, wide) + [last];
        FilterAppend(Filter(init, wide), [last], narrow);
        assert [last][..0] == [];
        assert Filter([last], narrow) == Filter([], narrow) + (if narrow(last) then [last] else []);
      } else {
        assert Filter(s, wide) == Filter(init, wide);
      }
    }
  }

  /** Two filters commute. */
  lemma {:induction false} FilterCommute<T(!new)>(s: seq<T>, p: T -> bool, q: T -> bool)
    ensures Filter(Filter(s, p), q) == Filter(Filter(s, q), p)
    decreases |s|
  {
    if s != [] {
      var init := s[..|s| - 1];
      var last := s[|s| - 1];
      FilterCommute(init, p, q);
      var lastP: seq<T> := if p(last) then [last] else [];
      var lastQ: seq<T> := if q(last) then [last] else [];
      FilterAppend(Filter(init, p), lastP, q);
      FilterAppend(Filter(init, q), lastQ, p);
      assert Filter(lastP, q) == Filter(lastQ, p) by {
        if p(last) {
          assert Filter(lastP, q) == Filter([], q) + (if q(last) then [last] else []);
        }
        if q(last) {
          assert Filter(lastQ, p) == Filter([], p) + (if p(last) then [last] else []);
        }
      }
    }
  }

  /**
   * Removing the one element that fails `keep` from a sequence is the same
   * as cutting it out at its position.
   */
  lemma {:induction false} FilterDropsOne<T(!new)>(s: seq<T>, pos: nat, keep: T -> bool)
    requires pos < |s|
    requires forall k :: 0 <= k < |s| ==> (keep(s[k]) <==> k != pos)
    ensures Filter(s, keep) == s[..pos] + s[pos + 1..]
  {
    var before, after, gone := s[..pos], s[pos + 1..], s[pos];
    assert s == before + [gone] + after;
    forall k | 0 <= k < |before| ensures keep(before[k]) {
      assert before[k] == s[k];
    }
    forall k | 0 <= k < |after| ensures keep(after[k]) {
      assert after[k] == s[pos + 1 + k];
    }
    FilterKeepsAll(before, keep);
    FilterKeepsAll(after, keep);
    assert !keep(gone);
    assert Filter([gone], keep) == [] by {
      assert [gone][..0] == [];
    }
    FilterAppend(before + [gone], after, keep);
    assert Filter(s, keep) == Filter(before + [gone], keep) + after;
    FilterAppend(before, [gone], keep);
    assert Filter(before + [gone], keep) == before;
  }
}
