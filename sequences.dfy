/** Filtering and mapping of sequences, the two shapes of `foreach` loop (and
    of `array_filter`/`array_map`) the extractor uses, together with the
    facts about them that the payload properties rest on. */
module Sequences {

  /** The elements of `s` that satisfy `p`, in their order in `s`: a `foreach`
      that appends the elements it does not `continue` past. */
  function Filter<T>(p: T -> bool, s: seq<T>): (r: seq<T>)
    ensures |r| <= |s|
    ensures forall i | 0 <= i < |r| :: p(r[i])
    decreases |s|
  {
    if |s| == 0 then []
    else Filter(p, s[..|s| - 1]) + (if p(s[|s| - 1]) then [s[|s| - 1]] else [])
  }

  /** `f` applied to every element of `s`, in order (PHP's `array_map`). */
  function Map<T, U>(f: T -> U, s: seq<T>): (r: seq<U>)
    ensures |r| == |s|
    ensures forall i | 0 <= i < |s| :: r[i] == f(s[i])
  {
    seq(|s|, i requires 0 <= i < |s| => f(s[i]))
  }

  /** The positions in `s` whose element satisfies `p`, in increasing order. */
  function Selected<T>(p: T -> bool, s: seq<T>): (r: seq<nat>)
    decreases |s|
  {
    if |s| == 0 then []
    else Selected(p, s[..|s| - 1]) + (if p(s[|s| - 1]) then [|s| - 1] else [])
  }

  ghost predicate StrictlyIncreasing(r: seq<nat>) {
    forall i, j | 0 <= i < j < |r| :: r[i] < r[j]
  }

  /** `Filter` keeps exactly the elements that satisfy `p` and keeps them in
      order: its k-th element is the element at the k-th selected position,
      the selected positions increase, and every position whose element
      satisfies `p` is selected. */
  lemma {:induction false} FilterIsSelection<T>(p: T -> bool, s: seq<T>)
    ensures |Selected(p, s)| == |Filter(p, s)|
    ensures StrictlyIncreasing(Selected(p, s))
    ensures forall k | 0 <= k < |Selected(p, s)| ::
              Selected(p, s)[k] < |s| && Filter(p, s)[k] == s[Selected(p, s)[k]]
    ensures forall i | 0 <= i < |s| && p(s[i]) :: i in Selected(p, s)
    decreases |s|
  {
    if |s| > 0 {
      var n := |s| - 1;
      var init := s[..n];
      FilterIsSelection(p, init);
      var sel, fil := Selected(p, init), Filter(p, init);
      var tailSel: seq<nat>, tailFil := if p(s[n]) then [n] else [], if p(s[n]) then [s[n]] else [];
      assert Selected(p, s) == sel + tailSel;
      assert Filter(p, s) == fil + tailFil;
      forall k | 0 <= k < |sel + tailSel|
        ensures (sel + tailSel)[k] < |s| && (fil + tailFil)[k] == s[(sel + tailSel)[k]]
      {
        if k < |sel| {
          assert init[sel[k]] == s[sel[k]];
        }
      }
      forall i | 0 <= i < |s| && p(s[i]) ensures i in sel + tailSel {
        if i < n {
          assert init[i] == s[i];
          assert i in sel;
        }
      }
    }
  }

  /** Nothing is kept exactly when no element satisfies `p`. */
  lemma {:induction false} FilterEmpty<T>(p: T -> bool, s: seq<T>)
    ensures Filter(p, s) == [] <==> forall i | 0 <= i < |s| :: !p(s[i])
    decreases |s|
  {
    if |s| > 0 {
      var init := s[..|s| - 1];
      FilterEmpty(p, init);
      if Filter(p, s) == [] {
        forall i | 0 <= i < |s| ensures !p(s[i]) {
          if i < |s| - 1 {
            assert init[i] == s[i];
          }
        }
      }
    }
  }

  /** Filtering distributes over concatenation. */
  lemma {:induction false} FilterConcat<T>(p: T -> bool, a: seq<T>, b: seq<T>)
    ensures Filter(p, a + b) == Filter(p, a) + Filter(p, b)
    decreases |b|
  {
    if |b| > 0 {
      var b' := b[..|b| - 1];
      assert (a + b)[..|a + b| - 1] == a + b';
      FilterConcat(p, a, b');
    } else {
      assert a + b == a;
    }
  }

  /** Splitting `s` by `p` and by its negation loses and duplicates nothing. */
  lemma {:induction false} FilterPartition<T>(p: T -> bool, q: T -> bool, s: seq<T>)
    requires forall x :: q(x) == !p(x)
    ensures multiset(Filter(p, s)) + multiset(Filter(q, s)) == multiset(s)
    decreases |s|
  {
    if |s| > 0 {
      var init := s[..|s| - 1];
      FilterPartition(p, q, init);
      assert s == init + [s[|s| - 1]];
    }
  }

  /** Filtering a sequence whose elements all satisfy `p` changes nothing. */
  lemma {:induction false} FilterAll<T>(p: T -> bool, s: seq<T>)
    requires forall i | 0 <= i < |s| :: p(s[i])
    ensures Filter(p, s) == s
    decreases |s|
  {
    if |s| > 0 {
      FilterAll(p, s[..|s| - 1]);
      assert s == s[..|s| - 1] + [s[|s| - 1]];
    }
  }

  /** Filtering keeps every copy of an element that satisfies `p` and no
      copy of one that does not. */
  lemma {:induction false} FilterCount<T>(p: T -> bool, s: seq<T>, x: T)
    ensures multiset(Filter(p, s))[x] == if p(x) then multiset(s)[x] else 0
    decreases |s|
  {
    if |s| > 0 {
      var init := s[..|s| - 1];
      FilterCount(p, init, x);
      assert s == init + [s[|s| - 1]];
    }
  }
}
