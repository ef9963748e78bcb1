/** The ordered filter that both drawers build their monitored list with. */
module Seqs {

  /** The elements of `s` that satisfy `keep`, in their order, defined the way a loop appends them. */
  function Filter<T>(s: seq<T>, keep: T -> bool): (r: seq<T>)
    ensures |r| <= |s|
    ensures forall i :: 0 <= i < |r| ==> keep(r[i])
    decreases |s|
  {
    if s == [] then []
    else Filter(s[..|s| - 1], keep) + (if keep(s[|s| - 1]) then [s[|s| - 1]] else [])
  }

  /** Filtering keeps exactly the elements that satisfy `keep`. */
  lemma {:induction false} FilterMembership<T>(s: seq<T>, keep: T -> bool)
    ensures forall x :: x in Filter(s, keep) <==> x in s && keep(x)
    decreases |s|
  {
    if s != [] {
      var init := s[..|s| - 1];
      FilterMembership(init, keep);
      assert s == init + [s[|s| - 1]];
    }
  }

  /**
   * Filtering distributes over concatenation; with a one-element input kept
   * iff it satisfies `keep`, this pins the result to the order-preserving filter.
   */
  lemma {:induction false} FilterConcat<T>(s: seq<T>, t: seq<T>, keep: T -> bool)
    ensures Filter(s + t, keep) == Filter(s, keep) + Filter(t, keep)
    decreases |t|
  {
    if t == [] {
      assert s + t == s;
    } else {
      var init := t[..|t| - 1];
      FilterConcat(s, init, keep);
      assert (s + t)[..|s + t| - 1] == s + init;
    }
  }

  /** A one-element input is kept iff it satisfies `keep`. */
  lemma FilterSingleton<T>(x: T, keep: T -> bool)
    ensures Filter([x], keep) == if keep(x) then [x] else []
  {
    assert [x][..0] == [];
  }
}
