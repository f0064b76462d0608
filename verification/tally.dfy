/**
  collections.Counter over a list: each distinct element mapped to the
  number of times it occurs.
 */
module Tally {

  /** m counts xs: its keys are exactly the elements of xs, each mapped to
      its number of occurrences. */
  ghost predicate Counts<T(!new)>(m: map<T, nat>, xs: seq<T>) {
    && (forall k {:trigger k in m} :: k in m ==> k in xs && m[k] == multiset(xs)[k])
    && (forall k {:trigger k in xs} :: k in xs ==> k in m)
  }

  /** Counting one more element: its count goes up by one. */
  lemma CountsSnoc<T(!new)>(m: map<T, nat>, init: seq<T>, last: T)
    requires Counts(m, init)
    ensures Counts(m[last := (if last in m then m[last] else 0) + 1], init + [last])
  {
    var xs := init + [last];
    var m' := m[last := (if last in m then m[last] else 0) + 1];
    assert multiset(xs) == multiset(init) + multiset{last};
    forall k | k in m'
      ensures k in xs && m'[k] == multiset(xs)[k]
    {
      if k == last {
        assert xs[|init|] == last;
        if last !in m {
          assert last !in init;
        }
      } else {
        assert k in m;
        assert init[..] == xs[..|init|];
      }
    }
    forall k | k in xs
      ensures k in m'
    {
      if k != last {
        var i :| 0 <= i < |xs| && xs[i] == k;
        assert i < |init| && init[i] == k;
      }
    }
  }

  /** Counter(xs), built one element at a time from the front. */
  function Tally<T(==,!new)>(xs: seq<T>): (m: map<T, nat>)
    ensures Counts(m, xs)
  {
    if |xs| == 0 then map[]
    else
      var init := xs[..|xs| - 1];
      var last := xs[|xs| - 1];
      assert xs == init + [last];
      var m := Tally(init);
      CountsSnoc(m, init, last);
      m[last := (if last in m then m[last] else 0) + 1]
  }
}
