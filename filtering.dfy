/** `Array.prototype.filter` and what it promises: the elements a callback
    accepts, in their original order, each as often as it occurs.  The
    reference definition lists the accepted positions; `Selects` says that a
    sequence is exactly the elements at those positions. */
module Filtering {

  /** `Array.prototype.filter`: the elements `keep` accepts, in order. */
  function Filter<T>(s: seq<T>, keep: T -> bool): seq<T> {
    if s == [] then [] else (if keep(s[0]) then [s[0]] else []) + Filter(s[1..], keep)
  }

  /** Reference definition: the positions, from `from` on, of the elements
      `keep` accepts. */
  function AcceptedPositions<T>(s: seq<T>, keep: T -> bool, from: nat): (r: seq<nat>)
    requires from <= |s|
    ensures forall i :: 0 <= i < |r| ==> from <= r[i] < |s|
    decreases |s| - from
  {
    if from == |s| then []
    else (if keep(s[from]) then [from] else []) + AcceptedPositions(s, keep, from + 1)
  }

  /** Every accepted position holds an element `keep` accepts. */
  lemma {:induction false} AcceptedPositionsAccepted<T>(s: seq<T>, keep: T -> bool, from: nat)
    requires from <= |s|
    ensures forall i :: 0 <= i < |AcceptedPositions(s, keep, from)| ==> keep(s[AcceptedPositions(s, keep, from)[i]])
    decreases |s| - from
  {
    if from < |s| {
      AcceptedPositionsAccepted(s, keep, from + 1);
      var later := AcceptedPositions(s, keep, from + 1);
      var r := AcceptedPositions(s, keep, from);
      if keep(s[from]) {
        assert r == [from] + later;
        forall i | 0 <= i < |r|
          ensures keep(s[r[i]])
        {
          if i > 0 {
            assert r[i] == later[i - 1];
            assert keep(s[later[i - 1]]);
          } else {
            assert r[i] == from;
          }
        }
      } else {
        assert r == later;
      }
    }
  }

  /** The accepted positions are strictly increasing. */
  lemma {:induction false} AcceptedPositionsIncreasing<T>(s: seq<T>, keep: T -> bool, from: nat)
    requires from <= |s|
    ensures forall i, j :: 0 <= i < j < |AcceptedPositions(s, keep, from)| ==>
      AcceptedPositions(s, keep, from)[i] < AcceptedPositions(s, keep, from)[j]
    decreases |s| - from
  {
    if from < |s| {
      AcceptedPositionsIncreasing(s, keep, from + 1);
      var later := AcceptedPositions(s, keep, from + 1);
      var r := AcceptedPositions(s, keep, from);
      if keep(s[from]) {
        assert r == [from] + later;
        forall i, j | 0 <= i < j < |r|
          ensures r[i] < r[j]
        {
          assert r[j] == later[j - 1];
          assert from < later[j - 1];
          if i > 0 {
            assert r[i] == later[i - 1];
            assert later[i - 1] < later[j - 1];
          }
        }
      } else {
        assert r == later;
      }
    }
  }

  /** Every position from `from` on that `keep` accepts is listed. */
  lemma {:induction false} AcceptedPositionsComplete<T>(s: seq<T>, keep: T -> bool, from: nat)
    requires from <= |s|
    ensures forall k :: from <= k < |s| && keep(s[k]) ==> k in AcceptedPositions(s, keep, from)
    decreases |s| - from
  {
    if from < |s| {
      AcceptedPositionsComplete(s, keep, from + 1);
      var later := AcceptedPositions(s, keep, from + 1);
      var r := AcceptedPositions(s, keep, from);
      forall k | from <= k < |s| && keep(s[k])
        ensures k in r
      {
        if k == from {
          assert r == [from] + later;
          assert r[0] == k;
        } else {
          assert k in later;
          assert r == (if keep(s[from]) then [from] else []) + later;
        }
      }
    }
  }

  /** The filter gives exactly the elements at the accepted positions, in
      order: nothing is reordered, repeated or merged. */
  lemma {:induction false} FilterInOrder<T>(s: seq<T>, keep: T -> bool, from: nat)
    requires from <= |s|
    ensures var kept := Filter(s[from..], keep);
      var pos := AcceptedPositions(s, keep, from);
      |kept| == |pos| && forall i :: 0 <= i < |kept| ==> kept[i] == s[pos[i]]
    decreases |s| - from
  {
    if from < |s| {
      FilterInOrder(s, keep, from + 1);
      var t := s[from..];
      assert t[1..] == s[from + 1..] && t[0] == s[from];
      var rest := Filter(s[from + 1..], keep);
      var later := AcceptedPositions(s, keep, from + 1);
      if keep(s[from]) {
        var kept := [s[from]] + rest;
        var pos := [from] + later;
        assert Filter(t, keep) == kept && AcceptedPositions(s, keep, from) == pos;
        forall i | 0 <= i < |kept|
          ensures kept[i] == s[pos[i]]
        {
          if i > 0 {
            assert kept[i] == rest[i - 1] && pos[i] == later[i - 1];
          }
        }
      } else {
        assert Filter(t, keep) == rest && AcceptedPositions(s, keep, from) == later;
      }
    }
  }

  /** `r` holds, in order, the elements of `s` at the positions `keep`
      accepts (positions that `AcceptedPositionsAccepted`,
      `AcceptedPositionsIncreasing` and `AcceptedPositionsComplete`
      describe): nothing is dropped, reordered, repeated or merged. */
  ghost predicate Selects<T>(r: seq<T>, s: seq<T>, keep: T -> bool) {
    && |r| == |AcceptedPositions(s, keep, 0)|
    && forall i :: 0 <= i < |r| ==> r[i] == s[AcceptedPositions(s, keep, 0)[i]]
  }

  /** The filter selects the accepted elements. */
  lemma FilterSelects<T>(s: seq<T>, keep: T -> bool)
    ensures Selects(Filter(s, keep), s, keep)
  {
    FilterInOrder(s, keep, 0);
    assert s[0..] == s;
  }

  /** Every kept element is accepted and comes from `s`; every accepted
      element of `s` is kept; nothing is added. */
  lemma {:induction false} FilterMembers<T>(s: seq<T>, keep: T -> bool)
    ensures |Filter(s, keep)| <= |s|
    ensures forall i :: 0 <= i < |Filter(s, keep)| ==> keep(Filter(s, keep)[i]) && Filter(s, keep)[i] in s
    ensures forall k :: 0 <= k < |s| && keep(s[k]) ==> s[k] in Filter(s, keep)
  {
    if s != [] {
      FilterMembers(s[1..], keep);
      var rest := Filter(s[1..], keep);
      var r := Filter(s, keep);
      assert r == (if keep(s[0]) then [s[0]] else []) + rest;
      forall i | 0 <= i < |r|
        ensures keep(r[i]) && r[i] in s
      {
        if keep(s[0]) && i == 0 {
          assert r[i] == s[0];
        } else {
          var j := if keep(s[0]) then i - 1 else i;
          assert r[i] == rest[j];
          assert rest[j] in s[1..];
        }
      }
      forall k | 0 <= k < |s| && keep(s[k])
        ensures s[k] in r
      {
        if k > 0 {
          assert s[k] == s[1..][k - 1];
          assert s[k] in rest;
        }
      }
    }
  }

  /** Filtering a concatenation filters each part. */
  lemma {:induction false} FilterAppend<T>(a: seq<T>, b: seq<T>, keep: T -> bool)
    ensures Filter(a + b, keep) == Filter(a, keep) + Filter(b, keep)
  {
    if a != [] {
      FilterAppend(a[1..], b, keep);
      assert (a + b)[1..] == a[1..] + b;
      assert (a + b)[0] == a[0];
    } else {
      assert a + b == b;
    }
  }

  /** A sequence whose every element is accepted is kept whole. */
  lemma {:induction false} FilterAllAccepted<T>(s: seq<T>, keep: T -> bool)
    requires forall i :: 0 <= i < |s| ==> keep(s[i])
    ensures Filter(s, keep) == s
  {
    if s != [] {
      assert forall i :: 0 <= i < |s[1..]| ==> s[1..][i] == s[i + 1];
      FilterAllAccepted(s[1..], keep);
      assert [s[0]] + s[1..] == s;
    }
  }

  /** A sequence with no accepted element is dropped whole. */
  lemma {:induction false} FilterNoneAccepted<T>(s: seq<T>, keep: T -> bool)
    requires forall i :: 0 <= i < |s| ==> !keep(s[i])
    ensures Filter(s, keep) == []
  {
    if s != [] {
      assert forall i :: 0 <= i < |s[1..]| ==> s[1..][i] == s[i + 1];
      FilterNoneAccepted(s[1..], keep);
    }
  }
}
