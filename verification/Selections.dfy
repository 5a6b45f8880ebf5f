/** Some elements of a list, in their order. */
module Selections {
  /** The elements of r stand in s at the given places, and are to be kept. */
  ghost predicate StandAt<T(!new)>(s: seq<T>, keep: T -> bool, places: seq<nat>, r: seq<T>) {
    |places| == |r| && forall k :: 0 <= k < |r| ==> places[k] < |s| && r[k] == s[places[k]] && keep(r[k])
  }

  ghost predicate Rising(places: seq<nat>) {
    forall j, k :: 0 <= j < k < |places| ==> places[j] < places[k]
  }

  /** No element that is to be kept stands anywhere else. */
  ghost predicate AllAt<T(!new)>(s: seq<T>, keep: T -> bool, places: seq<nat>) {
    forall i: nat :: i < |s| && keep(s[i]) ==> i in places
  }

  ghost predicate PickedAt<T(!new)>(s: seq<T>, keep: T -> bool, places: seq<nat>, r: seq<T>) {
    StandAt(s, keep, places, r) && Rising(places) && AllAt(s, keep, places)
  }

  /** `r` is what is left of `s` when exactly the elements with `keep` stay, each as often and in the order in which
      they are there. */
  ghost predicate Picks<T(!new)>(s: seq<T>, keep: T -> bool, r: seq<T>) {
    exists places :: PickedAt(s, keep, places, r)
  }

  lemma PicksNone<T(!new)>(s: seq<T>, keep: T -> bool)
    requires s == []
    ensures Picks(s, keep, [])
  {
    var none: seq<nat> := [];
    assert PickedAt(s, keep, none, []);
  }

  // ----- one element more ------------------------------------------------------------------

  /** Places in a list with one more element in front. */
  function Shifted(places: seq<nat>): (r: seq<nat>)
    ensures |r| == |places| && forall k :: 0 <= k < |r| ==> r[k] == places[k] + 1
  {
    seq(|places|, k requires 0 <= k < |places| => places[k] + 1)
  }

  lemma ShiftedPlaces(places: seq<nat>)
    requires Rising(places)
    ensures Rising(Shifted(places)) && Rising([0] + Shifted(places))
  {
    var q := [0] + Shifted(places);
    assert forall k :: 0 < k < |q| ==> q[k] == places[k - 1] + 1;
  }

  lemma ShiftedIn(places: seq<nat>, i: nat)
    requires i in places
    ensures i + 1 in Shifted(places) && i + 1 in [0] + Shifted(places)
  {
    var k :| 0 <= k < |places| && places[k] == i;
    assert Shifted(places)[k] == i + 1 && ([0] + Shifted(places))[k + 1] == i + 1;
  }

  lemma ShiftedAll<T(!new)>(s: seq<T>, keep: T -> bool, places: seq<nat>)
    requires s != [] && AllAt(s[1..], keep, places)
    ensures !keep(s[0]) ==> AllAt(s, keep, Shifted(places))
    ensures AllAt(s, keep, [0] + Shifted(places))
  {
    var q := [0] + Shifted(places);
    forall i: nat | i < |s| && keep(s[i])
      ensures i > 0 ==> i in Shifted(places)
      ensures i in q
    {
      if i > 0 {
        assert s[1..][i - 1] == s[i];
        ShiftedIn(places, i - 1);
      } else {
        assert q[0] == i;
      }
    }
  }

  lemma ShiftedStand<T(!new)>(s: seq<T>, keep: T -> bool, places: seq<nat>, r: seq<T>)
    requires s != [] && StandAt(s[1..], keep, places, r)
    ensures StandAt(s, keep, Shifted(places), r)
    ensures keep(s[0]) ==> StandAt(s, keep, [0] + Shifted(places), [s[0]] + r)
  {
    var q, r1 := [0] + Shifted(places), [s[0]] + r;
    forall k | 0 <= k < |r| ensures r[k] == s[places[k] + 1] {
      assert r[k] == s[1..][places[k]];
    }
    assert forall k :: 0 < k < |r1| ==> r1[k] == r[k - 1] && q[k] == places[k - 1] + 1;
  }

  lemma PicksDrop<T(!new)>(s: seq<T>, keep: T -> bool, r: seq<T>)
    requires s != [] && !keep(s[0]) && Picks(s[1..], keep, r)
    ensures Picks(s, keep, r)
  {
    hide StandAt, Rising, AllAt, Shifted;
    var places :| PickedAt(s[1..], keep, places, r);
    ShiftedPlaces(places);
    ShiftedAll(s, keep, places);
    ShiftedStand(s, keep, places, r);
    assert PickedAt(s, keep, Shifted(places), r);
  }

  lemma PicksTake<T(!new)>(s: seq<T>, keep: T -> bool, r: seq<T>)
    requires s != [] && keep(s[0]) && Picks(s[1..], keep, r)
    ensures Picks(s, keep, [s[0]] + r)
  {
    hide StandAt, Rising, AllAt, Shifted;
    var places :| PickedAt(s[1..], keep, places, r);
    ShiftedPlaces(places);
    ShiftedAll(s, keep, places);
    ShiftedStand(s, keep, places, r);
    assert PickedAt(s, keep, [0] + Shifted(places), [s[0]] + r);
  }

  // ----- picking twice ---------------------------------------------------------------------

  function Through(a: seq<nat>, b: seq<nat>): (r: seq<nat>)
    requires forall k :: 0 <= k < |b| ==> b[k] < |a|
    ensures |r| == |b| && forall k :: 0 <= k < |r| ==> r[k] == a[b[k]]
  {
    seq(|b|, k requires 0 <= k < |b| => a[b[k]])
  }

  lemma ThroughStand<T(!new)>(s: seq<T>, keep: T -> bool, a: seq<nat>, r: seq<T>, more: T -> bool, b: seq<nat>,
                              r1: seq<T>, both: T -> bool)
    requires StandAt(s, keep, a, r) && StandAt(r, more, b, r1)
    requires forall i :: 0 <= i < |s| ==> both(s[i]) == (keep(s[i]) && more(s[i]))
    ensures (forall k :: 0 <= k < |b| ==> b[k] < |a|) && StandAt(s, both, Through(a, b), r1)
  {
    forall k | 0 <= k < |r1|
      ensures b[k] < |a| && a[b[k]] < |s| && r1[k] == s[a[b[k]]] && both(r1[k])
    {
      assert r1[k] == r[b[k]] && r[b[k]] == s[a[b[k]]];
    }
  }

  lemma ThroughRises(a: seq<nat>, b: seq<nat>)
    requires Rising(a) && Rising(b) && forall k :: 0 <= k < |b| ==> b[k] < |a|
    ensures Rising(Through(a, b))
  {
  }

  lemma ThroughAll<T(!new)>(s: seq<T>, keep: T -> bool, a: seq<nat>, r: seq<T>, more: T -> bool, b: seq<nat>,
                            both: T -> bool)
    requires StandAt(s, keep, a, r) && AllAt(s, keep, a) && AllAt(r, more, b)
    requires forall k :: 0 <= k < |b| ==> b[k] < |a|
    requires forall i :: 0 <= i < |s| ==> both(s[i]) == (keep(s[i]) && more(s[i]))
    ensures AllAt(s, both, Through(a, b))
  {
    forall i: nat | i < |s| && both(s[i])
      ensures i in Through(a, b)
    {
      assert keep(s[i]) && i in a;
      var j :| 0 <= j < |a| && a[j] == i;
      assert r[j] == s[i] && j in b;
      var k :| 0 <= k < |b| && b[k] == j;
      assert Through(a, b)[k] == i;
    }
  }

  /** Of what is picked, some are picked again. */
  lemma PicksTwice<T(!new)>(s: seq<T>, keep: T -> bool, r: seq<T>, more: T -> bool, r1: seq<T>, both: T -> bool)
    requires Picks(s, keep, r) && Picks(r, more, r1)
    requires forall i :: 0 <= i < |s| ==> both(s[i]) == (keep(s[i]) && more(s[i]))
    ensures Picks(s, both, r1)
  {
    hide StandAt, Rising, AllAt, Through;
    var a :| PickedAt(s, keep, a, r);
    var b :| PickedAt(r, more, b, r1);
    ThroughStand(s, keep, a, r, more, b, r1, both);
    ThroughRises(a, b);
    ThroughAll(s, keep, a, r, more, b, both);
    assert PickedAt(s, both, Through(a, b), r1);
  }
}
