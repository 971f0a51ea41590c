/** Vessels of the ferry terminal, the records that track a departed vessel,
    and the selection rules the terminal applies to the vessels at dock. */
module Vessels {

  /** A ferry. The terminal creates vessel i under the name `str(i)`; the model
      keeps the number itself as the name. `usedCapacity` is the number of
      vehicle slots reserved on the vessel since it last left. */
  datatype Vessel = Vessel(name: nat, usedCapacity: nat)

  /** A vessel that has departed and whose return process is waiting out
      `idleTime` (two crossings plus the disembark delays) before it docks again. */
  datatype Trip = Trip(vessel: nat, idleTime: real)

  /** The names 0, 1, ..., n-1 in increasing order. */
  function Range(n: nat): (r: seq<nat>)
    ensures |r| == n
    ensures forall i :: 0 <= i < n ==> r[i] == i
  {
    if n == 0 then [] else Range(n - 1) + [n - 1]
  }

  /** Every name below n occurs exactly once in Range(n), and no other name occurs. */
  lemma {:induction false} RangeCount(n: nat, v: nat)
    ensures multiset(Range(n))[v] == if v < n then 1 else 0
  {
    if n > 0 {
      var last: nat := n - 1;
      RangeCount(last, v);
      assert Range(n) == Range(last) + [last];
      assert multiset(Range(n))[v] == multiset(Range(last))[v] + multiset([last])[v];
    }
  }

  /** The fleet `range(0, n)` creates: vessel i is named i and starts with `initialLoad`. */
  function Fleet(n: nat, initialLoad: nat): (f: seq<Vessel>)
    ensures |f| == n
    ensures forall i :: 0 <= i < n ==> f[i].name == i && f[i].usedCapacity == initialLoad
  {
    seq(n, i requires 0 <= i < n => Vessel(i, initialLoad))
  }

  /** The names of the vessels of some trips, in trip order. */
  function Names(trips: seq<Trip>): seq<nat>
  {
    seq(|trips|, k requires 0 <= k < |trips| => trips[k].vessel)
  }

  lemma NamesAppend(trips: seq<Trip>, t: Trip)
    ensures Names(trips + [t]) == Names(trips) + [t.vessel]
  {
  }

  lemma NamesRemove(trips: seq<Trip>, k: nat)
    requires k < |trips|
    ensures Names(trips[..k] + trips[k + 1..]) == Names(trips)[..k] + Names(trips)[k + 1..]
    ensures Names(trips)[k] == trips[k].vessel
  {
  }

  /** Taking out the element at position k removes exactly one copy of it. */
  lemma MultisetRemove(xs: seq<nat>, k: nat)
    requires k < |xs|
    ensures multiset(xs[..k] + xs[k + 1..]) + multiset{xs[k]} == multiset(xs)
  {
    assert xs == xs[..k] + [xs[k]] + xs[k + 1..];
  }

  /** Every name in `names` names one of n vessels. */
  predicate Bounded(names: seq<nat>, n: nat)
  {
    forall i :: 0 <= i < |names| ==> names[i] < n
  }

  /** The loads of the vessels named in `names`, in the same order. */
  function Loads(fleet: seq<Vessel>, names: seq<nat>): (loads: seq<nat>)
    requires Bounded(names, |fleet|)
    ensures |loads| == |names|
  {
    seq(|names|, i requires 0 <= i < |names| => fleet[names[i]].usedCapacity)
  }

  /** The largest element, as Python's `max` over a non-empty list. */
  function Max(xs: seq<nat>): (m: nat)
    requires |xs| > 0
    ensures m in xs
    ensures forall i :: 0 <= i < |xs| ==> xs[i] <= m
  {
    if |xs| == 1 then xs[0]
    else
      var rest := Max(xs[1..]);
      if xs[0] >= rest then xs[0] else rest
  }

  /** The first position holding x: the scan a filtered `get` makes over the
      store's items, stopping at the first item the filter accepts. */
  function FirstIndexOf(xs: seq<nat>, x: nat): (i: nat)
    requires x in xs
    ensures i < |xs| && xs[i] == x
    ensures forall k :: 0 <= k < i ==> xs[k] != x
  {
    if xs[0] == x then 0
    else
      assert x in xs[1..] by {
        var k :| 0 <= k < |xs| && xs[k] == x;
        assert xs[1..][k - 1] == x;
      }
      1 + FirstIndexOf(xs[1..], x)
  }

  /** The position of the vessel that departs: the first whose load equals the
      maximum load. */
  function Fullest(loads: seq<nat>): (j: nat)
    requires |loads| > 0
    ensures j < |loads|
    ensures forall i :: 0 <= i < |loads| ==> loads[i] <= loads[j]
    ensures forall i :: 0 <= i < j ==> loads[i] < loads[j]
  {
    FirstIndexOf(loads, Max(loads))
  }

  /** The names in `dock` whose vessel still has a free slot, in dock order:
      the list an embark attempt chooses from. */
  function Eligible(fleet: seq<Vessel>, dock: seq<nat>, capacity: nat): (r: seq<nat>)
    requires Bounded(dock, |fleet|)
    ensures |r| <= |dock|
    ensures forall v :: v in r ==> v in dock && fleet[v].usedCapacity < capacity
    ensures forall v :: v in dock && fleet[v].usedCapacity < capacity ==> v in r
  {
    if |dock| == 0 then []
    else
      var rest := Eligible(fleet, dock[1..], capacity);
      assert forall v :: v in dock ==> v == dock[0] || v in dock[1..];
      if fleet[dock[0]].usedCapacity < capacity then [dock[0]] + rest else rest
  }

  /** With every vessel at dock full, the eligible list is empty. */
  lemma {:induction false} NoneEligible(fleet: seq<Vessel>, dock: seq<nat>, capacity: nat)
    requires Bounded(dock, |fleet|)
    requires forall i :: 0 <= i < |dock| ==> fleet[dock[i]].usedCapacity >= capacity
    ensures Eligible(fleet, dock, capacity) == []
  {
    if |dock| > 0 {
      NoneEligible(fleet, dock[1..], capacity);
    }
  }

  /** The sum of some delays. */
  function Sum(xs: seq<real>): real
  {
    if |xs| == 0 then 0.0 else xs[0] + Sum(xs[1..])
  }

  /** Appending one delay adds it to the sum. */
  lemma {:induction false} SumAppend(xs: seq<real>, x: real)
    ensures Sum(xs + [x]) == Sum(xs) + x
  {
    if |xs| > 0 {
      assert (xs + [x])[1..] == xs[1..] + [x];
      SumAppend(xs[1..], x);
    }
  }

  /** Exponential draws are positive, so the disembark part of an idle time is
      never negative. */
  lemma {:induction false} SumNonNegative(xs: seq<real>)
    requires forall i :: 0 <= i < |xs| ==> xs[i] >= 0.0
    ensures Sum(xs) >= 0.0
  {
    if |xs| > 0 {
      SumNonNegative(xs[1..]);
    }
  }
}
