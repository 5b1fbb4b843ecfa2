/** Endless runs in which every change brings the state down: they settle, and fair ones do so at the end. */
module Schedules {

  ghost predicate Changes<S>(at: nat -> S, k: nat) {
    at(k + 1) != at(k)
  }

  /** Lower in rank, or as high and with less left. */
  predicate Lower<S>(s': S, s: S, rank: S -> nat, left: S -> nat) {
    rank(s') < rank(s) || (rank(s') == rank(s) && left(s') < left(s))
  }

  ghost predicate Descends<S>(at: nat -> S, rank: S -> nat, left: S -> nat) {
    forall k: nat :: Changes(at, k) ==> Lower(at(k + 1), at(k), rank, left)
  }

  ghost predicate SettledFrom<S>(at: nat -> S, end: nat) {
    forall m: nat :: m >= end ==> at(m) == at(end)
  }

  lemma {:induction false} SameUntil<S>(at: nat -> S, n: nat, m: nat)
    requires n <= m && forall k: nat :: n <= k < m ==> !Changes(at, k)
    ensures at(m) == at(n)
    decreases m
  {
    if m > n {
      SameUntil(at, n, m - 1);
      assert !Changes(at, m - 1);
    }
  }

  lemma FirstChange<S>(at: nat -> S, n: nat, some: nat) returns (k: nat)
    requires n <= some && Changes(at, some)
    ensures n <= k && Changes(at, k) && forall i: nat :: n <= i < k ==> !Changes(at, i)
  {
    k := n;
    while !Changes(at, k)
      invariant n <= k <= some
      invariant forall i: nat :: n <= i < k ==> !Changes(at, i)
      decreases some - k
    {
      k := k + 1;
    }
  }

  /** What only goes down stops somewhere. */
  lemma {:induction false} DescentEnds<S>(at: nat -> S, rank: S -> nat, left: S -> nat, n: nat) returns (end: nat)
    requires Descends(at, rank, left)
    ensures end >= n && SettledFrom(at, end)
    decreases rank(at(n)), left(at(n))
  {
    if some: nat :| some >= n && Changes(at, some) {
      var k := FirstChange(at, n, some);
      SameUntil(at, n, k);
      end := DescentEnds(at, rank, left, k + 1);
    } else {
      end := n;
      forall m: nat | m >= end
        ensures at(m) == at(end)
      {
        SameUntil(at, end, m);
      }
    }
  }

  lemma SettledStays<S>(at: nat -> S, end: nat, m: nat)
    requires SettledFrom(at, end) && m >= end
    ensures at(m) == at(end) && !Changes(at, m)
  {
    assert at(m + 1) == at(end);
  }

  /** Thread t has a turn at n or later. */
  ghost predicate TurnAfter(turn: nat -> nat, t: nat, n: nat) {
    exists m: nat :: m >= n && turn(m) == t
  }

  /** Every thread gets its turn again and again. */
  ghost predicate FairTurns(turn: nat -> nat, threads: nat) {
    forall t: nat, n: nat :: t < threads ==> TurnAfter(turn, t, n)
  }

  /** A settled run has no thread that changes the state whenever its turn comes, if the turns are fair. */
  lemma SettledHasNoTurn<S>(at: nat -> S, turn: nat -> nat, threads: nat, end: nat, t: nat)
    requires SettledFrom(at, end) && FairTurns(turn, threads) && t < threads
    ensures !forall m: nat :: m >= end && turn(m) == t && at(m) == at(end) ==> Changes(at, m)
  {
    assert TurnAfter(turn, t, end);
    var m: nat :| m >= end && turn(m) == t;
    SettledStays(at, end, m);
  }
}
