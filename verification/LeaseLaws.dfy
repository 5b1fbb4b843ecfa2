/** What holds in every interleaving of leases and file-manager requests. */
module LeaseLaws {
  import opened Basics
  import opened Paths
  import opened MountSession
  import opened Leases

  // ---------------------------------------------------------------- who holds what

  predicate HoldsOuter(pc: Pc) {
    pc.OuterLocked? || pc.BothLocked? || pc.SlowLooked? || pc.SlowUnlock? || pc.RelOuter? || pc.RelBoth?
    || pc.RelDone? || pc.FileLocked? || pc.Serving? || pc.Closing?
  }

  predicate HoldsInner(pc: Pc) {
    pc.FastLocked? || pc.FastLooked? || pc.BothLocked? || pc.SlowLooked? || pc.RelBoth? || pc.RelDone?
  }

  /** The thread has counted itself into refs and not yet out again. */
  predicate HoldsRef(pc: Pc) {
    pc == FastLooked(true) || pc == SlowLooked(true) || pc == SlowUnlock(true)
    || pc.Holding? || pc.RelOuter? || pc.RelBoth?
  }

  /** The next step of the thread is to lock outer. */
  predicate WantsOuter(th: Thread) {
    th.pc.WantOuter? || th.pc.Holding? || (th.pc.Start? && th.role == FileManager)
  }

  function RefCount(threads: seq<Thread>, key: string): nat
    decreases |threads|
  {
    if threads == [] then 0
    else (if threads[0].key == key && HoldsRef(threads[0].pc) then 1 else 0) + RefCount(threads[1..], key)
  }

  ghost predicate Locks(s: State) {
    && (s.outer.Some? ==> s.outer.value < |s.threads|)
    && (s.inner.Some? ==> s.inner.value < |s.threads|)
    && (forall t: nat :: t < |s.threads| ==> (HoldsOuter(s.threads[t].pc) <==> s.outer == Some(t)))
    && (forall t: nat :: t < |s.threads| ==> (HoldsInner(s.threads[t].pc) <==> s.inner == Some(t)))
  }

  ghost predicate Refs(s: State) {
    && (forall k :: k in s.active ==> s.active[k].refs >= 1)
    && (forall k :: RefCount(s.threads, k) == if k in s.active then s.active[k].refs else 0)
  }

  lemma {:induction false} RefCountUpdate(threads: seq<Thread>, t: nat, th: Thread, key: string)
    requires t < |threads|
    ensures RefCount(threads[t := th], key) + (if threads[t].key == key && HoldsRef(threads[t].pc) then 1 else 0)
         == RefCount(threads, key) + (if th.key == key && HoldsRef(th.pc) then 1 else 0)
    decreases t
  {
    if t == 0 {
      assert threads[t := th][1..] == threads[1..];
    } else {
      assert threads[t := th][1..] == threads[1..][t - 1 := th];
      RefCountUpdate(threads[1..], t - 1, th, key);
    }
  }

  lemma {:induction false} RefCountPositive(threads: seq<Thread>, t: nat)
    requires t < |threads| && HoldsRef(threads[t].pc)
    ensures RefCount(threads, threads[t].key) >= 1
    decreases t
  {
    if t > 0 {
      RefCountPositive(threads[1..], t - 1);
    }
  }

  /** s' is s after thread t moved to pc. */
  ghost predicate Moved(s: State, s': State, t: nat, pc: Pc) {
    t < |s.threads| && s'.threads == s.threads[t := s.threads[t].(pc := pc)]
  }

  /** A lock was left alone, taken when free, or given back by its holder. */
  predicate LockMove(l: Option<nat>, l': Option<nat>, t: nat, holds: bool) {
    if holds then l' == Some(t) && (l == None || l == Some(t)) else l' == if l == Some(t) then None else l
  }

  lemma MoveKeepsLocks(s: State, s': State, t: nat, pc: Pc)
    requires Locks(s) && Moved(s, s', t, pc)
    requires LockMove(s.outer, s'.outer, t, HoldsOuter(pc)) && LockMove(s.inner, s'.inner, t, HoldsInner(pc))
    ensures Locks(s')
  {
  }

  /** Thread t stays, or moves and treats the two locks properly. */
  ghost predicate ProperMove(s: State, s': State, t: nat) {
    s' == s || (t < |s.threads| && t < |s'.threads| && var pc := s'.threads[t].pc;
      && Moved(s, s', t, pc)
      && LockMove(s.outer, s'.outer, t, HoldsOuter(pc)) && LockMove(s.inner, s'.inner, t, HoldsInner(pc)))
  }

  predicate Acquiring(pc: Pc) {
    pc.Start? || pc.FastLocked? || pc.FastLooked? || pc.WantOuter? || pc.OuterLocked? || pc.BothLocked?
    || pc.SlowLooked?
  }

  lemma LookMoves(s: State, t: nat, a: Attempt)
    requires Locks(s) && t < |s.threads|
    requires var pc := s.threads[t].pc; pc.Start? || pc.FastLocked? || pc.BothLocked?
    ensures ProperMove(s, StepWith(s, t, a), t)
  {
  }

  lemma AcquireMoves(s: State, t: nat, a: Attempt)
    requires Locks(s) && t < |s.threads| && Acquiring(s.threads[t].pc)
    ensures ProperMove(s, StepWith(s, t, a), t)
  {
    var pc := s.threads[t].pc;
    if pc.Start? || pc.FastLocked? || pc.BothLocked? {
      LookMoves(s, t, a);
    }
  }

  lemma ReleaseMoves(s: State, t: nat, a: Attempt)
    requires Locks(s) && t < |s.threads| && !Acquiring(s.threads[t].pc) && !s.threads[t].pc.Closing?
    ensures ProperMove(s, StepWith(s, t, a), t)
  {
  }

  /** An umount touches the table only. */
  lemma RemoveFrame(s: State, p: Path)
    ensures var s' := RemoveMount(s, p); s' == s.(table := s'.table, umounts := s'.umounts)
  {
  }

  lemma CloseMoves(s: State, t: nat, a: Attempt)
    requires Locks(s) && t < |s.threads| && s.threads[t].pc.Closing?
    ensures var s' := StepWith(s, t, a);
      ProperMove(s, s', t) && s'.active == s.active && !HoldsRef(s'.threads[t].pc)
  {
    var left := s.threads[t].pc.left;
    if left != [] {
      RemoveFrame(s, Last(left));
    }
  }

  lemma StepMoves(s: State, t: nat, a: Attempt)
    requires Locks(s)
    ensures ProperMove(s, StepWith(s, t, a), t)
  {
    if t < |s.threads| {
      if Acquiring(s.threads[t].pc) {
        AcquireMoves(s, t, a);
      } else if s.threads[t].pc.Closing? {
        CloseMoves(s, t, a);
      } else {
        ReleaseMoves(s, t, a);
      }
    }
  }

  lemma StepLocks(s: State, t: nat, a: Attempt)
    requires Locks(s)
    ensures Locks(StepWith(s, t, a))
  {
    StepMoves(s, t, a);
    var s' := StepWith(s, t, a);
    if s' != s {
      MoveKeepsLocks(s, s', t, s'.threads[t].pc);
    }
  }

  function RefsOf(active: map<string, Lease>, key: string): nat {
    if key in active then active[key].refs else 0
  }

  lemma MoveKeepsRefs(s: State, s': State, t: nat, pc: Pc)
    requires Refs(s) && Moved(s, s', t, pc)
    requires forall k :: k in s'.active ==> s'.active[k].refs >= 1
    requires forall k :: k != s.threads[t].key ==> RefsOf(s'.active, k) == RefsOf(s.active, k)
    requires var key := s.threads[t].key;
      RefsOf(s'.active, key) + (if HoldsRef(s.threads[t].pc) then 1 else 0)
      == RefsOf(s.active, key) + (if HoldsRef(pc) then 1 else 0)
    ensures Refs(s')
  {
    var th := s'.threads[t];
    forall k
      ensures RefCount(s'.threads, k) == if k in s'.active then s'.active[k].refs else 0
    {
      RefCountUpdate(s.threads, t, th, k);
      assert RefCount(s.threads, k) == RefsOf(s.active, k);
    }
  }

  lemma LookRefs(s: State, t: nat, a: Attempt)
    requires Locks(s) && Refs(s) && t < |s.threads| && (s.threads[t].pc.FastLocked? || s.threads[t].pc.BothLocked?)
    ensures Refs(StepWith(s, t, a))
  {
    var s' := StepWith(s, t, a);
    MoveKeepsRefs(s, s', t, s'.threads[t].pc);
  }

  lemma DropRefs(s: State, t: nat, a: Attempt)
    requires Locks(s) && Refs(s) && t < |s.threads| && s.threads[t].pc.RelBoth?
    ensures Refs(StepWith(s, t, a))
  {
    var s' := StepWith(s, t, a);
    RefCountPositive(s.threads, t);
    MoveKeepsRefs(s, s', t, s'.threads[t].pc);
  }

  /** Thread t keeps its references, and so do the leases. */
  ghost predicate SameRefs(s: State, s': State, t: nat)
    requires t < |s.threads|
  {
    || s' == s
    || (t < |s'.threads| && s'.active == s.active && (HoldsRef(s'.threads[t].pc) <==> HoldsRef(s.threads[t].pc)))
  }

  lemma AcquireRefs(s: State, t: nat, a: Attempt)
    requires t < |s.threads| && Acquiring(s.threads[t].pc)
    requires !s.threads[t].pc.FastLocked? && !s.threads[t].pc.BothLocked?
    ensures SameRefs(s, StepWith(s, t, a), t)
  {
  }

  lemma ReleaseRefs(s: State, t: nat, a: Attempt)
    requires t < |s.threads|
    requires var pc := s.threads[t].pc; !Acquiring(pc) && !pc.RelBoth? && !pc.Closing?
    ensures SameRefs(s, StepWith(s, t, a), t)
  {
  }

  lemma OtherRefs(s: State, t: nat, a: Attempt)
    requires t < |s.threads|
    requires var pc := s.threads[t].pc; !pc.FastLocked? && !pc.BothLocked? && !pc.RelBoth? && !pc.Closing?
    ensures SameRefs(s, StepWith(s, t, a), t)
  {
    if Acquiring(s.threads[t].pc) {
      AcquireRefs(s, t, a);
    } else {
      ReleaseRefs(s, t, a);
    }
  }

  lemma StepRefs(s: State, t: nat, a: Attempt)
    requires Locks(s) && Refs(s)
    ensures Refs(StepWith(s, t, a))
  {
    if t < |s.threads| {
      var pc := s.threads[t].pc;
      if pc.FastLocked? || pc.BothLocked? {
        LookRefs(s, t, a);
      } else if pc.RelBoth? {
        DropRefs(s, t, a);
      } else {
        StepMoves(s, t, a);
        if pc.Closing? {
          CloseMoves(s, t, a);
        } else {
          OtherRefs(s, t, a);
        }
        var s' := StepWith(s, t, a);
        if s' != s {
          MoveKeepsRefs(s, s', t, s'.threads[t].pc);
        }
      }
    }
  }
}
