/** All that a mounted server consists of stays mounted while somebody holds its root. */
module LeaseHeld {
  import opened Basics
  import opened Paths
  import opened MountSession
  import opened Leases
  import opened LeaseLaws
  import opened LeaseMounts
  import opened LeaseRuns

  // ---------------------------------------------------------------- one lease

  /** While session g serves the lease of key, its mounts are these. */
  ghost predicate LeaseFrom(s: State, key: string, g: nat, made: seq<Path>) {
    g <= s.sessions && (key in s.active && s.active[key].session == g ==> s.active[key].made == made)
  }

  /** A lease that is there before and after a step is the same one. */
  ghost predicate LeasesStay(s: State, s': State) {
    && s.sessions <= s'.sessions
    && (forall k :: k in s.active && k in s'.active ==>
          s'.active[k].session == s.active[k].session && s'.active[k].made == s.active[k].made)
    && (forall k :: k !in s.active && k in s'.active ==> s'.active[k].session > s.sessions)
  }

  lemma StepLeases(s: State, t: nat, a: Attempt)
    requires Locks(s) && t < |s.threads|
    ensures LeasesStay(s, StepWith(s, t, a))
  {
    var pc := s.threads[t].pc;
    if pc.FastLocked? || pc.BothLocked? || pc.RelBoth? {
      LookLeases(s, t, a);
    } else {
      StaySessions(s, t, a);
      if pc.Closing? {
        CloseMoves(s, t, a);
      } else {
        OtherRefs(s, t, a);
      }
    }
  }

  lemma LookLeases(s: State, t: nat, a: Attempt)
    requires t < |s.threads|
    requires var pc := s.threads[t].pc; pc.FastLocked? || pc.BothLocked? || pc.RelBoth?
    ensures LeasesStay(s, StepWith(s, t, a))
  {
  }

  lemma StaySessions(s: State, t: nat, a: Attempt)
    requires t < |s.threads|
    ensures s.sessions <= StepWith(s, t, a).sessions
  {
    var pc := s.threads[t].pc;
    if pc.Closing? && pc.left != [] {
      RemoveFrame(s, Last(pc.left));
    }
  }

  lemma {:induction false} RunLeaseFrom(
      s: State, env: Table, schedule: seq<(nat, Setup)>, key: string, g: nat, made: seq<Path>)
    requires Inv(s, env) && LeaseFrom(s, key, g, made)
    ensures LeaseFrom(Run(s, schedule), key, g, made)
    decreases |schedule|
  {
    if schedule != [] {
      var t, setup := schedule[0].0, schedule[0].1;
      FirstStep(s, env, t, setup);
      RunLeaseFrom(Step(s, t, setup), env, schedule[1..], key, g, made);
    }
  }

  lemma FirstStep(s: State, env: Table, t: nat, setup: Setup)
    requires Inv(s, env)
    ensures Inv(Step(s, t, setup), env) && LeasesStay(s, Step(s, t, setup)) && Step(s, t, setup).dir == s.dir
  {
    RunKeeps(s, env, [(t, setup)]);
    assert [(t, setup)][1..] == [];
    assert Run(s, [(t, setup)]) == Run(Step(s, t, setup), []) == Step(s, t, setup);
    if t < |s.threads| {
      var a := TrySetup(PathsOf(s.table), s.dir, s.threads[t].key, setup);
      StepLeases(s, t, a);
      StepRoles(s, t, a);
    }
  }

  /** What was there, or was made, when a lease began is mounted while the lease is there. */
  lemma LeasePointsStay(s: State, s': State, env: Table, key: string, made: seq<Path>, g: nat)
    requires Mounts(s, env, None) && key !in s.active
    requires Inv(s', env) && key in s'.active && s'.active[key].session == g && s'.active[key].made == made
    ensures forall p :: s.dir + [key] <= p && p in PathsOf(s.table) + made ==> p in PathsOf(s'.table)
  {
    assert LeaseOk(s', env, key);
    forall p | s.dir + [key] <= p && p in PathsOf(s.table) + made
      ensures p in PathsOf(s'.table)
    {
      if p in made {
        OwnedInTable(s'.table, g, p);
      } else {
        PointFromEnv(s, env, key, p);
        OwnedInTable(s'.table, 0, p);
      }
    }
  }

  /** The state right after the mount of a lease. */
  lemma LeaseBegins(s: State, env: Table, t: nat, setup: Setup) returns (s1: State)
    requires Inv(s, env) && t < |s.threads| && s.threads[t].pc.BothLocked? && s.threads[t].key !in s.active
    requires TrySetup(PathsOf(s.table), s.dir, s.threads[t].key, setup).ok
    ensures s1 == Step(s, t, setup) && Inv(s1, env) && s1.dir == s.dir && Mounts(s, env, None)
    ensures var key := s.threads[t].key;
      && key in s1.active && s1.active[key].session == s1.sessions
      && s1.active[key].made == TrySetup(PathsOf(s.table), s.dir, key, setup).made
  {
    s1 := Step(s, t, setup);
    FirstStep(s, env, t, setup);
    assert s.outer == Some(t);
    assert WorkOf(s) == None;
  }

  /**
   * From its mount on, in every interleaving, a lease that is still the same has all of its server
   * mounted: the overlay, the disk image, and every volume but tmpfs.
   */
  lemma LeaseStaysComplete(
      dir: Path, programs: seq<(Role, string)>, env: Table, before: seq<(nat, Setup)>,
      t: nat, setup: Setup, after: seq<(nat, Setup)>)
    requires Canonical(dir)
    requires var s := Run(Begin(dir, programs, env), before);
      && t < |s.threads| && s.threads[t].pc.BothLocked? && s.threads[t].key !in s.active
      && TrySetup(PathsOf(s.table), s.dir, s.threads[t].key, setup).ok
    ensures var s := Run(Begin(dir, programs, env), before);
      var key, s1 := s.threads[t].key, Step(s, t, setup);
      var s2 := Run(s1, after);
      && key in s1.active
      && (key in s2.active && s2.active[key].session == s1.active[key].session ==>
            Complete(PathsOf(s2.table), s.dir + [key], setup))
  {
    var s := Run(Begin(dir, programs, env), before);
    BeginInv(dir, programs, env);
    RunKeeps(Begin(dir, programs, env), env, before);
    var key := s.threads[t].key;
    var s1 := LeaseBegins(s, env, t, setup);
    KeptComplete(s, s1, env, key, setup, after);
  }

  lemma KeptComplete(s: State, s1: State, env: Table, key: string, setup: Setup, after: seq<(nat, Setup)>)
    requires Mounts(s, env, None) && key !in s.active && Canonical(s.dir) && Inv(s1, env)
    requires var a := TrySetup(PathsOf(s.table), s.dir, key, setup);
      a.ok && key in s1.active && s1.active[key].session == s1.sessions && s1.active[key].made == a.made
    ensures var s2 := Run(s1, after);
      key in s2.active && s2.active[key].session == s1.active[key].session ==>
        Complete(PathsOf(s2.table), s.dir + [key], setup)
  {
    var a, g := TrySetup(PathsOf(s.table), s.dir, key, setup), s1.sessions;
    var s2 := Run(s1, after);
    RunLeaseFrom(s1, env, after, key, g, a.made);
    RunKeeps(s1, env, after);
    if key in s2.active && s2.active[key].session == g {
      LeasePointsStay(s, s2, env, key, a.made, g);
      TruthIsTruthful(PathsOf(s.table), PointsOf(s.dir + [key], setup));
      SetupCompletes(Truth(), PathsOf(s.table), s.dir, key, setup);
      SetupNeedsBelow(Truth(), PathsOf(s.table), s.dir, key, setup);
      CompleteStays(PathsOf(s.table) + a.made, PathsOf(s2.table), s.dir + [key], setup);
    }
  }

  // ---------------------------------------------------------------- who holds it

  /** The thread has left its lease for good, or never had one. */
  predicate PastHolding(pc: Pc) {
    Rank(pc) <= 4
  }

  lemma {:induction false} NotYetPast(s: State, env: Table, schedule: seq<(nat, Setup)>, u: nat)
    requires Inv(s, env) && u < |s.threads|
    requires u < |Run(s, schedule).threads| && HoldsRef(Run(s, schedule).threads[u].pc)
    ensures !PastHolding(s.threads[u].pc)
    decreases |schedule|
  {
    if schedule != [] {
      HolderSteps(s, env, schedule[0].0, schedule[0].1, u);
      NotYetPast(Step(s, schedule[0].0, schedule[0].1), env, schedule[1..], u);
    }
  }

  /** After a step a thread is where it was, or further; it lets go of its lease only for good. */
  lemma HolderSteps(s: State, env: Table, t: nat, setup: Setup, u: nat)
    requires Inv(s, env) && u < |s.threads|
    ensures var s' := Step(s, t, setup);
      && Inv(s', env) && LeasesStay(s, s') && u < |s'.threads| && s'.threads[u].key == s.threads[u].key
      && (PastHolding(s.threads[u].pc) ==> PastHolding(s'.threads[u].pc))
      && (HoldsRef(s.threads[u].pc) ==> HoldsRef(s'.threads[u].pc) || PastHolding(s'.threads[u].pc))
  {
    FirstStep(s, env, t, setup);
    if t < |s.threads| {
      var a := TrySetup(PathsOf(s.table), s.dir, s.threads[t].key, setup);
      FreeStep(s, t, a);
      if t == u && HoldsRef(s.threads[t].pc) {
        RefKept(s, t, a);
      }
    }
  }

  lemma RefKept(s: State, t: nat, a: Attempt)
    requires t < |s.threads| && HoldsRef(s.threads[t].pc)
    ensures t < |StepWith(s, t, a).threads|
    ensures var pc := StepWith(s, t, a).threads[t].pc; HoldsRef(pc) || PastHolding(pc)
  {
  }

  lemma HolderHasLease(s: State, env: Table, u: nat)
    requires Inv(s, env) && u < |s.threads| && HoldsRef(s.threads[u].pc)
    ensures s.threads[u].key in s.active
  {
    RefCountPositive(s.threads, u);
    assert RefCount(s.threads, s.threads[u].key) >= 1;
  }

  /** A thread that holds its root at the end of a schedule holds it all the way. */
  lemma HoldsAllTheWay(s: State, env: Table, schedule: seq<(nat, Setup)>, u: nat) returns (s1: State)
    requires Inv(s, env) && u < |s.threads| && HoldsRef(s.threads[u].pc) && schedule != []
    requires u < |Run(s, schedule).threads| && HoldsRef(Run(s, schedule).threads[u].pc)
    ensures s1 == Step(s, schedule[0].0, schedule[0].1) && Inv(s1, env) && LeasesStay(s, s1)
    ensures u < |s1.threads| && HoldsRef(s1.threads[u].pc) && s1.threads[u].key == s.threads[u].key
  {
    s1 := Step(s, schedule[0].0, schedule[0].1);
    HolderSteps(s, env, schedule[0].0, schedule[0].1, u);
    NotYetPast(s1, env, schedule[1..], u);
  }

  /** As long as a thread holds a root, the lease stays the one it got, whatever the others do. */
  lemma {:induction false} HolderKeepsLease(s: State, env: Table, schedule: seq<(nat, Setup)>, u: nat)
    requires Inv(s, env) && u < |s.threads| && HoldsRef(s.threads[u].pc)
    requires u < |Run(s, schedule).threads| && HoldsRef(Run(s, schedule).threads[u].pc)
    ensures var s', key := Run(s, schedule), s.threads[u].key;
      && key in s.active && key in s'.active && s'.active[key].session == s.active[key].session
    decreases |schedule|
  {
    HolderHasLease(s, env, u);
    if schedule != [] {
      var s1 := HoldsAllTheWay(s, env, schedule, u);
      HolderKeepsLease(s1, env, schedule[1..], u);
    }
  }

  // ---------------------------------------------------------------- requests

  /** While a request is served, nobody else can change the mounts. */
  lemma ServingFreezes(s: State, env: Table, t: nat, u: nat, setup: Setup)
    requires Inv(s, env) && u < |s.threads| && s.threads[u].pc.Serving? && t != u
    ensures var s' := Step(s, t, setup);
      s'.table == s.table && u < |s'.threads| && s'.threads[u] == s.threads[u]
  {
    assert s.outer == Some(u);
    if t < |s.threads| {
      var a := TrySetup(PathsOf(s.table), s.dir, s.threads[t].key, setup);
      assert !HoldsOuter(s.threads[t].pc);
      StepMoves(s, t, a);
      QuietMounts(s, t, a);
    }
  }

  /** As long as a request is served, the mounts are the ones it began with. */
  lemma {:induction false} ServedMountsStay(s: State, env: Table, schedule: seq<(nat, Setup)>, u: nat)
    requires Inv(s, env) && u < |s.threads| && s.threads[u].pc.Serving?
    requires u < |Run(s, schedule).threads| && Run(s, schedule).threads[u].pc.Serving?
    ensures Run(s, schedule).table == s.table
    decreases |schedule|
  {
    if schedule != [] {
      var t, setup := schedule[0].0, schedule[0].1;
      HolderSteps(s, env, t, setup, u);
      if t == u {
        ServedIsOver(s, env, schedule, u);
      } else {
        ServingFreezes(s, env, t, u, setup);
        ServedMountsStay(Step(s, t, setup), env, schedule[1..], u);
      }
    }
  }

  lemma {:induction false} ClosingForGood(s: State, env: Table, schedule: seq<(nat, Setup)>, u: nat)
    requires Inv(s, env) && u < |s.threads| && Rank(s.threads[u].pc) <= 3
    ensures u < |Run(s, schedule).threads| && Rank(Run(s, schedule).threads[u].pc) <= 3
    decreases |schedule|
  {
    if schedule != [] {
      var t, setup := schedule[0].0, schedule[0].1;
      FirstStep(s, env, t, setup);
      if t < |s.threads| {
        FreeStep(s, t, TrySetup(PathsOf(s.table), s.dir, s.threads[t].key, setup));
      }
      ClosingForGood(Step(s, t, setup), env, schedule[1..], u);
    }
  }

  /** A request that goes on from serving never serves again. */
  lemma ServedIsOver(s: State, env: Table, schedule: seq<(nat, Setup)>, u: nat)
    requires Inv(s, env) && u < |s.threads| && s.threads[u].pc.Serving?
    requires schedule != [] && schedule[0].0 == u
    ensures u < |Run(s, schedule).threads| && !Run(s, schedule).threads[u].pc.Serving?
  {
    FirstStep(s, env, u, schedule[0].1);
    ClosingForGood(Step(s, u, schedule[0].1), env, schedule[1..], u);
  }

  /** While a request is served, all of its server is mounted. */
  lemma ServedIsComplete(
      dir: Path, programs: seq<(Role, string)>, env: Table, before: seq<(nat, Setup)>,
      t: nat, setup: Setup, after: seq<(nat, Setup)>)
    requires Canonical(dir)
    requires var s := Run(Begin(dir, programs, env), before);
      && t < |s.threads| && s.threads[t].pc.FileLocked?
      && TrySetup(PathsOf(s.table), s.dir, s.threads[t].key, setup).ok
    ensures var s := Run(Begin(dir, programs, env), before);
      var s2 := Run(Step(s, t, setup), after);
      t < |s2.threads| && s2.threads[t].pc.Serving? ==>
        Complete(PathsOf(s2.table), s.dir + [s.threads[t].key], setup)
  {
    var s := Run(Begin(dir, programs, env), before);
    BeginInv(dir, programs, env);
    RunKeeps(Begin(dir, programs, env), env, before);
    var s1 := RequestBegins(s, env, t, setup);
    var s2 := Run(s1, after);
    if t < |s2.threads| && s2.threads[t].pc.Serving? {
      ServedMountsStay(s1, env, after, t);
    }
  }

  lemma RequestBegins(s: State, env: Table, t: nat, setup: Setup) returns (s1: State)
    requires Inv(s, env) && t < |s.threads| && s.threads[t].pc.FileLocked?
    requires TrySetup(PathsOf(s.table), s.dir, s.threads[t].key, setup).ok
    ensures s1 == Step(s, t, setup) && Inv(s1, env) && t < |s1.threads| && s1.threads[t].pc.Serving?
    ensures Complete(PathsOf(s1.table), s.dir + [s.threads[t].key], setup)
  {
    var key := s.threads[t].key;
    var a := TrySetup(PathsOf(s.table), s.dir, key, setup);
    s1 := Step(s, t, setup);
    FirstStep(s, env, t, setup);
    ServingTable(s, t, a);
    TruthIsTruthful(PathsOf(s.table), PointsOf(s.dir + [key], setup));
    SetupCompletes(Truth(), PathsOf(s.table), s.dir, key, setup);
  }

  lemma ServingTable(s: State, t: nat, a: Attempt)
    requires t < |s.threads| && s.threads[t].pc.FileLocked? && a.ok
    ensures var s1 := StepWith(s, t, a);
      t < |s1.threads| && s1.threads[t].pc.Serving? && PathsOf(s1.table) == PathsOf(s.table) + a.made
  {
    assert StepWith(s, t, a).table == AddMounts(s, a.made, s.threads[t].key).table;
  }
}
