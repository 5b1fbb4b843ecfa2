/** Endless schedules of leases and requests: nothing happens forever, and a fair schedule ends. */
module LeaseFair {
  import opened Basics
  import opened Paths
  import opened MountSession
  import opened Leases
  import opened LeaseLaws
  import opened LeaseRuns
  import opened Schedules

  /** Who steps at each moment, and what its setup would meet. */
  type Schedule = nat -> (nat, Setup)

  function StateAt(s: State, f: Schedule, n: nat): State
    decreases n
  {
    if n == 0 then s else var before := StateAt(s, f, n - 1); Step(before, f(n - 1).0, f(n - 1).1)
  }

  lemma StepsAt(s: State, f: Schedule, m: nat)
    ensures StateAt(s, f, m + 1) == Step(StateAt(s, f, m), f(m).0, f(m).1)
  {
  }

  lemma StepInv(s: State, env: Table, t: nat, setup: Setup) returns (s': State)
    requires Inv(s, env)
    ensures s' == Step(s, t, setup) && Inv(s', env) && |s'.threads| == |s.threads|
  {
    s' := Step(s, t, setup);
    RunKeeps(s, env, [(t, setup)]);
    assert [(t, setup)][1..] == [];
    assert Run(s, [(t, setup)]) == Run(s', []) == s';
    if t < |s.threads| {
      FreeStep(s, t, TrySetup(PathsOf(s.table), s.dir, s.threads[t].key, setup));
    }
  }

  function StatesOf(s: State, f: Schedule): nat -> State {
    (n: nat) => StateAt(s, f, n)
  }

  /** The invariant goes on from one state to the next. */
  ghost predicate Kept(s: State, s': State, env: Table) {
    Inv(s, env) ==> Inv(s', env) && |s'.threads| == |s.threads|
  }

  lemma MomentKeeps(s: State, env: Table, f: Schedule, at: nat -> State, k: nat)
    requires at == StatesOf(s, f)
    ensures Kept(at(k), at(k + 1), env)
  {
    StepsAt(s, f, k);
    if Inv(at(k), env) {
      var next := StepInv(at(k), env, f(k).0, f(k).1);
    }
  }

  lemma {:induction false} KeptAlong(at: nat -> State, env: Table, n: nat)
    requires Inv(at(0), env) && forall k: nat :: Kept(at(k), at(k + 1), env)
    ensures Inv(at(n), env) && |at(n).threads| == |at(0).threads|
    decreases n
  {
    if n > 0 {
      KeptAlong(at, env, n - 1);
      assert Kept(at(n - 1), at(n - 1 + 1), env);
    }
  }

  /** What holds in every run holds at every moment. */
  lemma InvAt(s: State, env: Table, f: Schedule, n: nat) returns (now: State)
    requires Inv(s, env)
    ensures now == StateAt(s, f, n) && Inv(now, env) && |now.threads| == |s.threads|
  {
    var at := StatesOf(s, f);
    forall k: nat
      ensures Kept(at(k), at(k + 1), env)
    {
      MomentKeeps(s, env, f, at, k);
    }
    KeptAlong(at, env, n);
    now := at(n);
  }

  /** The stages that all threads together have to go through. */
  function Stages(): State -> nat {
    (s: State) => Total(s.threads, Rank)
  }

  /** The mounts that they have to take down. */
  function Mounts(): State -> nat {
    (s: State) => Total(s.threads, Left)
  }

  /** A step that changes the state brings it closer to the end. */
  lemma StepGoesDown(s: State, env: Table, t: nat, setup: Setup, s': State)
    requires Inv(s, env) && s' == Step(s, t, setup) && s' != s
    ensures Lower(s', s, Stages(), Mounts())
  {
    FreeStep(s, t, TrySetup(PathsOf(s.table), s.dir, s.threads[t].key, setup));
    TotalUpdate(s.threads, t, s'.threads[t], Rank);
    TotalUpdate(s.threads, t, s'.threads[t], Left);
  }

  // ---------------------------------------------------------------- endless schedules

  /** One moment and the next. */
  lemma MomentGoesDown(s: State, env: Table, f: Schedule, at: nat -> State, k: nat)
    requires Inv(s, env) && at == StatesOf(s, f) && Changes(at, k)
    ensures Lower(at(k + 1), at(k), Stages(), Mounts())
  {
    var now := InvAt(s, env, f, k);
    StepsAt(s, f, k);
    StepGoesDown(now, env, f(k).0, f(k).1, at(k + 1));
  }

  lemma ScheduleDescends(s: State, env: Table, f: Schedule, at: nat -> State)
    requires Inv(s, env) && at == StatesOf(s, f)
    ensures Descends(at, Stages(), Mounts())
  {
    forall k: nat | Changes(at, k)
      ensures Lower(at(k + 1), at(k), Stages(), Mounts())
    {
      MomentGoesDown(s, env, f, at, k);
    }
  }

  /** In every endless schedule, fair or not, only finitely many steps change anything. */
  lemma ChangesEnd(dir: Path, programs: seq<(Role, string)>, env: Table, f: Schedule) returns (end: nat)
    requires Canonical(dir)
    ensures SettledFrom(StatesOf(Begin(dir, programs, env), f), end)
  {
    BeginInv(dir, programs, env);
    var at := StatesOf(Begin(dir, programs, env), f);
    ScheduleDescends(Begin(dir, programs, env), env, f, at);
    end := DescentEnds(at, Stages(), Mounts(), 0);
  }

  function Turns(f: Schedule): nat -> nat {
    (m: nat) => f(m).0
  }

  /** Every thread gets its turn again and again. */
  ghost predicate Fair(f: Schedule, threads: nat) {
    FairTurns(Turns(f), threads)
  }

  /** A thread that can step, whatever its setup meets, changes the state when its turn comes. */
  lemma TurnChanges(s: State, f: Schedule, m: nat, t: nat, last: State)
    requires StateAt(s, f, m) == last && f(m).0 == t
    requires forall setup: Setup :: Step(last, t, setup) != last
    ensures Changes(StatesOf(s, f), m)
  {
    StepsAt(s, f, m);
  }

  /** Where nothing changes any more, a fair schedule has brought all threads to their end. */
  lemma SettledIsDone(s: State, env: Table, f: Schedule, end: nat)
    requires Inv(s, env) && Fair(f, |s.threads|) && SettledFrom(StatesOf(s, f), end)
    ensures Done(StateAt(s, f, end))
  {
    var last := InvAt(s, env, f, end);
    if !Done(last) {
      var t := SomeoneSteps(last, env);
      forall m: nat | m >= end && Turns(f)(m) == t && StatesOf(s, f)(m) == StatesOf(s, f)(end)
        ensures Changes(StatesOf(s, f), m)
      {
        TurnChanges(s, f, m, t, last);
      }
      SettledHasNoTurn(StatesOf(s, f), Turns(f), |s.threads|, end, t);
    }
  }

  /** Every fair schedule of any leases and requests brings them all to their end. */
  lemma FairEnds(dir: Path, programs: seq<(Role, string)>, env: Table, f: Schedule) returns (end: nat)
    requires Canonical(dir) && Fair(f, |programs|)
    ensures forall m: nat :: m >= end ==> Done(StateAt(Begin(dir, programs, env), f, m))
  {
    var s := Begin(dir, programs, env);
    BeginInv(dir, programs, env);
    end := ChangesEnd(dir, programs, env, f);
    SettledIsDone(s, env, f, end);
    forall m: nat | m >= end
      ensures Done(StateAt(s, f, m))
    {
      assert StatesOf(s, f)(m) == StatesOf(s, f)(end);
    }
  }
}
