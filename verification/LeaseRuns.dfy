/** Whole runs of leases and file-manager requests: what is handed out stays mounted, and all comes down. */
module LeaseRuns {
  import opened Basics
  import opened Paths
  import opened MountSession
  import opened Leases
  import opened LeaseLaws
  import opened LeaseMounts

  /** The session that the holder of outer is serving or taking down. */
  function WorkOf(s: State): Option<Work> {
    if s.outer.None? || s.outer.value >= |s.threads| then None
    else
      var th := s.threads[s.outer.value];
      match th.pc
      case RelDone(left, session) => Some(Work(th.key, th.role, left, session, false))
      case Closing(left, session) => Some(Work(th.key, th.role, left, session, false))
      case Serving(left, session) => Some(Work(th.key, th.role, left, session, true))
      case _ => None
  }

  predicate RoleFits(th: Thread) {
    match th.pc
    case FileLocked => th.role == FileManager
    case Serving(_, _) => th.role == FileManager
    case RelBoth => th.role == Leaser
    case RelDone(_, _) => th.role == Leaser
    case RelOuter => th.role == Leaser
    case Start => true
    case Closing(_, _) => true
    case Finished => true
    case _ => th.role == Leaser
  }

  ghost predicate Roles(s: State) {
    forall t :: 0 <= t < |s.threads| ==> RoleFits(s.threads[t])
  }

  ghost predicate Inv(s: State, env: Table) {
    Canonical(s.dir) && Locks(s) && Refs(s) && Roles(s) && Mounts(s, env, WorkOf(s))
  }

  /** What any setup of this thread does: it mounts new points below its container only. */
  ghost predicate Proper(s: State, t: nat, a: Attempt)
    requires t < |s.threads|
  {
    var base := s.dir + [s.threads[t].key];
    FreshBelow(a.made, PathsOf(s.table), base) && (a.ok ==> Merged(base) in PathsOf(s.table) + a.made)
  }

  // ---------------------------------------------------------------- one step

  lemma StepRoles(s: State, t: nat, a: Attempt)
    requires Locks(s) && Roles(s) && t < |s.threads|
    ensures Roles(StepWith(s, t, a)) && StepWith(s, t, a).dir == s.dir
  {
    StepMoves(s, t, a);
    var s' := StepWith(s, t, a);
    if s.threads[t].pc.Closing? {
      CloseMoves(s, t, a);
      if s.threads[t].pc.left != [] {
        RemoveFrame(s, Last(s.threads[t].pc.left));
      }
    }
    assert RoleFits(s.threads[t]);
    assert s' != s ==> RoleFits(s'.threads[t]);
  }

  /** The mounts only change under both locks, under outer by a file manager, and in a closing session. */
  predicate Quiet(pc: Pc) {
    !pc.BothLocked? && !pc.RelBoth? && !pc.FileLocked? && !pc.Serving? && !pc.Closing?
  }

  lemma QuietMounts(s: State, t: nat, a: Attempt)
    requires t < |s.threads| && Quiet(s.threads[t].pc)
    ensures SameMounts(s, StepWith(s, t, a))
  {
  }

  lemma QuietAcquire(s: State, t: nat, a: Attempt)
    requires Locks(s) && t < |s.threads| && Acquiring(s.threads[t].pc) && Quiet(s.threads[t].pc)
    ensures WorkOf(StepWith(s, t, a)) == WorkOf(s)
  {
  }

  lemma QuietStep(s: State, t: nat, a: Attempt)
    requires Locks(s) && t < |s.threads| && Quiet(s.threads[t].pc)
    ensures SameMounts(s, StepWith(s, t, a)) && WorkOf(StepWith(s, t, a)) == WorkOf(s)
  {
    QuietMounts(s, t, a);
    if Acquiring(s.threads[t].pc) {
      QuietAcquire(s, t, a);
    }
  }

  lemma IdleWork(s: State, env: Table, key: string, role: Role)
    requires Mounts(s, env, None)
    ensures Mounts(s, env, Some(Work(key, role, [], 0, false)))
  {
  }

  lemma LookOrMountKeeps(s: State, env: Table, t: nat, a: Attempt)
    requires Inv(s, env) && t < |s.threads| && s.threads[t].pc.BothLocked? && Proper(s, t, a)
    ensures Mounts(StepWith(s, t, a), env, WorkOf(StepWith(s, t, a)))
  {
    var key := s.threads[t].key;
    assert s.outer == Some(t);
    var s' := StepWith(s, t, a);
    assert WorkOf(s') == None;
    if key in s.active || !a.ok {
      FrameKeeps(s, s', env, None);
    } else {
      AddLease(s, env, a.made, key);
      FrameKeeps(WithLease(s, a.made, key), s', env, None);
    }
  }

  lemma DropRefStep(s: State, t: nat, a: Attempt)
    requires Locks(s) && t < |s.threads| && s.threads[t].pc.RelBoth? && s.threads[t].role == Leaser
    ensures var s', key := StepWith(s, t, a), s.threads[t].key;
      if key in s.active && s.active[key].refs <= 1 then
        && SameMounts(s.(active := s.active - {key}), s')
        && WorkOf(s') == Some(Work(key, Leaser, s.active[key].made, s.active[key].session, false))
      else SameMounts(s, s') && WorkOf(s') == Some(Work(key, Leaser, [], 0, false))
  {
  }

  lemma DropRefKeeps(s: State, env: Table, t: nat, a: Attempt)
    requires Inv(s, env) && t < |s.threads| && s.threads[t].pc.RelBoth?
    ensures Mounts(StepWith(s, t, a), env, WorkOf(StepWith(s, t, a)))
  {
    var key := s.threads[t].key;
    assert s.outer == Some(t) && RoleFits(s.threads[t]);
    DropRefStep(s, t, a);
    var s', w := StepWith(s, t, a), WorkOf(StepWith(s, t, a));
    if key in s.active && s.active[key].refs <= 1 {
      DropLease(s, env, key);
      FrameKeeps(s.(active := s.active - {key}), s', env, w);
    } else {
      IdleWork(s, env, key, Leaser);
      FrameKeeps(s, s', env, w);
    }
  }

  lemma BeginFileStep(s: State, t: nat, a: Attempt)
    requires Locks(s) && t < |s.threads| && s.threads[t].pc.FileLocked? && s.threads[t].role == FileManager
    ensures var s', key := StepWith(s, t, a), s.threads[t].key;
      if a.ok then
        && SameMounts(AddMounts(s, a.made, key), s')
        && WorkOf(s') == Some(Work(key, FileManager, a.made, s.sessions + 1, true))
      else SameMounts(s, s') && WorkOf(s') == Some(Work(key, FileManager, [], 0, false))
  {
  }

  lemma BeginFileKeeps(s: State, env: Table, t: nat, a: Attempt)
    requires Inv(s, env) && t < |s.threads| && s.threads[t].pc.FileLocked? && Proper(s, t, a)
    ensures Mounts(StepWith(s, t, a), env, WorkOf(StepWith(s, t, a)))
  {
    var key := s.threads[t].key;
    assert s.outer == Some(t) && RoleFits(s.threads[t]);
    BeginFileStep(s, t, a);
    var s', w := StepWith(s, t, a), WorkOf(StepWith(s, t, a));
    if a.ok {
      AddFile(s, env, a.made, key);
      FrameKeeps(AddMounts(s, a.made, key), s', env, w);
    } else {
      IdleWork(s, env, key, FileManager);
      FrameKeeps(s, s', env, w);
    }
  }

  lemma ServedKeeps(s: State, env: Table, t: nat, a: Attempt)
    requires Inv(s, env) && t < |s.threads| && s.threads[t].pc.Serving?
    ensures Mounts(StepWith(s, t, a), env, WorkOf(StepWith(s, t, a)))
  {
    assert s.outer == Some(t);
    var w := WorkOf(s).value;
    var s' := StepWith(s, t, a);
    assert WorkOf(s') == Some(w.(serving := false));
    FrameKeeps(s, s', env, Some(w));
    StopServing(s', env, w);
  }

  lemma StopServing(s: State, env: Table, w: Work)
    requires Mounts(s, env, Some(w))
    ensures Mounts(s, env, Some(w.(serving := false)))
  {
  }

  lemma ClosedKeeps(s: State, env: Table, t: nat, a: Attempt)
    requires Inv(s, env) && t < |s.threads| && s.threads[t].pc.Closing? && s.threads[t].pc.left == []
    ensures Mounts(StepWith(s, t, a), env, WorkOf(StepWith(s, t, a)))
  {
    assert s.outer == Some(t);
    FinishWork(s, env, WorkOf(s).value);
    FrameKeeps(s, StepWith(s, t, a), env, None);
  }

  lemma UmountStep(s: State, t: nat, a: Attempt)
    requires Locks(s) && t < |s.threads| && s.threads[t].pc.Closing? && s.threads[t].pc.left != []
    ensures var s', p := StepWith(s, t, a), Last(s.threads[t].pc.left);
      && s.outer == Some(t) && SameMounts(RemoveMount(s, p), s')
      && WorkOf(s').Some? && WorkOf(s).Some?
      && WorkOf(s').value == WorkOf(s).value.(left := Front(s.threads[t].pc.left), serving := false)
  {
    RemoveFrame(s, Last(s.threads[t].pc.left));
  }

  lemma UmountedKeeps(s: State, env: Table, t: nat, a: Attempt)
    requires Inv(s, env) && t < |s.threads| && s.threads[t].pc.Closing? && s.threads[t].pc.left != []
    ensures Mounts(StepWith(s, t, a), env, WorkOf(StepWith(s, t, a)))
  {
    UmountStep(s, t, a);
    var w := WorkOf(s).value;
    UmountKeeps(s, env, w);
    FrameKeeps(RemoveMount(s, Last(w.left)), StepWith(s, t, a), env, WorkOf(StepWith(s, t, a)));
  }

  lemma StepKeeps(s: State, env: Table, t: nat, a: Attempt)
    requires Inv(s, env) && (t < |s.threads| ==> Proper(s, t, a))
    ensures Inv(StepWith(s, t, a), env)
  {
    if t < |s.threads| {
      StepLocks(s, t, a);
      StepRefs(s, t, a);
      StepRoles(s, t, a);
      var pc := s.threads[t].pc;
      if Quiet(pc) {
        QuietStep(s, t, a);
        FrameKeeps(s, StepWith(s, t, a), env, WorkOf(s));
      } else if pc.BothLocked? {
        LookOrMountKeeps(s, env, t, a);
      } else if pc.RelBoth? {
        DropRefKeeps(s, env, t, a);
      } else if pc.FileLocked? {
        BeginFileKeeps(s, env, t, a);
      } else if pc.Serving? {
        ServedKeeps(s, env, t, a);
      } else if pc.left == [] {
        ClosedKeeps(s, env, t, a);
      } else {
        UmountedKeeps(s, env, t, a);
      }
    }
  }

  // ---------------------------------------------------------------- runs

  lemma BeginInv(dir: Path, programs: seq<(Role, string)>, env: Table)
    requires Canonical(dir)
    ensures Inv(Begin(dir, programs, env), env)
  {
    var s := Begin(dir, programs, env);
    forall k
      ensures RefCount(s.threads, k) == 0
    {
      NobodyHolds(s.threads, k);
    }
    OwnedTag(env, 0, "", 0);
    PairsEnv(env);
  }

  lemma {:induction false} NobodyHolds(threads: seq<Thread>, key: string)
    requires forall t :: 0 <= t < |threads| ==> !HoldsRef(threads[t].pc)
    ensures RefCount(threads, key) == 0
    decreases |threads|
  {
    if threads != [] {
      NobodyHolds(threads[1..], key);
    }
  }

  lemma {:induction false} RunKeeps(s: State, env: Table, schedule: seq<(nat, Setup)>)
    requires Inv(s, env)
    ensures Inv(Run(s, schedule), env)
    decreases |schedule|
  {
    if schedule != [] {
      var t, setup := schedule[0].0, schedule[0].1;
      var s' := Step(s, t, setup);
      if t < |s.threads| {
        TruthIsTruthful(PathsOf(s.table), PointsOf(s.dir + [s.threads[t].key], setup));
        SetupFresh(Truth(), PathsOf(s.table), s.dir, s.threads[t].key, setup);
        StepKeeps(s, env, t, TrySetup(PathsOf(s.table), s.dir, s.threads[t].key, setup));
      }
      RunKeeps(s', env, schedule[1..]);
    }
  }

  lemma {:induction false} OwnedInTable(table: seq<Entry>, session: nat, p: Path)
    requires p in Owned(table, session)
    ensures p in PathsOf(table)
    decreases |table|
  {
    var n := |table| - 1;
    if table[n].owner == session && table[n].path == p {
      assert PathsOf(table)[n] == p;
    } else {
      OwnedInTable(table[..n], session, p);
      var i :| 0 <= i < n && PathsOf(table[..n])[i] == p;
      assert PathsOf(table)[i] == p;
    }
  }

  /** The thread has a root in its hands: acquired and not released, or being served. */
  predicate HasRoot(pc: Pc) {
    HoldsRef(pc) || pc.Serving?
  }

  /**
   * In every interleaving: a root that is handed out is mounted, and refs counts exactly those who
   * hold the lease; there is a lease just when somebody holds it.
   */
  lemma HandedOutIsMounted(dir: Path, programs: seq<(Role, string)>, env: Table, schedule: seq<(nat, Setup)>)
    requires Canonical(dir)
    ensures var s := Run(Begin(dir, programs, env), schedule);
      && (forall t :: 0 <= t < |s.threads| && HasRoot(s.threads[t].pc) ==>
            Merged(s.dir + [s.threads[t].key]) in PathsOf(s.table))
      && (forall k :: k in s.active ==> s.active[k].refs == RefCount(s.threads, k))
      && (forall k :: k in s.active <==> RefCount(s.threads, k) >= 1)
  {
    BeginInv(dir, programs, env);
    RunKeeps(Begin(dir, programs, env), env, schedule);
    var s := Run(Begin(dir, programs, env), schedule);
    forall t | 0 <= t < |s.threads| && HasRoot(s.threads[t].pc)
      ensures Merged(s.dir + [s.threads[t].key]) in PathsOf(s.table)
    {
      RootMounted(s, env, t);
    }
  }

  lemma RootMounted(s: State, env: Table, t: nat)
    requires Inv(s, env) && t < |s.threads| && HasRoot(s.threads[t].pc)
    ensures Merged(s.dir + [s.threads[t].key]) in PathsOf(s.table)
  {
    var key := s.threads[t].key;
    if HoldsRef(s.threads[t].pc) {
      RefCountPositive(s.threads, t);
      assert LeaseOk(s, env, key);
      OwnedInTable(s.table, if Merged(s.dir + [key]) in env then 0 else s.active[key].session, Merged(s.dir + [key]));
    } else {
      assert s.outer == Some(t);
    }
  }

  /** release closes the session exactly when it drops the last reference. */
  lemma LastReleaseCloses(s: State, env: Table, t: nat, setup: Setup)
    requires Inv(s, env) && t < |s.threads| && s.threads[t].pc.RelBoth?
    ensures var key, s' := s.threads[t].key, Step(s, t, setup);
      && s'.threads[t].pc.RelDone?
      && (RefCount(s.threads, key) == 1 <==> s'.threads[t].pc.session != 0)
      && (RefCount(s.threads, key) == 1 ==>
            key in s.active && key !in s'.active && s'.threads[t].pc.left == s.active[key].made)
      && (RefCount(s.threads, key) != 1 ==> key in s'.active && s'.active[key].refs == RefCount(s.threads, key) - 1)
  {
    RefCountPositive(s.threads, t);
    assert LeaseOk(s, env, s.threads[t].key);
  }

  /** No umount of a session ever fails, and each takes one mount of that very session. */
  lemma UmountsSucceed(s: State, env: Table, t: nat, setup: Setup)
    requires Inv(s, env) && t < |s.threads| && s.threads[t].pc.Closing? && s.threads[t].pc.left != []
    ensures var s', pc := Step(s, t, setup), s.threads[t].pc;
      && s'.umounts == s.umounts + multiset{(pc.session, Last(pc.left))}
      && |s'.table| == |s.table| - 1
      && s'.mounts == s.mounts && s'.umounts[(pc.session, Last(pc.left))] == 1
  {
    assert s.outer == Some(t);
    var w := WorkOf(s).value;
    UmountKeeps(s, env, w);
    RemoveFrame(s, Last(w.left));
    var i := UmountHitsOwn(s, env, w);
    PairsWithout(s.table, i);
    assert s.mounts[(w.session, Last(w.left))] <= 1;
  }

  lemma {:induction false} NoSessionsLeft(table: seq<Entry>)
    requires forall i :: 0 <= i < |table| ==> table[i].owner == 0
    ensures PathsOf(table) == Owned(table, 0) && Pairs(table) == multiset{}
    decreases |table|
  {
    if table != [] {
      var n := |table| - 1;
      NoSessionsLeft(table[..n]);
      assert PathsOf(table) == PathsOf(table[..n]) + [table[n].path];
    }
  }

  predicate Done(s: State) {
    forall t :: 0 <= t < |s.threads| ==> s.threads[t].pc == Finished
  }

  lemma DoneIsClean(s: State, env: Table)
    requires Inv(s, env) && Done(s)
    ensures s.active == map[] && PathsOf(s.table) == env && s.mounts == s.umounts
    ensures forall x: (nat, Path) :: s.umounts[x] <= 1
  {
    forall k
      ensures k !in s.active
    {
      NobodyHolds(s.threads, k);
      assert RefCount(s.threads, k) == 0;
    }
    assert WorkOf(s) == None;
    NoSessionsLeft(s.table);
  }

  /**
   * Once every thread is done, no lease is left, the mount table is exactly what it was at the
   * start, and every mount a session made was made once and unmounted once.
   */
  lemma AllComesDown(dir: Path, programs: seq<(Role, string)>, env: Table, schedule: seq<(nat, Setup)>)
    requires Canonical(dir) && Done(Run(Begin(dir, programs, env), schedule))
    ensures var s := Run(Begin(dir, programs, env), schedule);
      && s.active == map[] && PathsOf(s.table) == env && s.mounts == s.umounts
      && forall x: (nat, Path) :: s.umounts[x] <= 1
  {
    BeginInv(dir, programs, env);
    RunKeeps(Begin(dir, programs, env), env, schedule);
    DoneIsClean(Run(Begin(dir, programs, env), schedule), env);
  }

  // ---------------------------------------------------------------- progress

  /** The lock order: who holds inner never waits for outer. */
  lemma InnerNeverWaits(dir: Path, programs: seq<(Role, string)>, env: Table, schedule: seq<(nat, Setup)>, t: nat)
    requires Canonical(dir)
    ensures var s := Run(Begin(dir, programs, env), schedule);
      s.inner == Some(t) ==> t < |s.threads| && !WantsOuter(s.threads[t])
  {
    BeginInv(dir, programs, env);
    RunKeeps(Begin(dir, programs, env), env, schedule);
  }

  /** Unless all are done, some thread can step, whatever its setup meets. */
  lemma SomeoneSteps(s: State, env: Table) returns (t: nat)
    requires Inv(s, env) && !Done(s)
    ensures t < |s.threads| && forall setup: Setup :: Step(s, t, setup) != s
  {
    if s.inner.Some? {
      t := s.inner.value;
    } else if s.outer.Some? {
      t := s.outer.value;
    } else {
      t :| t < |s.threads| && s.threads[t].pc != Finished;
    }
    forall setup: Setup
      ensures Step(s, t, setup) != s
    {
      FreeStep(s, t, TrySetup(PathsOf(s.table), s.dir, s.threads[t].key, setup));
    }
  }

  /** Nothing stands in the way of thread t. */
  predicate Free(s: State, t: nat) {
    && t < |s.threads| && s.threads[t].pc != Finished
    && (s.inner == None || s.inner == Some(t))
    && (s.outer == None || s.outer == Some(t) || s.inner == Some(t))
  }

  function Rank(pc: Pc): nat {
    match pc
    case Start => 15
    case FastLocked => 14
    case FastLooked(_) => 13
    case WantOuter => 12
    case OuterLocked => 11
    case BothLocked => 10
    case SlowLooked(_) => 9
    case SlowUnlock(_) => 8
    case Holding => 7
    case RelOuter => 6
    case RelBoth => 5
    case FileLocked => 5
    case RelDone(_, _) => 4
    case Serving(_, _) => 4
    case Closing(_, _) => 3
    case Finished => 0
  }

  function Left(pc: Pc): nat {
    match pc
    case RelDone(left, _) => |left|
    case Serving(left, _) => |left|
    case Closing(left, _) => |left|
    case _ => 0
  }

  predicate Forward(pc: Pc, pc': Pc) {
    Rank(pc') < Rank(pc) || (Rank(pc') == Rank(pc) && Left(pc') < Left(pc))
  }

  /** A step stays put or moves its own thread forward; when nothing stands in its way, it moves. */
  ghost predicate Advances(s: State, s': State, t: nat)
    requires t < |s.threads|
  {
    && (|| s' == s
        || (t < |s'.threads| && Moved(s, s', t, s'.threads[t].pc) && Forward(s.threads[t].pc, s'.threads[t].pc)))
    && (Free(s, t) ==> s' != s)
  }

  lemma AcquireAdvances(s: State, t: nat, a: Attempt)
    requires Locks(s) && t < |s.threads| && Acquiring(s.threads[t].pc)
    ensures Advances(s, StepWith(s, t, a), t)
  {
  }

  lemma DropAdvances(s: State, t: nat, a: Attempt)
    requires Locks(s) && t < |s.threads| && (s.threads[t].pc.RelBoth? || s.threads[t].pc.FileLocked?)
    ensures Advances(s, StepWith(s, t, a), t)
  {
  }

  lemma ReleaseAdvances(s: State, t: nat, a: Attempt)
    requires Locks(s) && t < |s.threads| && !Acquiring(s.threads[t].pc) && !s.threads[t].pc.Closing?
    ensures Advances(s, StepWith(s, t, a), t)
  {
    if s.threads[t].pc.RelBoth? || s.threads[t].pc.FileLocked? {
      DropAdvances(s, t, a);
    }
  }

  lemma FreeStep(s: State, t: nat, a: Attempt)
    requires Locks(s) && t < |s.threads|
    ensures Advances(s, StepWith(s, t, a), t)
  {
    if Acquiring(s.threads[t].pc) {
      AcquireAdvances(s, t, a);
    } else if !s.threads[t].pc.Closing? {
      ReleaseAdvances(s, t, a);
    } else if s.threads[t].pc.left != [] {
      RemoveFrame(s, Last(s.threads[t].pc.left));
    }
  }

  function Total(threads: seq<Thread>, f: Pc -> nat): nat
    decreases |threads|
  {
    if threads == [] then 0 else f(threads[0].pc) + Total(threads[1..], f)
  }

  lemma {:induction false} TotalUpdate(threads: seq<Thread>, t: nat, th: Thread, f: Pc -> nat)
    requires t < |threads|
    ensures Total(threads[t := th], f) + f(threads[t].pc) == Total(threads, f) + f(th.pc)
    decreases t
  {
    if t == 0 {
      assert threads[t := th][1..] == threads[1..];
    } else {
      assert threads[t := th][1..] == threads[1..][t - 1 := th];
      TotalUpdate(threads[1..], t - 1, th, f);
    }
  }

  /** No deadlock and no livelock: from every reachable state, all threads can be run to their end. */
  lemma {:induction false} CanFinish(s: State, env: Table, setup: Setup) returns (schedule: seq<(nat, Setup)>)
    requires Inv(s, env)
    ensures Done(Run(s, schedule))
    decreases Total(s.threads, Rank), Total(s.threads, Left)
  {
    if Done(s) {
      schedule := [];
    } else {
      var t := SomeoneSteps(s, env);
      var a := TrySetup(PathsOf(s.table), s.dir, s.threads[t].key, setup);
      var s' := Step(s, t, setup);
      FreeStep(s, t, a);
      TotalUpdate(s.threads, t, s'.threads[t], Rank);
      TotalUpdate(s.threads, t, s'.threads[t], Left);
      assert Run(s, [(t, setup)]) == Run(s', []);
      RunKeeps(s, env, [(t, setup)]);
      var rest := CanFinish(s', env, setup);
      schedule := [(t, setup)] + rest;
      assert schedule[1..] == rest;
    }
  }
}
