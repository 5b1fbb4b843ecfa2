/**
 * The close handshake when several goroutines share the connection: what one of them does undisturbed is
 * what Conn does, and a goodbye that was asked for is said, once, whatever the interleaving.
 */
module WsGoodbye {
  import opened Basics
  import opened Schedules
  import opened WsFrames
  import opened WsConn
  import opened WsWire
  import opened WsClose
  import opened WsFair

  // ---------------------------------------------------------------- one goroutine undisturbed

  ghost function Alone(n: Net, t: nat, k: nat): Net
    decreases k
  {
    if k == 0 then n else Alone(Next(n, t), t, k - 1)
  }

  /** Nobody is inside a critical section. */
  predicate Quiet(n: Net, t: nat) {
    n.mu == None && !n.once.Running? && t < |n.threads| && n.threads[t].pc == Ready
  }

  /** The connection as one caller sees it. */
  function LinkOf(n: Net): Link {
    Link(State([], n.out, n.closing), n.once.Used?)
  }

  /** What Conn does for a job. */
  function Serve(l: Link, j: Job): Link
    requires ValidJob(j)
  {
    match j
    case Text(p) => Act(l, WriteCall(p))
    case Pong(p) => l.(state := l.state.(out := SendControl(l.state.out, PONG, p)))
    case CloseReply(p) => l.(state := OnClose(l.state, p).state)
    case CloseCall => Act(l, Call.CloseCall)
  }

  lemma TwoSteps(n: Net, t: nat)
    requires AllSound(n)
    ensures AllSound(Step(n, t)) && Alone(n, t, 2) == Step(Step(n, t), t) && AllSound(Alone(n, t, 2))
  {
    StepSound(n, t);
    StepSound(Step(n, t), t);
    assert Next(n, t) == Step(n, t) && Next(Step(n, t), t) == Step(Step(n, t), t);
    assert Alone(Step(n, t), t, 1) == Alone(Step(Step(n, t), t), t, 0);
  }

  lemma {:induction false} AloneMore(n: Net, t: nat, i: nat, j: nat)
    ensures Alone(n, t, i + j) == Alone(Alone(n, t, i), t, j)
    decreases i
  {
    if i > 0 {
      assert i + j - 1 == i - 1 + j;
      AloneMore(Next(n, t), t, i - 1, j);
    }
  }

  lemma LockAlone(n: Net, t: nat)
    requires AllSound(n) && t < |n.threads| && n.threads[t].pc.Want? && n.mu == None
    ensures var f, td, n' := n.threads[t].pc.f, n.threads[t].pc.tearDown, Alone(n, t, 2);
      && n'.threads == n.threads[t := n.threads[t].(pc := HeaderOut(f, td))] && n'.mu == Some(t)
      && n' == n.(threads := n'.threads, mu := Some(t), log := n.log + [Entry(t, f)],
                  out := Put(n.out, HeaderBytes(f.opcode, |f.payload|)))
  {
    assert Sound(n.threads[t]);
    TwoSteps(n, t);
  }

  lemma BodyStep(n: Net, t: nat)
    requires AllSound(n) && t < |n.threads| && n.threads[t].pc.HeaderOut?
    ensures var pc := n.threads[t].pc;
      Step(n, t) == GoTo(n.(out := Put(n.out, pc.f.payload)), t, BodyOut(pc.f, pc.tearDown))
  {
  }

  lemma UnlockStep(n: Net, t: nat)
    requires AllSound(n) && t < |n.threads| && n.threads[t].pc.BodyOut?
    ensures Step(n, t) == GoTo(n.(mu := None), t, if n.threads[t].pc.tearDown then TearDown else Ready)
  {
  }

  lemma UnlockAlone(n: Net, t: nat)
    requires AllSound(n) && t < |n.threads| && n.threads[t].pc.HeaderOut?
    ensures var f, td, n' := n.threads[t].pc.f, n.threads[t].pc.tearDown, Alone(n, t, 2);
      && n'.threads == n.threads[t := n.threads[t].(pc := if td then TearDown else Ready)]
      && n' == n.(threads := n'.threads, mu := None, out := Put(n.out, f.payload))
  {
    TwoSteps(n, t);
    BodyStep(n, t);
    UnlockStep(Step(n, t), t);
  }

  /** A goroutine with a frame to write writes it. */
  lemma WriteAlone(n: Net, t: nat)
    requires AllSound(n) && t < |n.threads| && n.threads[t].pc.Want? && n.mu == None
    ensures var f, td, n' := n.threads[t].pc.f, n.threads[t].pc.tearDown, Alone(n, t, 4);
      && AllSound(n') && Valid(f) && n'.threads == n.threads[t := n.threads[t].(pc := if td then TearDown else Ready)]
      && n' == n.(threads := n'.threads, out := Put(n.out, BytesOf(f)), log := n.log + [Entry(t, f)])
  {
    var f := n.threads[t].pc.f;
    assert Sound(n.threads[t]);
    LockAlone(n, t);
    AloneMore(n, t, 2, 2);
    UnlockAlone(Alone(n, t, 2), t);
    AloneMore(n, t, 4, 0);
    PutConcat(n.out, HeaderBytes(f.opcode, |f.payload|), f.payload);
  }

  /** What is left when thread t has done its next job undisturbed. */
  ghost predicate Served(n: Net, n': Net, t: nat)
    requires AllSound(n) && Quiet(n, t) && n.threads[t].jobs != []
  {
    assert Sound(n.threads[t]);
    && AllSound(n') && Quiet(n', t)
    && n'.threads == n.threads[t := Thread(Ready, n.threads[t].jobs[1..])]
    && LinkOf(n') == Serve(LinkOf(n), n.threads[t].jobs[0])
  }

  lemma OneStep(n: Net, t: nat)
    requires AllSound(n)
    ensures Alone(n, t, 1) == Step(n, t) && AllSound(Step(n, t))
  {
    StepSound(n, t);
    assert Alone(Step(n, t), t, 0) == Step(n, t);
  }

  /** Text, pong and reply are written, or the reply is held back. */
  lemma FrameAlone(n: Net, t: nat) returns (k: nat)
    requires AllSound(n) && Quiet(n, t) && n.threads[t].jobs != [] && !n.threads[t].jobs[0].CloseCall?
    ensures Served(n, Alone(n, t, k), t)
  {
    assert Sound(n.threads[t]);
    OneStep(n, t);
    k := 1;
    if n.threads[t].jobs[0].CloseReply? && n.closing {
      assert Alone(n, t, 1) == NextJob(n, t, Ready);
    } else {
      WriteAlone(Step(n, t), t);
      AloneMore(n, t, 1, 4);
      k := 5;
    }
  }

  /** The one that closes says goodbye where needed and closes the socket. */
  lemma CloseAlone(n: Net, t: nat) returns (k: nat)
    requires AllSound(n) && Quiet(n, t) && n.threads[t].jobs != [] && n.threads[t].jobs[0].CloseCall?
    ensures Served(n, Alone(n, t, k), t)
  {
    assert Sound(n.threads[t]);
    OneStep(n, t);
    k := 1;
    if n.once.Used? {
      assert Alone(n, t, 1) == NextJob(n, t, Ready);
    } else {
      EnterAlone(n, t);
      var n1 := Alone(n, t, 2);
      AloneMore(n, t, 2, 0);
      if n.closing {
        LeaveAlone(n1, t);
        AloneMore(n, t, 2, 1);
        k := 3;
      } else {
        WriteAlone(n1, t);
        var n2 := Alone(n1, t, 4);
        LeaveAlone(n2, t);
        AloneMore(n1, t, 4, 1);
        AloneMore(n, t, 2, 5);
        k := 7;
      }
    }
  }

  lemma EnterAlone(n: Net, t: nat)
    requires AllSound(n) && Quiet(n, t) && n.threads[t].jobs != [] && n.threads[t].jobs[0].CloseCall? && n.once.Unused?
    ensures var pc, n' := if n.closing then TearDown else Want(Outgoing(CLOSE, []), true), Alone(n, t, 2);
      && n'.threads == n.threads[t := Thread(pc, n.threads[t].jobs[1..])]
      && n' == n.(threads := n'.threads, once := Running(t), closing := true)
  {
    TwoSteps(n, t);
  }

  lemma LeaveAlone(n: Net, t: nat)
    requires AllSound(n) && t < |n.threads| && n.threads[t].pc.TearDown?
    ensures var n' := Alone(n, t, 1);
      && AllSound(n') && n'.threads == n.threads[t := n.threads[t].(pc := Ready)]
      && n' == n.(threads := n'.threads, out := n.out.(accepts := 0), once := Used, closes := n.closes + 1)
  {
    OneStep(n, t);
  }

  /** A goroutine that does its next job undisturbed does just what Conn does for it. */
  lemma JobAlone(n: Net, t: nat) returns (k: nat)
    requires AllSound(n) && Quiet(n, t) && n.threads[t].jobs != []
    ensures Served(n, Alone(n, t, k), t)
  {
    if n.threads[t].jobs[0].CloseCall? {
      k := CloseAlone(n, t);
    } else {
      k := FrameAlone(n, t);
    }
  }

  // ---------------------------------------------------------------- a goodbye that was asked for

  predicate Asks(j: Job) {
    j.CloseReply? || j.CloseCall?
  }

  predicate AnyAsks(jobs: seq<Job>) {
    exists i :: 0 <= i < |jobs| && Asks(jobs[i])
  }

  predicate AnyCalls(jobs: seq<Job>) {
    exists i :: 0 <= i < |jobs| && jobs[i].CloseCall?
  }

  /** Of all that asked to close, each is still to come or was heard; and nothing closes unasked. */
  ghost predicate Heard(n: Net, programs: seq<seq<Job>>) {
    && |n.threads| == |programs|
    && (n.once.Used? ==> n.closing)
    && (forall t: nat :: t < |programs| ==> HeardOf(n, t, programs[t]))
    && (n.closing || n.once != Unused ==> SomeAsk(programs))
    && (n.once != Unused ==> SomeCall(programs))
  }

  /** Some goroutine answers a close frame or calls Close. */
  predicate SomeAsk(programs: seq<seq<Job>>) {
    exists t :: 0 <= t < |programs| && AnyAsks(programs[t])
  }

  predicate SomeCall(programs: seq<seq<Job>>) {
    exists t :: 0 <= t < |programs| && AnyCalls(programs[t])
  }

  predicate HeardOf(n: Net, t: nat, program: seq<Job>)
    requires t < |n.threads|
  {
    var jobs := n.threads[t].jobs;
    && (AnyAsks(program) ==> n.closing || n.once != Unused || AnyAsks(jobs))
    && (AnyCalls(program) ==> n.once != Unused || AnyCalls(jobs))
    && (AnyAsks(jobs) ==> AnyAsks(program)) && (AnyCalls(jobs) ==> AnyCalls(program))
    && (n.once == Running(t) ==> n.closing || n.threads[t].pc.InOnce?)
    && (n.threads[t].pc.InOnce? ==> n.once == Running(t))
  }

  /** Jobs are taken from the front. */
  lemma RestAsks(jobs: seq<Job>)
    requires jobs != []
    ensures AnyAsks(jobs) <==> Asks(jobs[0]) || AnyAsks(jobs[1..])
    ensures AnyCalls(jobs) <==> jobs[0].CloseCall? || AnyCalls(jobs[1..])
  {
    assert forall i :: 0 < i < |jobs| ==> jobs[i] == jobs[1..][i - 1];
  }

  /** What one step does to closing, closeOnce and the jobs. */
  ghost predicate CloseMove(n: Net, n': Net, t: nat)
    requires t < |n.threads|
  {
    && |n'.threads| == |n.threads| && n'.threads == n.threads[t := n'.threads[t]]
    && (n.closing ==> n'.closing)
    && var th, th' := n.threads[t], n'.threads[t];
      || (n'.closing == n.closing && n'.once == n.once && th'.jobs == th.jobs && (th'.pc.InOnce? <==> th.pc.InOnce?))
      || (th.jobs != [] && th'.jobs == th.jobs[1..] && TakesJob(n, n', t))
      || (th.pc.InOnce? && !th'.pc.InOnce? && n'.closing && n'.once == n.once && th'.jobs == th.jobs)
      || (th.pc.TearDown? && n'.once == Used && n'.closing == n.closing && th'.jobs == th.jobs && !th'.pc.InOnce?)
  }

  /** The first to close goes in; who comes when that is over finds nothing to do. */
  predicate EntersOnce(n: Net, n': Net, t: nat)
    requires t < |n'.threads|
  {
    if n.once == Unused then n'.once == Running(t) && n'.threads[t].pc.InOnce?
    else n.once == Used && n'.once == Used && !n'.threads[t].pc.InOnce?
  }

  predicate TakesJob(n: Net, n': Net, t: nat)
    requires t < |n.threads| && t < |n'.threads| && n.threads[t].jobs != []
  {
    var th, th', job := n.threads[t], n'.threads[t], n.threads[t].jobs[0];
    && !th.pc.InOnce?
    && (!Asks(job) ==> n'.closing == n.closing && n'.once == n.once && !th'.pc.InOnce?)
    && (job.CloseReply? ==> n'.closing && n'.once == n.once && !th'.pc.InOnce?)
    && (job.CloseCall? ==> n'.closing == n.closing && EntersOnce(n, n', t))
  }

  lemma JobMoves(n: Net, t: nat)
    requires t < |n.threads| && n.threads[t].pc.Ready? && n.threads[t].jobs != []
    ensures CloseMove(n, TakeJob(n, t), t)
  {
  }

  lemma StageMoves(n: Net, t: nat)
    requires AllSound(n) && t < |n.threads| && !n.threads[t].pc.Ready?
    ensures CloseMove(n, Step(n, t), t)
  {
  }

  lemma StepMoves(n: Net, t: nat)
    requires AllSound(n) && t < |n.threads|
    ensures CloseMove(n, Step(n, t), t)
  {
    if n.threads[t].pc.Ready? {
      if n.threads[t].jobs != [] {
        JobMoves(n, t);
      }
    } else {
      StageMoves(n, t);
    }
  }

  lemma StepHeardOf(n: Net, n': Net, t: nat, u: nat, program: seq<Job>)
    requires t < |n.threads| && u < |n.threads| && CloseMove(n, n', t) && HeardOf(n, u, program)
    requires n.threads[t].pc.TearDown? ==> n.once == Running(t)
    ensures HeardOf(n', u, program)
  {
    if n.threads[t].jobs != [] {
      RestAsks(n.threads[t].jobs);
    }
  }

  lemma StepHeard(n: Net, t: nat, programs: seq<seq<Job>>)
    requires AllSound(n) && OnceOk(n) && Heard(n, programs)
    ensures Heard(Step(n, t), programs)
  {
    if t < |n.threads| {
      var n' := Step(n, t);
      StepMoves(n, t);
      forall u: nat | u < |programs|
        ensures HeardOf(n', u, programs[u])
      {
        StepHeardOf(n, n', t, u, programs[u]);
      }
      assert HeardOf(n, t, programs[t]);
      if n.threads[t].jobs != [] {
        RestAsks(n.threads[t].jobs);
      }
    }
  }

  /** What every step keeps. */
  ghost predicate Orderly(n: Net, programs: seq<seq<Job>>) {
    Inv(n) && Heard(n, programs)
  }

  lemma StepOrderly(n: Net, t: nat, programs: seq<seq<Job>>)
    requires Orderly(n, programs)
    ensures Orderly(Step(n, t), programs)
  {
    StepKeeps(n, t);
    StepHeard(n, t, programs);
  }

  lemma {:induction false} RunOrderly(n: Net, schedule: seq<nat>, programs: seq<seq<Job>>)
    requires Orderly(n, programs)
    ensures Orderly(Run(n, schedule), programs)
    decreases |schedule|
  {
    if schedule != [] {
      StepOrderly(n, schedule[0], programs);
      RunOrderly(Step(n, schedule[0]), schedule[1..], programs);
    }
  }

  lemma BeginHeard(programs: seq<seq<Job>>, accepts: nat)
    requires ValidPrograms(programs)
    ensures Heard(Begin(programs, accepts), programs)
  {
  }

  /** The close frames begun and the sockets closed are what was asked for, at most once each. */
  ghost predicate SaidOnce(n: Net, programs: seq<seq<Job>>) {
    && LoggedCloses(n.log) == One(SomeAsk(programs)) && n.closes == One(SomeCall(programs))
    && (SomeCall(programs) ==> n.out.accepts == 0)
  }

  lemma DoneIsSaid(n: Net, programs: seq<seq<Job>>)
    requires Orderly(n, programs) && Done(n)
    ensures SaidOnce(n, programs)
  {
    NothingPending(n.threads);
    assert forall t: nat :: t < |n.threads| ==> !InClose(n.threads[t].pc);
    assert !AnyAsks([]) && !AnyCalls([]);
    if t :| 0 <= t < |programs| && AnyAsks(programs[t]) {
      assert HeardOf(n, t, programs[t]) && n.threads[t].jobs == [];
      assert n.closing;
    }
    if t :| 0 <= t < |programs| && AnyCalls(programs[t]) {
      assert HeardOf(n, t, programs[t]) && n.threads[t].jobs == [];
      assert n.once == Used;
    }
  }

  /**
   * In every interleaving a close frame goes out only if some goroutine answers one or calls Close, and the
   * socket is closed only if one calls Close; once all are done, each has happened exactly once if asked for.
   */
  lemma GoodbyeIsSaid(programs: seq<seq<Job>>, accepts: nat, schedule: seq<nat>)
    requires ValidPrograms(programs)
    ensures var n := Run(Begin(programs, accepts), schedule);
      && LoggedCloses(n.log) <= One(SomeAsk(programs)) && n.closes <= One(SomeCall(programs))
      && (Done(n) ==> SaidOnce(n, programs))
  {
    var n := Run(Begin(programs, accepts), schedule);
    BeginInv(programs, accepts);
    BeginHeard(programs, accepts);
    RunOrderly(Begin(programs, accepts), schedule, programs);
    if Done(n) {
      DoneIsSaid(n, programs);
    }
  }

  // ---------------------------------------------------------------- under every fair schedule

  function Turns(f: Schedule, k: nat): (turns: seq<nat>)
    ensures |turns| == k && forall i :: 0 <= i < k ==> turns[i] == f(i)
  {
    seq(k, i requires 0 <= i < k => f(i))
  }

  lemma {:induction false} RunThen(n: Net, schedule: seq<nat>, t: nat)
    requires AllSound(n)
    ensures AllSound(Run(n, schedule)) && Run(n, schedule + [t]) == Step(Run(n, schedule), t)
    decreases |schedule|
  {
    if schedule == [] {
      StepSound(n, t);
      assert [] + [t] == [t] && [t][1..] == [] && Run(Step(n, t), []) == Step(n, t);
    } else {
      StepSound(n, schedule[0]);
      assert (schedule + [t])[1..] == schedule[1..] + [t] && (schedule + [t])[0] == schedule[0];
      RunThen(Step(n, schedule[0]), schedule[1..], t);
    }
  }

  /** An endless schedule up to a moment is a schedule. */
  lemma {:induction false} UpToMoment(n: Net, f: Schedule, k: nat)
    requires AllSound(n)
    ensures NetAt(n, f, k) == Run(n, Turns(f, k))
    decreases k
  {
    if k > 0 {
      UpToMoment(n, f, k - 1);
      RunThen(n, Turns(f, k - 1), f(k - 1));
      assert Turns(f, k) == Turns(f, k - 1) + [f(k - 1)];
    }
  }

  /** Every fair schedule ends with the goodbye said and the socket closed once each, if asked for. */
  lemma FairGoodbye(programs: seq<seq<Job>>, accepts: nat, f: Schedule) returns (end: nat)
    requires ValidPrograms(programs) && FairTurns(f, |programs|)
    ensures forall m: nat :: m >= end ==> SaidOnce(NetAt(Begin(programs, accepts), f, m), programs)
  {
    end := FairEnds(programs, accepts, f);
    forall m: nat | m >= end
      ensures SaidOnce(NetAt(Begin(programs, accepts), f, m), programs)
    {
      assert AllWritten(NetAt(Begin(programs, accepts), f, m), programs);
      UpToMoment(Begin(programs, accepts), f, m);
      GoodbyeIsSaid(programs, accepts, Turns(f, m));
    }
  }
}
