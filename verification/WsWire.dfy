/**
 * The wire of one connection under any number of writers, the reader's replies and repeated Close
 * calls, interleaved step by step over writeMu, closing and closeOnce (RFC 6455 section 5.5.1).
 */
module WsWire {
  import opened Basics
  import opened WsFrames
  import opened WsConn

  /** What a goroutine asks of the connection. */
  datatype Job =
    | Text(payload: Bytes)         // WriteText
    | Pong(payload: Bytes)         // the reader answers a ping
    | CloseReply(payload: Bytes)   // the reader has read a close frame
    | CloseCall                    // Close

  predicate ValidJob(j: Job) {
    match j
    case Text(p) => |p| < 0x8000_0000_0000_0000
    case Pong(p) => |p| <= 125
    case CloseReply(p) => |p| <= 125
    case CloseCall => true
  }

  datatype Outgoing = Outgoing(opcode: Byte, payload: Bytes)

  predicate Valid(f: Outgoing) {
    f.opcode < 16 && |f.payload| < 0x8000_0000_0000_0000
  }

  datatype Pc =
    | Ready                                   // about to take the next job
    | InOnce                                  // inside closeOnce, about to swap closing
    | Want(f: Outgoing, tearDown: bool)       // about to lock writeMu
    | Locked(f: Outgoing, tearDown: bool)     // holds writeMu, about to write the header
    | HeaderOut(f: Outgoing, tearDown: bool)  // about to write the payload
    | BodyOut(f: Outgoing, tearDown: bool)    // about to unlock
    | TearDown                                // about to close the socket, still inside closeOnce

  datatype Thread = Thread(pc: Pc, jobs: seq<Job>)

  datatype Once = Unused | Running(t: nat) | Used

  /** A frame that a thread began to write, in the order of locking. */
  datatype Entry = Entry(t: nat, f: Outgoing)

  datatype Net = Net(
    threads: seq<Thread>, mu: Option<nat>, closing: bool, once: Once, out: Out, log: seq<Entry>, closes: nat)

  function GoTo(n: Net, t: nat, pc: Pc): Net
    requires t < |n.threads|
  {
    n.(threads := n.threads[t := n.threads[t].(pc := pc)])
  }

  function NextJob(n: Net, t: nat, pc: Pc): Net
    requires t < |n.threads| && n.threads[t].jobs != []
  {
    n.(threads := n.threads[t := Thread(pc, n.threads[t].jobs[1..])])
  }

  function TakeJob(n: Net, t: nat): Net
    requires t < |n.threads| && n.threads[t].jobs != []
  {
    match n.threads[t].jobs[0]
    case Text(p) => NextJob(n, t, Want(Outgoing(TEXT, p), false))
    case Pong(p) => NextJob(n, t, Want(Outgoing(PONG, p), false))
    case CloseReply(p) =>
      if n.closing then NextJob(n, t, Ready)
      else NextJob(n.(closing := true), t, Want(Outgoing(CLOSE, p), false))
    case CloseCall =>
      match n.once
      case Unused => NextJob(n.(once := Running(t)), t, InOnce)
      case Running(_) => n
      case Used => NextJob(n, t, Ready)
  }

  /** One step of thread t; a thread whose lock is taken stays where it is. */
  function Step(n: Net, t: nat): Net
    requires AllSound(n)
  {
    if t >= |n.threads| then n
    else
      match n.threads[t].pc
      case Ready => if n.threads[t].jobs == [] then n else TakeJob(n, t)
      case InOnce =>
        if n.closing then GoTo(n, t, TearDown)
        else GoTo(n.(closing := true), t, Want(Outgoing(CLOSE, []), true))
      case Want(f, td) => if n.mu.None? then GoTo(n.(mu := Some(t)), t, Locked(f, td)) else n
      case Locked(f, td) =>
        var out := Put(n.out, HeaderBytes(f.opcode, |f.payload|));
        GoTo(n.(out := out, log := n.log + [Entry(t, f)]), t, HeaderOut(f, td))
      case HeaderOut(f, td) => GoTo(n.(out := Put(n.out, f.payload)), t, BodyOut(f, td))
      case BodyOut(_, td) => GoTo(n.(mu := None), t, if td then TearDown else Ready)
      case TearDown => GoTo(n.(out := n.out.(accepts := 0), once := Used, closes := n.closes + 1), t, Ready)
  }

  predicate HasFrame(pc: Pc) {
    pc.Want? || pc.Locked? || pc.HeaderOut? || pc.BodyOut?
  }

  predicate Sound(th: Thread) {
    (HasFrame(th.pc) ==> Valid(th.pc.f)) && forall i :: 0 <= i < |th.jobs| ==> ValidJob(th.jobs[i])
  }

  ghost predicate AllSound(n: Net) {
    forall i :: 0 <= i < |n.threads| ==> Sound(n.threads[i])
  }

  lemma StepSound(n: Net, t: nat)
    requires AllSound(n)
    ensures AllSound(Step(n, t)) && |Step(n, t).threads| == |n.threads|
  {
    if t < |n.threads| {
      assert Sound(n.threads[t]);
      if n.threads[t].pc.Ready? {
        if n.threads[t].jobs != [] {
          JobSound(n, t);
        }
      } else {
        StageSound(n, t);
      }
    }
  }

  /** Only thread t moved, and it is sound. */
  ghost predicate SoundMove(n: Net, n': Net, t: nat)
    requires t < |n.threads|
  {
    |n'.threads| == |n.threads| && n'.threads == n.threads[t := n'.threads[t]] && Sound(n'.threads[t])
  }

  lemma JobSound(n: Net, t: nat)
    requires t < |n.threads| && Sound(n.threads[t]) && n.threads[t].jobs != []
    ensures SoundMove(n, TakeJob(n, t), t)
  {
    assert ValidJob(n.threads[t].jobs[0]);
  }

  lemma StageSound(n: Net, t: nat)
    requires AllSound(n) && t < |n.threads| && Sound(n.threads[t]) && !n.threads[t].pc.Ready?
    ensures SoundMove(n, Step(n, t), t)
  {
  }

  function Run(n: Net, schedule: seq<nat>): Net
    requires AllSound(n)
    decreases |schedule|
  {
    if schedule == [] then n
    else
      StepSound(n, schedule[0]);
      Run(Step(n, schedule[0]), schedule[1..])
  }

  predicate ValidPrograms(programs: seq<seq<Job>>) {
    forall t, i :: 0 <= t < |programs| && 0 <= i < |programs[t]| ==> ValidJob(programs[t][i])
  }

  /** Any number of goroutines on a socket that will take any number of bytes. */
  function Begin(programs: seq<seq<Job>>, accepts: nat): (n: Net)
    requires ValidPrograms(programs)
    ensures AllSound(n)
  {
    Net(seq(|programs|, i requires 0 <= i < |programs| => Thread(Ready, programs[i])),
        None, false, Unused, Out([], accepts, false), [], 0)
  }

  // ---------------------------------------------------------------- the wire

  predicate ValidLog(log: seq<Entry>) {
    forall i :: 0 <= i < |log| ==> Valid(log[i].f)
  }

  function BytesOf(f: Outgoing): Bytes
    requires Valid(f)
  {
    ServerFrame(f.opcode, f.payload)
  }

  function HeaderOf(f: Outgoing): Bytes
    requires Valid(f)
  {
    HeaderBytes(f.opcode, |f.payload|)
  }

  function Frames(log: seq<Entry>): Bytes
    requires ValidLog(log)
    decreases |log|
  {
    if log == [] then []
    else
      assert Valid(log[|log| - 1].f);
      Frames(log[..|log| - 1]) + BytesOf(log[|log| - 1].f)
  }

  predicate HoldsMu(pc: Pc) {
    pc.Locked? || pc.HeaderOut? || pc.BodyOut?
  }

  /** The holder of writeMu has written a header and no payload yet. */
  predicate MidFrame(n: Net) {
    n.mu.Some? && n.mu.value < |n.threads| && n.threads[n.mu.value].pc.HeaderOut?
  }

  /** Everything given to the writer so far. */
  function Given(n: Net): Bytes
    requires ValidLog(n.log) && (MidFrame(n) ==> n.log != [])
  {
    if MidFrame(n) then
      var k := |n.log| - 1;
      assert Valid(n.log[k].f);
      Frames(n.log[..k]) + HeaderOf(n.log[k].f)
    else Frames(n.log)
  }

  ghost predicate Mutex(n: Net) {
    && (n.mu.Some? ==> n.mu.value < |n.threads|)
    && (forall t: nat :: t < |n.threads| ==> (HoldsMu(n.threads[t].pc) <==> n.mu == Some(t)))
  }

  ghost predicate WireOk(n: Net) {
    && ValidLog(n.log)
    && (MidFrame(n) ==> n.log != [] && n.log[|n.log| - 1] == Entry(n.mu.value, n.threads[n.mu.value].pc.f))
    && n.out.wire <= Given(n) && (!n.out.broken ==> n.out.wire == Given(n))
  }

  lemma StepMutex(n: Net, t: nat)
    requires AllSound(n) && Mutex(n)
    ensures Mutex(Step(n, t))
  {
  }

  /** A write keeps the wire a prefix of what was given, and all of it while nothing failed. */
  lemma PutPrefix(o: Out, given: Bytes, p: Bytes)
    requires o.wire <= given && (!o.broken ==> o.wire == given)
    ensures var o' := Put(o, p); o'.wire <= given + p && (!o'.broken ==> o'.wire == given + p)
  {
    if !o.broken && |p| > o.accepts {
      assert (given + p)[..|given| + o.accepts] == given + p[..o.accepts];
    }
  }

  /** Only a thread that holds writeMu and has a frame to write touches the wire or the log. */
  lemma OtherSteps(n: Net, t: nat)
    requires AllSound(n) && t < |n.threads| && !n.threads[t].pc.Locked? && !n.threads[t].pc.HeaderOut?
    ensures var n' := Step(n, t);
      && |n'.threads| == |n.threads| && n'.threads == n.threads[t := n'.threads[t]]
      && !n'.threads[t].pc.HeaderOut? && (!n'.threads[t].pc.Locked? ==> n'.mu != Some(t) || n'.mu == n.mu)
      && (n'.mu != n.mu ==> n'.mu == None || n'.mu == Some(t))
      && n'.log == n.log && n'.out.wire == n.out.wire && n'.out.broken == n.out.broken
  {
  }

  lemma OtherWire(n: Net, t: nat)
    requires AllSound(n) && Mutex(n) && WireOk(n) && t < |n.threads|
    requires !n.threads[t].pc.Locked? && !n.threads[t].pc.HeaderOut?
    ensures WireOk(Step(n, t))
  {
    OtherSteps(n, t);
    StepMutex(n, t);
    var n' := Step(n, t);
    if MidFrame(n) {
      var h := n.mu.value;
      assert h != t && n'.threads[h] == n.threads[h] && HoldsMu(n'.threads[h].pc);
      assert n'.mu == n.mu;
    } else {
      assert !MidFrame(n');
    }
  }

  lemma HeaderWire(n: Net, t: nat)
    requires AllSound(n) && Mutex(n) && WireOk(n) && t < |n.threads| && n.threads[t].pc.Locked?
    ensures WireOk(Step(n, t))
  {
    var n', f := Step(n, t), n.threads[t].pc.f;
    assert Sound(n.threads[t]) && n.mu == Some(t);
    assert n'.log[..|n.log|] == n.log;
    PutPrefix(n.out, Frames(n.log), HeaderOf(f));
  }

  lemma BodyWire(n: Net, t: nat)
    requires AllSound(n) && Mutex(n) && WireOk(n) && t < |n.threads| && n.threads[t].pc.HeaderOut?
    ensures WireOk(Step(n, t))
  {
    assert n.mu == Some(t) && MidFrame(n) && !MidFrame(Step(n, t));
    PutPrefix(n.out, Given(n), n.threads[t].pc.f.payload);
    BodyCompletes(n.log);
  }

  lemma StepWire(n: Net, t: nat)
    requires AllSound(n) && Mutex(n) && WireOk(n)
    ensures WireOk(Step(n, t))
  {
    if t < |n.threads| {
      if n.threads[t].pc.Locked? {
        HeaderWire(n, t);
      } else if n.threads[t].pc.HeaderOut? {
        BodyWire(n, t);
      } else {
        OtherWire(n, t);
      }
    }
  }

  lemma BodyCompletes(log: seq<Entry>)
    requires log != [] && ValidLog(log)
    ensures var k := |log| - 1;
      Valid(log[k].f) && Frames(log) == Frames(log[..k]) + HeaderOf(log[k].f) + log[k].f.payload
  {
    var k := |log| - 1;
    assert Valid(log[k].f);
    Assoc(Frames(log[..k]), HeaderOf(log[k].f), log[k].f.payload);
  }

  // ---------------------------------------------------------------- close frames

  function One(b: bool): nat {
    if b then 1 else 0
  }

  /** Close frames still to come from a thread. */
  predicate ClosePending(pc: Pc) {
    (pc.Want? || pc.Locked?) && pc.f.opcode == CLOSE
  }

  function PendingCloses(threads: seq<Thread>): nat
    decreases |threads|
  {
    if threads == [] then 0 else One(ClosePending(threads[0].pc)) + PendingCloses(threads[1..])
  }

  function LoggedCloses(log: seq<Entry>): nat
    decreases |log|
  {
    if log == [] then 0 else LoggedCloses(log[..|log| - 1]) + One(log[|log| - 1].f.opcode == CLOSE)
  }

  lemma {:induction false} PendingUpdate(threads: seq<Thread>, t: nat, th: Thread)
    requires t < |threads|
    ensures PendingCloses(threads[t := th]) + One(ClosePending(threads[t].pc))
         == PendingCloses(threads) + One(ClosePending(th.pc))
    decreases t
  {
    if t == 0 {
      assert threads[t := th][1..] == threads[1..];
    } else {
      assert threads[t := th][1..] == threads[1..][t - 1 := th];
      PendingUpdate(threads[1..], t - 1, th);
    }
  }

  /** closing says just whether the one close frame is out or on its way. */
  ghost predicate OneClose(n: Net) {
    LoggedCloses(n.log) + PendingCloses(n.threads) == One(n.closing)
  }

  /** What a step adds: to the log, to the close frames on their way, and to closing. */
  lemma StepCloses(n: Net, t: nat)
    requires AllSound(n) && t < |n.threads|
    ensures var n', pc := Step(n, t), n.threads[t].pc;
      && |n'.threads| == |n.threads| && n'.threads == n.threads[t := n'.threads[t]]
      && n'.log == (if pc.Locked? then n.log + [Entry(t, pc.f)] else n.log)
      && One(ClosePending(n'.threads[t].pc)) + One(pc.Locked? && pc.f.opcode == CLOSE) + One(n.closing)
         == One(ClosePending(pc)) + One(n'.closing)
  {
  }

  lemma StepOneClose(n: Net, t: nat)
    requires AllSound(n) && OneClose(n)
    ensures OneClose(Step(n, t))
  {
    if t < |n.threads| {
      var n' := Step(n, t);
      StepCloses(n, t);
      PendingUpdate(n.threads, t, n'.threads[t]);
      assert n.threads[t].pc.Locked? ==> n'.log[..|n'.log| - 1] == n.log;
    }
  }

  // ---------------------------------------------------------------- closeOnce

  predicate InClose(pc: Pc) {
    pc.InOnce? || pc.TearDown? || (HasFrame(pc) && pc.tearDown)
  }

  /** One thread at a time is inside closeOnce, and the socket is closed once it has left. */
  ghost predicate OnceOk(n: Net) {
    && (forall t: nat :: t < |n.threads| ==> (InClose(n.threads[t].pc) <==> n.once == Running(t)))
    && (n.once.Running? ==> n.once.t < |n.threads|)
    && n.closes == One(n.once.Used?)
    && (n.once.Used? ==> n.out.accepts == 0)
  }

  /** A step leaves closeOnce alone, enters it when it was unused, or leaves it with the socket closed. */
  ghost predicate OnceMove(n: Net, n': Net, t: nat)
    requires t < |n.threads|
  {
    && |n'.threads| == |n.threads| && n'.threads == n.threads[t := n'.threads[t]]
    && n'.out.accepts <= n.out.accepts
    && var was, still := InClose(n.threads[t].pc), InClose(n'.threads[t].pc);
      || (n'.once == n.once && n'.closes == n.closes && still == was)
      || (n.once == Unused && n'.once == Running(t) && n'.closes == n.closes && still)
      || (n.once == Running(t) && n'.once == Used && n'.closes == n.closes + 1 && n'.out.accepts == 0 && !still)
  }

  lemma JobOnce(n: Net, t: nat)
    requires t < |n.threads| && n.threads[t].pc.Ready? && n.threads[t].jobs != []
    ensures OnceMove(n, TakeJob(n, t), t)
  {
  }

  lemma StageOnce(n: Net, t: nat)
    requires AllSound(n) && t < |n.threads| && !n.threads[t].pc.Ready?
    requires n.threads[t].pc.TearDown? ==> n.once == Running(t)
    ensures OnceMove(n, Step(n, t), t)
  {
  }

  lemma OnceMoves(n: Net, t: nat)
    requires AllSound(n) && t < |n.threads| && (n.threads[t].pc.TearDown? ==> n.once == Running(t))
    ensures OnceMove(n, Step(n, t), t)
  {
    if n.threads[t].pc.Ready? {
      if n.threads[t].jobs != [] {
        JobOnce(n, t);
      }
    } else {
      StageOnce(n, t);
    }
  }

  lemma StepOnce(n: Net, t: nat)
    requires AllSound(n) && OnceOk(n)
    ensures OnceOk(Step(n, t))
  {
    if t < |n.threads| {
      OnceMoves(n, t);
    }
  }

  // ---------------------------------------------------------------- runs

  ghost predicate Inv(n: Net) {
    AllSound(n) && Mutex(n) && WireOk(n) && OneClose(n) && OnceOk(n)
  }

  lemma {:induction false} NothingPending(threads: seq<Thread>)
    requires forall t :: 0 <= t < |threads| ==> threads[t].pc == Ready
    ensures PendingCloses(threads) == 0
    decreases |threads|
  {
    if threads != [] {
      NothingPending(threads[1..]);
    }
  }

  lemma BeginInv(programs: seq<seq<Job>>, accepts: nat)
    requires ValidPrograms(programs)
    ensures Inv(Begin(programs, accepts))
  {
    NothingPending(Begin(programs, accepts).threads);
  }

  lemma StepKeeps(n: Net, t: nat)
    requires Inv(n)
    ensures Inv(Step(n, t))
  {
    StepSound(n, t);
    StepMutex(n, t);
    StepWire(n, t);
    StepOneClose(n, t);
    StepOnce(n, t);
  }

  lemma {:induction false} RunKeeps(n: Net, schedule: seq<nat>)
    requires Inv(n)
    ensures Inv(Run(n, schedule))
    decreases |schedule|
  {
    if schedule != [] {
      StepKeeps(n, schedule[0]);
      RunKeeps(Step(n, schedule[0]), schedule[1..]);
    }
  }

  lemma Beyond(a: Bytes, b: Bytes, wire: Bytes)
    requires wire <= a + b && wire != a + b && |a| <= |wire|
    ensures wire == a + wire[|a|..] && wire[|a|..] < b
  {
    assert wire == (a + b)[..|wire|];
  }

  /** A prefix of a row of frames is whole frames and at most one cut one. */
  lemma {:induction false} PrefixIsFrames(log: seq<Entry>, wire: Bytes) returns (k: nat, cut: Bytes)
    requires ValidLog(log) && wire <= Frames(log)
    ensures k <= |log| && wire == Frames(log[..k]) + cut
    ensures k == |log| ==> cut == []
    ensures k < |log| ==> cut < BytesOf(log[k].f)
    decreases |log|
  {
    if wire == Frames(log) {
      k, cut := |log|, [];
      assert log[..k] == log;
    } else {
      var m := |log| - 1;
      var before := Frames(log[..m]);
      if |wire| < |before| {
        k, cut := PrefixIsFrames(log[..m], wire);
        assert log[..m][..k] == log[..k];
      } else {
        k, cut := m, wire[|before|..];
        Beyond(before, BytesOf(log[m].f), wire);
      }
    }
  }

  /**
   * In every interleaving the wire is a row of whole frames in the order of locking, followed by at
   * most one cut frame; it is cut only where a write failed or a frame is being written; and at
   * most one close frame is ever begun.
   */
  lemma WireIsFrames(programs: seq<seq<Job>>, accepts: nat, schedule: seq<nat>) returns (k: nat, cut: Bytes)
    requires ValidPrograms(programs)
    ensures var n := Run(Begin(programs, accepts), schedule);
      && ValidLog(n.log) && k <= |n.log| && n.out.wire == Frames(n.log[..k]) + cut
      && (k == |n.log| ==> cut == [])
      && (k < |n.log| ==> cut < BytesOf(n.log[k].f))
      && (k < |n.log| && !n.out.broken ==> k == |n.log| - 1 && MidFrame(n))
      && LoggedCloses(n.log) <= 1 && n.closes <= 1
  {
    BeginInv(programs, accepts);
    RunKeeps(Begin(programs, accepts), schedule);
    var n := Run(Begin(programs, accepts), schedule);
    k, cut := WireCut(n);
  }

  lemma WireWithin(n: Net)
    requires Inv(n)
    ensures n.out.wire <= Frames(n.log)
  {
    if MidFrame(n) {
      BodyCompletes(n.log);
    }
  }

  lemma WireCut(n: Net) returns (k: nat, cut: Bytes)
    requires Inv(n)
    ensures k <= |n.log| && n.out.wire == Frames(n.log[..k]) + cut
    ensures k == |n.log| ==> cut == []
    ensures k < |n.log| ==> Valid(n.log[k].f) && cut < BytesOf(n.log[k].f)
    ensures k < |n.log| && !n.out.broken ==> k == |n.log| - 1 && MidFrame(n)
  {
    if n.out.broken {
      WireWithin(n);
      k, cut := PrefixIsFrames(n.log, n.out.wire);
    } else if MidFrame(n) && n.log[|n.log| - 1].f.payload != [] {
      k := |n.log| - 1;
      cut := HeaderOf(n.log[k].f);
    } else {
      k, cut := |n.log|, [];
      assert n.log[..k] == n.log;
      if MidFrame(n) {
        BodyCompletes(n.log);
      }
    }
  }

  // ---------------------------------------------------------------- what the client reads

  /** n successive frames of a strict client, as long as they are whole. */
  function ClientMany(s: Bytes, n: nat): (seq<Frame>, Bytes)
    decreases n
  {
    if n == 0 then ([], s)
    else
      match ClientParse(s)
      case Refused => ([], s)
      case Delivered(f, rest) =>
        var (more, rest') := ClientMany(rest, n - 1);
        ([f] + more, rest')
  }

  function FramesOf(log: seq<Entry>): (fs: seq<Frame>)
    ensures |fs| == |log| && forall i :: 0 <= i < |log| ==> fs[i] == Frame(true, log[i].f.opcode, log[i].f.payload)
  {
    seq(|log|, i requires 0 <= i < |log| => Frame(true, log[i].f.opcode, log[i].f.payload))
  }

  lemma {:induction false} FramesConcat(a: seq<Entry>, b: seq<Entry>)
    requires ValidLog(a) && ValidLog(b)
    ensures Frames(a + b) == Frames(a) + Frames(b)
    decreases |b|
  {
    if b == [] {
      assert a + b == a;
    } else {
      var k := |b| - 1;
      assert (a + b)[..|a + b| - 1] == a + b[..k];
      FramesConcat(a, b[..k]);
      Assoc(Frames(a), Frames(b[..k]), BytesOf(b[k].f));
    }
  }

  lemma FirstOfLog(log: seq<Entry>, cut: Bytes)
    requires ValidLog(log) && log != []
    ensures Valid(log[0].f) && Frames(log) + cut == BytesOf(log[0].f) + (Frames(log[1..]) + cut)
  {
    assert log == [log[0]] + log[1..] && [log[0]][..0] == [];
    FramesConcat([log[0]], log[1..]);
    assert Frames([log[0]]) == BytesOf(log[0].f);
    Assoc(BytesOf(log[0].f), Frames(log[1..]), cut);
  }

  lemma ClientOneMore(s: Bytes, f: Frame, rest: Bytes, n: nat, more: seq<Frame>, cut: Bytes, all: seq<Frame>)
    requires ClientParse(s) == Delivered(f, rest) && ClientMany(rest, n) == (more, cut) && all == [f] + more
    ensures ClientMany(s, n + 1) == (all, cut)
  {
  }

  lemma FirstIsRead(log: seq<Entry>, cut: Bytes) returns (f: Frame)
    requires ValidLog(log) && log != []
    ensures f == Frame(true, log[0].f.opcode, log[0].f.payload)
    ensures ClientParse(Frames(log) + cut) == Delivered(f, Frames(log[1..]) + cut)
  {
    f := Frame(true, log[0].f.opcode, log[0].f.payload);
    FirstOfLog(log, cut);
    ClientReadsEntry(log[0].f, Frames(log) + cut, Frames(log[1..]) + cut);
  }

  lemma ClientReadsEntry(f: Outgoing, s: Bytes, rest: Bytes)
    requires Valid(f) && s == BytesOf(f) + rest
    ensures ClientParse(s) == Delivered(Frame(true, f.opcode, f.payload), rest)
  {
    ClientReads(f.opcode, f.payload, rest);
  }

  lemma {:induction false} ClientReadsLog(log: seq<Entry>, cut: Bytes)
    requires ValidLog(log)
    ensures ClientMany(Frames(log) + cut, |log|) == (FramesOf(log), cut)
    decreases |log|
  {
    if log == [] {
      assert [] + cut == cut;
    } else {
      ClientReadsLog(log[1..], cut);
      ClientReadsFirst(log, log[1..], cut);
    }
  }

  lemma ClientReadsFirst(log: seq<Entry>, rest: seq<Entry>, cut: Bytes)
    requires ValidLog(log) && log != [] && rest == log[1..]
    requires ClientMany(Frames(rest) + cut, |rest|) == (FramesOf(rest), cut)
    ensures ClientMany(Frames(log) + cut, |log|) == (FramesOf(log), cut)
  {
    var f := FirstIsRead(log, cut);
    FramesOfFirst(log, rest, f);
    var s, s', n := Frames(log) + cut, Frames(rest) + cut, |rest|;
    ClientOneMore(s, f, s', n, FramesOf(rest), cut, FramesOf(log));
  }

  lemma FramesOfFirst(log: seq<Entry>, rest: seq<Entry>, f: Frame)
    requires log != [] && rest == log[1..] && f == Frame(true, log[0].f.opcode, log[0].f.payload)
    ensures FramesOf(log) == [f] + FramesOf(rest)
  {
  }

  /**
   * A strict client reads from the wire exactly the frames begun first to last, except the one that
   * was cut, if any; at most one of them is a close frame.
   */
  lemma ClientSeesFrames(programs: seq<seq<Job>>, accepts: nat, schedule: seq<nat>) returns (k: nat, cut: Bytes)
    requires ValidPrograms(programs)
    ensures var n := Run(Begin(programs, accepts), schedule);
      k <= |n.log| && ClientMany(n.out.wire, k) == (FramesOf(n.log[..k]), cut) && LoggedCloses(n.log[..k]) <= 1
  {
    k, cut := WireIsFrames(programs, accepts, schedule);
    var n := Run(Begin(programs, accepts), schedule);
    ClientReadsLog(n.log[..k], cut);
    ClosesUpTo(n.log, k);
  }

  lemma {:induction false} ClosesUpTo(log: seq<Entry>, k: nat)
    requires k <= |log|
    ensures LoggedCloses(log[..k]) <= LoggedCloses(log)
    decreases |log|
  {
    if k == |log| {
      assert log[..k] == log;
    } else {
      ClosesUpTo(log[..|log| - 1], k);
      assert log[..|log| - 1][..k] == log[..k];
    }
  }

  // ---------------------------------------------------------------- every write, once and in order

  /** The text and pong frames of a list of jobs. */
  function DataJobs(jobs: seq<Job>): seq<Outgoing>
    decreases |jobs|
  {
    if jobs == [] then []
    else
      (match jobs[0]
       case Text(p) => [Outgoing(TEXT, p)]
       case Pong(p) => [Outgoing(PONG, p)]
       case CloseReply(_) => []
       case CloseCall => []) + DataJobs(jobs[1..])
  }

  function DataPending(pc: Pc): seq<Outgoing> {
    if (pc.Want? || pc.Locked?) && pc.f.opcode != CLOSE then [pc.f] else []
  }

  /** The frames of thread t in the log that are not close frames. */
  function DataLog(log: seq<Entry>, t: nat): seq<Outgoing>
    decreases |log|
  {
    if log == [] then []
    else
      var e := log[|log| - 1];
      DataLog(log[..|log| - 1], t) + (if e.t == t && e.f.opcode != CLOSE then [e.f] else [])
  }

  ghost predicate InOrder(n: Net, programs: seq<seq<Job>>) {
    |n.threads| == |programs| && forall t: nat :: t < |programs| ==>
      DataLog(n.log, t) + (DataPending(n.threads[t].pc) + DataJobs(n.threads[t].jobs)) == DataJobs(programs[t])
  }

  /** A step moves one frame from the jobs to the pending ones, or from there to the log, or none. */
  lemma StepData(n: Net, t: nat)
    requires AllSound(n) && t < |n.threads|
    ensures DataMoves(n, Step(n, t), t)
  {
    if n.threads[t].pc.Ready? {
      if n.threads[t].jobs != [] {
        JobData(n, t);
      }
    } else {
      OtherData(n, t);
    }
  }

  ghost predicate DataMoves(n: Net, n': Net, t: nat)
    requires t < |n.threads|
  {
    && |n'.threads| == |n.threads| && n'.threads == n.threads[t := n'.threads[t]]
    && var th, th' := n.threads[t], n'.threads[t];
      if th.pc.Locked? then
        n'.log == n.log + [Entry(t, th.pc.f)] && th'.jobs == th.jobs && DataPending(th'.pc) == []
      else
        n'.log == n.log && DataPending(th'.pc) + DataJobs(th'.jobs) == DataPending(th.pc) + DataJobs(th.jobs)
  }

  lemma JobData(n: Net, t: nat)
    requires t < |n.threads| && n.threads[t].pc.Ready? && n.threads[t].jobs != []
    ensures DataMoves(n, TakeJob(n, t), t)
  {
    assert [] + DataJobs(n.threads[t].jobs) == DataJobs(n.threads[t].jobs);
  }

  lemma OtherData(n: Net, t: nat)
    requires AllSound(n) && t < |n.threads| && !n.threads[t].pc.Ready?
    ensures var n', th := Step(n, t), n.threads[t];
      && |n'.threads| == |n.threads| && n'.threads == n.threads[t := n'.threads[t]] && n'.threads[t].jobs == th.jobs
      && n'.log == (if th.pc.Locked? then n.log + [Entry(t, th.pc.f)] else n.log)
      && DataPending(n'.threads[t].pc) == if th.pc.Locked? then [] else DataPending(th.pc)
  {
  }

  lemma StepInOrder(n: Net, t: nat, programs: seq<seq<Job>>)
    requires AllSound(n) && InOrder(n, programs)
    ensures InOrder(Step(n, t), programs)
  {
    if t < |n.threads| {
      StepData(n, t);
      var n', pc := Step(n, t), n.threads[t].pc;
      if pc.Locked? {
        assert n'.log[..|n.log|] == n.log;
        forall u: nat | u < |programs|
          ensures DataLog(n'.log, u) + (DataPending(n'.threads[u].pc) + DataJobs(n'.threads[u].jobs))
               == DataJobs(programs[u])
        {
          LogMoves(n, n', t, u);
        }
      }
    }
  }

  lemma LogMoves(n: Net, n': Net, t: nat, u: nat)
    requires t < |n.threads| && u < |n.threads| && n.threads[t].pc.Locked?
    requires |n'.threads| == |n.threads| && n'.threads == n.threads[t := n'.threads[t]]
    requires n'.log == n.log + [Entry(t, n.threads[t].pc.f)]
    requires n'.threads[t].jobs == n.threads[t].jobs && DataPending(n'.threads[t].pc) == []
    ensures DataLog(n'.log, u) + (DataPending(n'.threads[u].pc) + DataJobs(n'.threads[u].jobs))
         == DataLog(n.log, u) + (DataPending(n.threads[u].pc) + DataJobs(n.threads[u].jobs))
  {
    assert n'.log[..|n.log|] == n.log;
    if u == t {
      var d, p, j := DataLog(n.log, u), DataPending(n.threads[u].pc), DataJobs(n.threads[u].jobs);
      assert DataLog(n'.log, u) == d + p;
      assert d + p + ([] + j) == d + (p + j);
    } else {
      assert DataLog(n'.log, u) == DataLog(n.log, u) + [] == DataLog(n.log, u);
    }
  }

  lemma {:induction false} RunInOrder(n: Net, schedule: seq<nat>, programs: seq<seq<Job>>)
    requires AllSound(n) && InOrder(n, programs)
    ensures InOrder(Run(n, schedule), programs)
    decreases |schedule|
  {
    if schedule != [] {
      StepSound(n, schedule[0]);
      StepInOrder(n, schedule[0], programs);
      RunInOrder(Step(n, schedule[0]), schedule[1..], programs);
    }
  }

  lemma BeginInOrder(programs: seq<seq<Job>>, accepts: nat)
    requires ValidPrograms(programs)
    ensures InOrder(Begin(programs, accepts), programs)
  {
    var n0 := Begin(programs, accepts);
    forall u: nat | u < |programs|
      ensures DataLog(n0.log, u) + (DataPending(n0.threads[u].pc) + DataJobs(n0.threads[u].jobs))
           == DataJobs(programs[u])
    {
      assert [] + ([] + DataJobs(programs[u])) == DataJobs(programs[u]);
    }
  }

  /**
   * What a goroutine has begun to send is always the first part of its texts and pongs, in its own
   * order; once it is done, it is all of them, each once.
   */
  lemma EveryWriteOnce(programs: seq<seq<Job>>, accepts: nat, schedule: seq<nat>, t: nat)
    requires ValidPrograms(programs) && t < |programs|
    ensures var n := Run(Begin(programs, accepts), schedule);
      && |n.threads| == |programs| && DataLog(n.log, t) <= DataJobs(programs[t])
      && (n.threads[t] == Thread(Ready, []) ==> DataLog(n.log, t) == DataJobs(programs[t]))
  {
    var n0 := Begin(programs, accepts);
    BeginInOrder(programs, accepts);
    RunInOrder(n0, schedule, programs);
    var n := Run(n0, schedule);
    assert DataLog(n.log, t) + (DataPending(n.threads[t].pc) + DataJobs(n.threads[t].jobs)) == DataJobs(programs[t]);
  }

  // ---------------------------------------------------------------- progress

  lemma HolderSteps(n: Net, t: nat)
    requires AllSound(n) && t < |n.threads| && HoldsMu(n.threads[t].pc)
    ensures Step(n, t).threads[t].pc != n.threads[t].pc
  {
  }

  lemma CloserSteps(n: Net, t: nat)
    requires AllSound(n) && t < |n.threads| && n.mu.None? && InClose(n.threads[t].pc)
    ensures Step(n, t).threads[t].pc != n.threads[t].pc
  {
  }

  lemma IdleSteps(n: Net, t: nat)
    requires AllSound(n) && t < |n.threads| && n.mu.None? && !n.once.Running? && n.threads[t] != Thread(Ready, [])
    ensures Step(n, t).threads[t] != n.threads[t]
  {
  }

  /** Unless all are done, some goroutine can step: who holds writeMu waits for nothing. */
  lemma SomeoneSteps(n: Net) returns (t: nat)
    requires Inv(n) && exists i :: 0 <= i < |n.threads| && n.threads[i] != Thread(Ready, [])
    ensures t < |n.threads| && Step(n, t) != n
  {
    if n.mu.Some? {
      t := n.mu.value;
      HolderSteps(n, t);
    } else if n.once.Running? {
      t := n.once.t;
      CloserSteps(n, t);
    } else {
      t :| t < |n.threads| && n.threads[t] != Thread(Ready, []);
      IdleSteps(n, t);
    }
  }
}
