/** The reader's side of a terminal session: what it takes out of its channel, and what leaving means. */
module TerminalReaders {
  import opened Terminal
  import opened TerminalLaws

  // ---------------------------------------------------------------- what a reader takes

  /** What a receive hands to the reader of a channel: the oldest chunk that waits, if any. */
  function Taken(s: Session, op: Op, ch: nat): seq<string> {
    if op == Receive(ch) && ch < |s.chans| && s.chans[ch].queue != [] then [s.chans[ch].queue[0]] else []
  }

  function AllTaken(s: Session, ops: seq<Op>, ch: nat): seq<string>
    decreases |ops|
  {
    if ops == [] then [] else Taken(s, ops[0], ch) + AllTaken(Apply(s, ops[0]), ops[1..], ch)
  }

  /** Between two states of a channel the reader took some chunks off the front, and got was put in behind. */
  predicate Handed(c: Chan, c': Chan, taken: seq<string>, got: seq<string>) {
    taken + c'.queue == c.queue + got && c'.sent == c.sent + got
  }

  lemma HandedThen(c: Chan, c1: Chan, c2: Chan, a: seq<string>, gotA: seq<string>, b: seq<string>, gotB: seq<string>)
    requires Handed(c, c1, a, gotA) && Handed(c1, c2, b, gotB)
    ensures Handed(c, c2, a + b, gotA + gotB)
  {
    calc {
      a + b + c2.queue;
      a + (b + c2.queue);
      a + (c1.queue + gotB);
      a + c1.queue + gotB;
      c.queue + gotA + gotB;
      c.queue + (gotA + gotB);
    }
    assert c.sent + gotA + gotB == c.sent + (gotA + gotB);
  }

  lemma OfferHands(c: Chan, line: string) returns (got: seq<string>)
    ensures Handed(c, Offer(c, line), [], got)
  {
    got := if !c.closed && |c.queue| < QUEUE_SIZE then [line] else [];
    assert [] + Offer(c, line).queue == c.queue + got;
    assert c.sent + [] == c.sent;
  }

  lemma EmitHands(s: Session, line: string, ch: nat) returns (got: seq<string>)
    requires ch < |s.chans|
    ensures Handed(s.chans[ch], Emit(s, line).chans[ch], [], got)
  {
    got := [];
    if ch in s.subs {
      got := OfferHands(s.chans[ch], line);
    } else {
      NothingHanded(s.chans[ch]);
    }
  }

  lemma NothingHanded(c: Chan)
    ensures Handed(c, c, [], []) && Handed(c, Shut(c), [], [])
  {
    assert [] + c.queue == c.queue + [] && c.sent + [] == c.sent;
  }

  lemma PendingHands(s: Session, ch: nat) returns (got: seq<string>)
    requires ch < |s.chans|
    ensures Handed(s.chans[ch], EmitPending(s).chans[ch], [], got)
  {
    got := [];
    NothingHanded(s.chans[ch]);
    if s.pending != "" {
      got := EmitHands(s, s.pending, ch);
    }
  }

  lemma BroadcastHands(s: Session, line: string, ch: nat) returns (got: seq<string>)
    requires ch < |s.chans|
    ensures Handed(s.chans[ch], DoBroadcast(s, line).chans[ch], [], got)
  {
    got := [];
    NothingHanded(s.chans[ch]);
    if !s.closed {
      if Marker(line) {
        var held := PendingHands(s, ch);
        var last := EmitHands(EmitPending(s), line, ch);
        HandedThen(s.chans[ch], EmitPending(s).chans[ch], DoBroadcast(s, line).chans[ch], [], held, [], last);
        var none: seq<string> := [];
        assert none + none == none;
        got := held + last;
      } else if WholeLines(s.pending + line) != "" {
        got := EmitHands(s, WholeLines(s.pending + line), ch);
      }
    }
  }

  lemma ReceiveHands(s: Session, op: Op, ch: nat)
    requires op.Receive? && ch < |s.chans|
    ensures Handed(s.chans[ch], Apply(s, op).chans[ch], Taken(s, op, ch), [])
  {
    NothingHanded(s.chans[ch]);
    var c := s.chans[ch];
    if op.ch == ch && c.queue != [] {
      assert [c.queue[0]] + c.queue[1..] == c.queue + [];
    }
  }

  lemma StepHands(s: Session, op: Op, ch: nat) returns (got: seq<string>)
    requires ch < |s.chans|
    ensures ch < |Apply(s, op).chans| && Handed(s.chans[ch], Apply(s, op).chans[ch], Taken(s, op, ch), got)
  {
    got := [];
    NothingHanded(s.chans[ch]);
    match op
    case Broadcast(line) => got := BroadcastHands(s, line, ch);
    case FlushPending =>
      if s.fired > 0 && !s.closed {
        got := PendingHands(s.(fired := s.fired - 1), ch);
      }
    case Receive(_) => ReceiveHands(s, op, ch);
    case _ =>
  }

  /** Over any run a reader takes out of a channel what was put in, in that order, and the rest waits. */
  lemma {:induction false} RunHands(s: Session, ops: seq<Op>, ch: nat) returns (got: seq<string>)
    requires ch < |s.chans|
    ensures ch < |Run(s, ops).chans| && Handed(s.chans[ch], Run(s, ops).chans[ch], AllTaken(s, ops, ch), got)
    decreases |ops|
  {
    if ops == [] {
      got := [];
      NothingHanded(s.chans[ch]);
    } else {
      var s' := Apply(s, ops[0]);
      var first := StepHands(s, ops[0], ch);
      var more := RunHands(s', ops[1..], ch);
      HandedThen(s.chans[ch], s'.chans[ch], Run(s', ops[1..]).chans[ch],
                 Taken(s, ops[0], ch), first, AllTaken(s', ops[1..], ch), more);
      got := first + more;
    }
  }

  lemma {:induction false} OfferAllQueues(c: Chan, lines: seq<string>)
    requires !c.closed && c.queue == c.sent
    ensures OfferAll(c, lines).queue == OfferAll(c, lines).sent
    decreases |lines|
  {
    if lines != [] {
      OfferAllQueues(Offer(c, lines[0]), lines[1..]);
    }
  }

  /**
   * What a subscriber has taken, followed by what waits for it, is all its channel ever accepted: the ring
   * as it stood, then a subsequence of the chunks emitted later.
   */
  lemma SubscriberReads(before: seq<Op>, after: seq<Op>) returns (got: seq<string>)
    ensures var s, ch := Run(Opened(), before), |Run(Opened(), before).chans|;
      var s' := Apply(s, Subscribe);
      var end := Run(s', after);
      && ch < |end.chans| && AllTaken(s', after, ch) + end.chans[ch].queue == s.ring + got
      && Subseq(got, AllEmitted(s', after))
      && (!end.chans[ch].lossy && ch in end.subs ==> got == AllEmitted(s', after))
  {
    var s, ch := Run(Opened(), before), |Run(Opened(), before).chans|;
    var s' := Apply(s, Subscribe);
    RunReachable(Opened(), before);
    SubscribeReplays(s);
    OfferAllQueues(Chan([], [], false, false, false), s.ring);
    var put := RunHands(s', after, ch);
    got := RunAdds(s', after, ch);
    SameRest(s.ring, put, got);
  }

  lemma SameRest(a: seq<string>, b: seq<string>, c: seq<string>)
    requires a + b == a + c
    ensures b == c
  {
    assert b == (a + b)[|a|..] && c == (a + c)[|a|..];
  }

  function Receives(ch: nat, n: nat): seq<Op>
    decreases n
  {
    if n == 0 then [] else [Receive(ch)] + Receives(ch, n - 1)
  }

  /** A reader that goes on receiving gets all that waits, whether its channel is closed or not. */
  lemma {:induction false} ReaderDrains(s: Session, ch: nat)
    requires ch < |s.chans|
    ensures var ops := Receives(ch, |s.chans[ch].queue|);
      && AllTaken(s, ops, ch) == s.chans[ch].queue
      && Run(s, ops) == s.(chans := s.chans[ch := s.chans[ch].(queue := [])])
    decreases |s.chans[ch].queue|
  {
    var q := s.chans[ch].queue;
    if q == [] {
      assert s.chans[ch := s.chans[ch]] == s.chans;
    } else {
      var s', ops := DoReceive(s, ch), Receives(ch, |q|);
      assert ops[0] == Receive(ch) && ops[1..] == Receives(ch, |q| - 1);
      ReaderDrains(s', ch);
      assert [q[0]] + q[1..] == q;
      assert s'.chans[ch := s'.chans[ch].(queue := [])] == s.chans[ch := s.chans[ch].(queue := [])];
    }
  }

  // ---------------------------------------------------------------- leaving

  /** Two sessions alike but for one channel. */
  ghost predicate AlikeBut(s: Session, t: Session, ch: nat) {
    && t.(chans := s.chans, subs := s.subs) == s
    && |s.chans| == |t.chans| && ch < |s.chans|
    && (forall k :: 0 <= k < |s.chans| && k != ch ==> s.chans[k] == t.chans[k])
    && (forall k :: k in s.subs && k != ch ==> k in t.subs)
    && (forall k :: k in t.subs && k != ch ==> k in s.subs)
  }

  lemma EmitAlike(s: Session, t: Session, line: string, ch: nat)
    requires AlikeBut(s, t, ch)
    ensures AlikeBut(Emit(s, line), Emit(t, line), ch)
  {
  }

  lemma PendingAlike(s: Session, t: Session, ch: nat)
    requires AlikeBut(s, t, ch)
    ensures AlikeBut(EmitPending(s), EmitPending(t), ch)
  {
    EmitAlike(s, t, s.pending, ch);
  }

  lemma BroadcastAlike(s: Session, t: Session, line: string, ch: nat)
    requires AlikeBut(s, t, ch)
    ensures AlikeBut(DoBroadcast(s, line), DoBroadcast(t, line), ch)
  {
    if !s.closed {
      if Marker(line) {
        PendingAlike(s, t, ch);
        EmitAlike(EmitPending(s), EmitPending(t), line, ch);
      } else {
        EmitAlike(s, t, WholeLines(s.pending + line), ch);
      }
    }
  }

  lemma StepAlike(s: Session, t: Session, op: Op, ch: nat)
    requires AlikeBut(s, t, ch)
    ensures AlikeBut(Apply(s, op), Apply(t, op), ch)
  {
    match op
    case Broadcast(line) => BroadcastAlike(s, t, line, ch);
    case FlushPending =>
      if s.fired > 0 {
        PendingAlike(s.(fired := s.fired - 1), t.(fired := t.fired - 1), ch);
      }
    case _ =>
  }

  lemma {:induction false} RunAlike(s: Session, t: Session, ops: seq<Op>, ch: nat)
    requires AlikeBut(s, t, ch)
    ensures AlikeBut(Run(s, ops), Run(t, ops), ch)
    decreases |ops|
  {
    if ops != [] {
      StepAlike(s, t, ops[0], ch);
      RunAlike(Apply(s, ops[0]), Apply(t, ops[0]), ops[1..], ch);
    }
  }

  /** A channel that is closed stays as it is, but for what its reader takes. */
  lemma StepLeavesClosed(s: Session, op: Op, ch: nat)
    requires Reachable(s) && ch < |s.chans| && s.chans[ch].closed
    ensures var s' := Apply(s, op);
      ch < |s'.chans| && s'.chans[ch] == s.chans[ch].(queue := s'.chans[ch].queue) && ch !in s'.subs
  {
  }

  lemma {:induction false} ClosedGetsNoMore(s: Session, ops: seq<Op>, ch: nat)
    requires Reachable(s) && ch < |s.chans| && s.chans[ch].closed
    ensures var end := Run(s, ops);
      ch < |end.chans| && end.chans[ch] == s.chans[ch].(queue := end.chans[ch].queue) && ch !in end.subs
    decreases |ops|
  {
    if ops != [] {
      StepLeavesClosed(s, ops[0], ch);
      StepReachable(s, ops[0]);
      ClosedGetsNoMore(Apply(s, ops[0]), ops[1..], ch);
    }
  }

  /**
   * Unsubscribing closes the channel and ends its deliveries for good: in every continuation nothing more is
   * put in, and its reader takes what waited, in order, and then sees the end. Nobody else can tell: every
   * other channel, the ring and the held text are as they would be had it stayed.
   */
  lemma UnsubscribeEnds(before: seq<Op>, after: seq<Op>, ch: nat)
    requires ch in Run(Opened(), before).subs
    ensures var s := Run(Opened(), before);
      var left := Apply(s, Unsubscribe(ch));
      var end := Run(left, after);
      && ch < |s.chans| && ch < |end.chans|
      && end.chans[ch].closed && !end.chans[ch].misused && ch !in end.subs
      && end.chans[ch].sent == s.chans[ch].sent
      && AllTaken(left, after, ch) + end.chans[ch].queue == s.chans[ch].queue
      && AlikeBut(Run(s, after), end, ch)
      && Apply(left, Unsubscribe(ch)) == left
  {
    var s := Run(Opened(), before);
    var left := Apply(s, Unsubscribe(ch));
    RunReachable(Opened(), before);
    StepReachable(s, Unsubscribe(ch));
    ClosedGetsNoMore(left, after, ch);
    var got := RunHands(left, after, ch);
    assert s.chans[ch].sent + [] == s.chans[ch].sent;
    SameRest(s.chans[ch].sent, got, []);
    assert s.chans[ch].queue + [] == s.chans[ch].queue;
    RunAlike(s, left, after, ch);
  }

  // ---------------------------------------------------------------- one broadcast

  lemma {:induction false} RunThen(s: Session, ops: seq<Op>, op: Op)
    ensures Run(s, ops + [op]) == Apply(Run(s, ops), op)
    ensures AllEmitted(s, ops + [op]) == AllEmitted(s, ops) + Emitted(Run(s, ops), op)
    decreases |ops|
  {
    if ops == [] {
      assert [] + [op] == [op] && [op][1..] == [];
      assert Emitted(s, op) + [] == [] + Emitted(s, op);
    } else {
      assert (ops + [op])[1..] == ops[1..] + [op];
      RunThen(Apply(s, ops[0]), ops[1..], op);
    }
  }

  /**
   * What a broadcast to an open session adds to what was emitted. The two control markers go out at once and
   * alone, behind the text held so far. Any other text joins the held text, and of the two together
   * the whole lines go out in one chunk and the rest is held, with the timer set for it if there is any.
   */
  lemma BroadcastExactly(before: seq<Op>, line: string) returns (out: seq<string>)
    requires !Run(Opened(), before).closed
    ensures var s, s' := Run(Opened(), before), Run(Opened(), before + [Broadcast(line)]);
      && AllEmitted(Opened(), before + [Broadcast(line)]) == AllEmitted(Opened(), before) + out
      && Concat(out) + s'.pending == s.pending + line && '\n' !in s'.pending
      && (line == "__session_ended__" || "__session_error__:" <= line ==>
            out == (if s.pending == "" then [] else [s.pending]) + [line])
      && (line != "__session_ended__" && !("__session_error__:" <= line) ==>
            (out == [] || (|out| == 1 && EndsLine(out[0])))
            && s'.timer == (if s'.pending == "" then s.timer else Armed))
  {
    var s := Run(Opened(), before);
    out := Emitted(s, Broadcast(line));
    RunThen(Opened(), before, Broadcast(line));
    RunReachable(Opened(), before);
    StepConserves(s, Broadcast(line));
    StepIsProper(s, Broadcast(line));
    assert Concat(out) + Apply(s, Broadcast(line)).pending + "" == Concat(out) + Apply(s, Broadcast(line)).pending;
  }

  // ---------------------------------------------------------------- the timer

  /** The timer goes off. */
  predicate Fires(s: Session, op: Op) {
    op.TimerFires? && s.timer == Armed
  }

  /** A callback of the timer gets the mutex. */
  predicate Flushes(s: Session, op: Op) {
    op.FlushPending? && s.fired > 0
  }

  /** Text without an end is held, which sets the timer. */
  predicate Arms(s: Session, op: Op) {
    op.Broadcast? && !s.closed && !Marker(op.line) && DoBroadcast(s, op.line).pending != ""
  }

  function Count(s: Session, ops: seq<Op>, which: (Session, Op) -> bool): nat
    decreases |ops|
  {
    if ops == [] then 0 else (if which(s, ops[0]) then 1 else 0) + Count(Apply(s, ops[0]), ops[1..], which)
  }

  /** A closed session has no timer. */
  predicate Stopped(s: Session) {
    s.closed ==> s.timer == Unset
  }

  lemma StepTimer(s: Session, op: Op)
    requires Stopped(s)
    ensures var s' := Apply(s, op);
      && Stopped(s') && (Fires(s, op) ==> !s.closed) && (s.closed ==> s'.closed)
      && s'.fired + (if Flushes(s, op) then 1 else 0) == s.fired + (if Fires(s, op) then 1 else 0)
      && (Fires(s, op) ==> s.timer == Armed != s'.timer)
      && (s'.timer == Armed ==> s.timer == Armed || Arms(s, op))
  {
  }

  /**
   * In every run each callback that gets the mutex was started by the timer, once; the timer goes off at most
   * once each time held text sets it, and never after the session is closed.
   */
  lemma {:induction false} TimerCounts(s: Session, ops: seq<Op>)
    requires Stopped(s)
    ensures var end, armed := Run(s, ops), if s.timer == Armed then 1 else 0;
      && Stopped(end)
      && end.fired + Count(s, ops, Flushes) == s.fired + Count(s, ops, Fires)
      && Count(s, ops, Fires) + (if end.timer == Armed then 1 else 0) <= armed + Count(s, ops, Arms)
      && (s.closed ==> Count(s, ops, Fires) == 0 && end.closed)
    decreases |ops|
  {
    if ops != [] {
      StepTimer(s, ops[0]);
      TimerCounts(Apply(s, ops[0]), ops[1..]);
    }
  }

  // ---------------------------------------------------------------- what misuse means

  /** A send to a closed channel and a second close show, and are never forgotten. */
  lemma {:induction false} MisuseShows(c: Chan, line: string, lines: seq<string>)
    requires c.closed || c.misused
    ensures Shut(c).misused && OfferAll(c, [line] + lines).misused
    decreases |lines|
  {
    assert ([line] + lines)[1..] == lines && Offer(c, line).misused;
    if lines != [] {
      assert lines == [lines[0]] + lines[1..];
      MisuseShows(Offer(c, line), lines[0], lines[1..]);
    }
  }
}
