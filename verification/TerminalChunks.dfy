/** Exactly when a terminal session keeps its promises: whole lines, no losses, true markers. */
module TerminalChunks {
  import opened Terminal
  import opened TerminalLaws

  // ---------------------------------------------------------------- whole lines

  predicate WholeChunk(c: string) {
    Marker(c) || EndsLine(c)
  }

  predicate AllWhole(cs: seq<string>) {
    forall i :: 0 <= i < |cs| ==> WholeChunk(cs[i])
  }

  /** The operation sends held text on its way before its line is complete. */
  predicate PushesFragment(s: Session, op: Op) {
    && !s.closed && s.pending != "" && !Marker(s.pending)
    && ((op.FlushPending? && s.fired > 0) || (op.Broadcast? && Marker(op.line)))
  }

  predicate NeverPushes(s: Session, ops: seq<Op>)
    decreases |ops|
  {
    ops == [] || (!PushesFragment(s, ops[0]) && NeverPushes(Apply(s, ops[0]), ops[1..]))
  }

  lemma StepWhole(s: Session, op: Op)
    requires '\n' !in s.pending
    ensures AllWhole(Emitted(s, op)) <==> !PushesFragment(s, op)
  {
    if PushesFragment(s, op) {
      assert Emitted(s, op)[0] == s.pending;
      assert !EndsLine(s.pending);
    }
  }

  lemma AllWholeJoin(a: seq<string>, b: seq<string>)
    ensures AllWhole(a + b) <==> AllWhole(a) && AllWhole(b)
  {
    if AllWhole(a + b) {
      assert forall i :: 0 <= i < |a| ==> a[i] == (a + b)[i];
      assert forall i :: 0 <= i < |b| ==> b[i] == (a + b)[|a| + i];
    }
  }

  /** Subscribers are offered whole lines and markers only, exactly when no held text is pushed out. */
  lemma {:induction false} WholeLinesExactly(s: Session, ops: seq<Op>)
    requires '\n' !in s.pending
    ensures AllWhole(AllEmitted(s, ops)) <==> NeverPushes(s, ops)
    decreases |ops|
  {
    if ops != [] {
      var s' := Apply(s, ops[0]);
      StepIsProper(s, ops[0]);
      StepWhole(s, ops[0]);
      WholeLinesExactly(s', ops[1..]);
      AllWholeJoin(Emitted(s, ops[0]), AllEmitted(s', ops[1..]));
    }
  }

  /** A fragment that waits for its newline too long goes out as it is. */
  lemma FragmentGoesOut(text: string)
    requires text != "" && '\n' !in text && !Marker(text)
    ensures AllEmitted(Opened(), [Broadcast(text), TimerFires, FlushPending]) == [text]
    ensures !AllWhole([text])
  {
    FlushedText(Opened(), text);
    var ops := [Broadcast(text), TimerFires, FlushPending];
    var s1 := Apply(Opened(), ops[0]);
    assert ops[1..] == [TimerFires, FlushPending];
    assert "" + text == text;
    assert WholeLines(text) == "";
    assert AllEmitted(Opened(), ops) == Emitted(Opened(), ops[0]) + AllEmitted(s1, [TimerFires, FlushPending]);
    assert [] + [text] == [text];
    assert WholeChunk([text][0]) ==> EndsLine(text);
  }

  /** A session that holds a text and then runs out of patience emits it. */
  lemma FlushedText(s: Session, text: string)
    requires !s.closed && s.pending + text != "" && '\n' !in s.pending + text && !Marker(text)
    ensures var s1 := Apply(s, Broadcast(text));
      && s1.pending == s.pending + text && s1.timer == Armed && !s1.closed
      && AllEmitted(s1, [TimerFires, FlushPending]) == [s.pending + text]
  {
    var s1 := Apply(s, Broadcast(text));
    var s2 := Apply(s1, TimerFires);
    var s3 := Apply(s2, FlushPending);
    var buf := s.pending + text;
    assert LastNewline(buf) == -1;
    assert buf[0..] == buf && buf[..0] == "";
    assert [TimerFires, FlushPending][1..] == [FlushPending] && [FlushPending][1..] == [];
    assert AllEmitted(s2, [FlushPending]) == Emitted(s2, FlushPending) + AllEmitted(s3, []);
    assert AllEmitted(s1, [TimerFires, FlushPending]) == [] + AllEmitted(s2, [FlushPending]);
  }

  // ---------------------------------------------------------------- losses

  /** The chunks offered to a channel in a run. */
  function AllOffered(s: Session, ops: seq<Op>, ch: nat): seq<string>
    decreases |ops|
  {
    if ops == [] then [] else Offered(s, ops[0], ch) + AllOffered(Apply(s, ops[0]), ops[1..], ch)
  }

  /** At no operation is more offered to the channel than fits in its queue. */
  predicate NeverFull(s: Session, ops: seq<Op>, ch: nat)
    decreases |ops|
  {
    ops == []
    || (ch < |s.chans| && |s.chans[ch].queue| + |Offered(s, ops[0], ch)| <= QUEUE_SIZE
        && NeverFull(Apply(s, ops[0]), ops[1..], ch))
  }

  /** Between two states a channel accepted got of what it was offered, and became lossy if that was not all. */
  predicate Tally(c: Chan, c': Chan, got: seq<string>, offered: seq<string>) {
    && c'.sent == c.sent + got && |got| <= |offered| && Subseq(got, offered)
    && (c'.lossy <==> c.lossy || |got| < |offered|)
  }

  lemma TallyJoin(c: Chan, c1: Chan, c2: Chan, a: seq<string>, outA: seq<string>, b: seq<string>, outB: seq<string>)
    requires Tally(c, c1, a, outA) && Tally(c1, c2, b, outB)
    ensures Tally(c, c2, a + b, outA + outB)
  {
    SubseqJoin(a, outA, b, outB);
    assert c.sent + a + b == c.sent + (a + b);
  }

  lemma StepTally(s: Session, op: Op, ch: nat) returns (got: seq<string>)
    requires Reachable(s) && ch < |s.chans|
    ensures ch < |Apply(s, op).chans| && Tally(s.chans[ch], Apply(s, op).chans[ch], got, Offered(s, op, ch))
    ensures var c := s.chans[ch];
      Apply(s, op).chans[ch].lossy <==> c.lossy || |c.queue| + |Offered(s, op, ch)| > QUEUE_SIZE
  {
    got := StepAdds(s, op, ch);
  }

  /** A channel loses chunks exactly when it is offered more than fits, and exactly when it accepts fewer. */
  lemma {:induction false} LossesExactly(s: Session, ops: seq<Op>, ch: nat) returns (got: seq<string>)
    requires Reachable(s) && ch < |s.chans|
    ensures ch < |Run(s, ops).chans| && Tally(s.chans[ch], Run(s, ops).chans[ch], got, AllOffered(s, ops, ch))
    ensures Run(s, ops).chans[ch].lossy <==> s.chans[ch].lossy || !NeverFull(s, ops, ch)
    decreases |ops|
  {
    if ops == [] {
      got := [];
      assert s.chans[ch].sent + [] == s.chans[ch].sent;
    } else {
      var s' := Apply(s, ops[0]);
      var first := StepTally(s, ops[0], ch);
      StepReachable(s, ops[0]);
      var more := LossesExactly(s', ops[1..], ch);
      got := first + more;
      TallyJoin(s.chans[ch], s'.chans[ch], Run(s', ops[1..]).chans[ch],
                first, Offered(s, ops[0], ch), more, AllOffered(s', ops[1..], ch));
    }
  }

  /**
   * A subscriber gets the ring and then, of what it is offered, everything in order exactly when it is
   * never offered more than fits in its queue.
   */
  lemma SubscriberLoses(before: seq<Op>, after: seq<Op>) returns (got: seq<string>)
    ensures var s, ch := Run(Opened(), before), |Run(Opened(), before).chans|;
      var s' := Apply(s, Subscribe);
      var end, offered := Run(s', after), AllOffered(s', after, ch);
      && ch < |end.chans| && end.chans[ch].sent == s.ring + got && Subseq(got, offered)
      && (end.chans[ch].lossy <==> !NeverFull(s', after, ch))
      && (end.chans[ch].lossy <==> |got| < |offered|)
  {
    var s := Run(Opened(), before);
    RunReachable(Opened(), before);
    SubscribeReplays(s);
    got := LossesExactly(Apply(s, Subscribe), after, |s.chans|);
  }

  function Lines(n: nat): seq<Op>
    decreases n
  {
    if n == 0 then [] else [Broadcast("\n")] + Lines(n - 1)
  }

  /** One line to a channel with room for it. */
  lemma UnreadLine(s: Session, ch: nat)
    requires Reachable(s) && ch in s.subs && !s.closed && s.pending == ""
    ensures var s' := Apply(s, Broadcast("\n"));
      && Emitted(s, Broadcast("\n")) == ["\n"]
      && Reachable(s') && ch in s'.subs && !s'.closed && s'.pending == ""
      && (|s.chans[ch].queue| < QUEUE_SIZE ==> |s'.chans[ch].queue| == |s.chans[ch].queue| + 1)
  {
    LineIsWhole();
    assert "" + "\n" == "\n";
    assert Apply(s, Broadcast("\n")) == Hold(Emit(s, "\n"), "");
    StepReachable(s, Broadcast("\n"));
  }

  lemma LineIsWhole()
    ensures WholeLines("\n") == "\n" && Fragment("\n") == "" && !Marker("\n")
  {
    assert LastNewline("\n") == 0;
    assert |ENDED| == 17 && |ERROR_PREFIX| == 18;
  }

  /** n lines to a channel that nobody reads. */
  lemma {:induction false} UnreadFills(s: Session, n: nat, ch: nat)
    requires Reachable(s) && ch in s.subs && !s.closed && s.pending == ""
    requires |s.chans[ch].queue| + n > QUEUE_SIZE
    ensures !NeverFull(s, Lines(n), ch)
    decreases n
  {
    if n > 0 {
      var s' := Apply(s, Broadcast("\n"));
      UnreadLine(s, ch);
      assert Lines(n)[1..] == Lines(n - 1) && Lines(n)[0] == Broadcast("\n");
      if |s.chans[ch].queue| < QUEUE_SIZE {
        UnreadFills(s', n - 1, ch);
      }
    }
  }

  /** A subscriber that reads nothing loses a chunk at the 513th line. */
  lemma UnreadLoses()
    ensures var s := Apply(Opened(), Subscribe);
      Run(s, Lines(513)).chans != [] && Run(s, Lines(513)).chans[0].lossy
  {
    var s := Apply(Opened(), Subscribe);
    StepReachable(Opened(), Subscribe);
    UnreadFills(s, 513, 0);
    var got := LossesExactly(s, Lines(513), 0);
  }

  // ---------------------------------------------------------------- markers

  function MarkersIn(cs: seq<string>): seq<string>
    decreases |cs|
  {
    if cs == [] then [] else (if Marker(cs[0]) then [cs[0]] else []) + MarkersIn(cs[1..])
  }

  lemma {:induction false} MarkersInJoin(a: seq<string>, b: seq<string>)
    ensures MarkersIn(a + b) == MarkersIn(a) + MarkersIn(b)
    decreases |a|
  {
    if a == [] {
      assert a + b == b;
    } else {
      assert (a + b)[1..] == a[1..] + b;
      MarkersInJoin(a[1..], b);
    }
  }

  /** The marker that the operation itself announces. */
  function Announced(s: Session, op: Op): seq<string> {
    if op.Broadcast? && !s.closed && Marker(op.line) then [op.line] else []
  }

  function AllAnnounced(s: Session, ops: seq<Op>): seq<string>
    decreases |ops|
  {
    if ops == [] then [] else Announced(s, ops[0]) + AllAnnounced(Apply(s, ops[0]), ops[1..])
  }

  /** Text of the program, put together from several broadcasts, goes out and reads as a marker. */
  predicate Forges(s: Session, op: Op) {
    !s.closed &&
    match op
    case Broadcast(line) => if Marker(line) then Marker(s.pending) else Marker(WholeLines(s.pending + line))
    case FlushPending => s.fired > 0 && Marker(s.pending)
    case _ => false
  }

  predicate NeverForges(s: Session, ops: seq<Op>)
    decreases |ops|
  {
    ops == [] || (!Forges(s, ops[0]) && NeverForges(Apply(s, ops[0]), ops[1..]))
  }

  /** An operation emits the marker it announces, and one more exactly when it forges one. */
  lemma StepMarkers(s: Session, op: Op)
    ensures var ms := MarkersIn(Emitted(s, op));
      && (Forges(s, op) ==> |ms| == |Announced(s, op)| + 1)
      && (!Forges(s, op) ==> ms == Announced(s, op))
  {
    var es := Emitted(s, op);
    assert !Marker("");
    if |es| == 1 {
      assert es[1..] == [] && MarkersIn(es) == if Marker(es[0]) then [es[0]] else [];
    } else if |es| == 2 {
      assert es == [es[0]] + [es[1]] && [es[0]][1..] == [] && [es[1]][1..] == [];
      MarkersInJoin([es[0]], [es[1]]);
    }
  }

  lemma {:induction false} MarkersAtLeast(s: Session, ops: seq<Op>)
    ensures var ms, announced := MarkersIn(AllEmitted(s, ops)), AllAnnounced(s, ops);
      && |ms| >= |announced|
      && (NeverForges(s, ops) ==> ms == announced)
      && (!NeverForges(s, ops) ==> |ms| > |announced|)
    decreases |ops|
  {
    if ops != [] {
      var s' := Apply(s, ops[0]);
      StepMarkers(s, ops[0]);
      MarkersInJoin(Emitted(s, ops[0]), AllEmitted(s', ops[1..]));
      MarkersAtLeast(s', ops[1..]);
    }
  }

  /** The chunks that read as markers are the announced ones, exactly when no text of the program reads as one. */
  lemma MarkersExactly(s: Session, ops: seq<Op>)
    ensures MarkersIn(AllEmitted(s, ops)) == AllAnnounced(s, ops) <==> NeverForges(s, ops)
  {
    MarkersAtLeast(s, ops);
  }

  lemma {:induction false} PlainAnnouncesNothing(s: Session, ops: seq<Op>)
    requires forall i :: 0 <= i < |ops| && ops[i].Broadcast? ==> !Marker(ops[i].line)
    ensures AllAnnounced(s, ops) == []
    decreases |ops|
  {
    if ops != [] {
      PlainAnnouncesNothing(Apply(s, ops[0]), ops[1..]);
    }
  }

  /** Two pieces of text that are held together go out together. */
  lemma TwoPieces(a: string, b: string)
    requires a != "" && '\n' !in a + b && !Marker(a) && !Marker(b)
    ensures AllEmitted(Opened(), [Broadcast(a), Broadcast(b), TimerFires, FlushPending]) == [a + b]
  {
    var ops := [Broadcast(a), Broadcast(b), TimerFires, FlushPending];
    assert '\n' !in a by {
      assert a == (a + b)[..|a|];
    }
    assert "" + a == a;
    var s1 := Apply(Opened(), Broadcast(a));
    FlushedText(Opened(), a);
    FlushedText(s1, b);
    assert WholeLines(a) == "" && WholeLines(a + b) == "";
    assert ops[1..] == [Broadcast(b), TimerFires, FlushPending] && ops[1..][1..] == [TimerFires, FlushPending];
    assert AllEmitted(s1, ops[1..]) == [] + AllEmitted(Apply(s1, Broadcast(b)), [TimerFires, FlushPending]);
    assert AllEmitted(Opened(), ops) == [] + AllEmitted(s1, ops[1..]);
  }

  /** Program output in two pieces goes out as the end marker, though nobody announced the end. */
  lemma EndForged()
    ensures var ops := [Broadcast("__session_"), Broadcast("ended__"), TimerFires, FlushPending];
      AllEmitted(Opened(), ops) == [ENDED] && AllAnnounced(Opened(), ops) == []
  {
    var a, b := EndInPieces();
    TwoPieces(a, b);
    PlainAnnouncesNothing(Opened(), [Broadcast(a), Broadcast(b), TimerFires, FlushPending]);
  }

  lemma EndInPieces() returns (a: string, b: string)
    ensures a == "__session_" && b == "ended__" && a + b == ENDED && a != "" && '\n' !in a + b
    ensures !Marker(a) && !Marker(b)
  {
    a, b := "__session_", "ended__";
    assert |a| == 10 && |b| == 7 && |ERROR_PREFIX| == 18;
    assert a + b == ENDED;
  }
}
