/** What a terminal session promises over every run. */
module TerminalLaws {
  import opened Terminal

  /** The chunks one operation emits. */
  function Emitted(s: Session, op: Op): seq<string> {
    match op
    case Broadcast(line) =>
      if s.closed then []
      else if Marker(line) then Held(s) + [line]
      else
        var whole := WholeLines(s.pending + line);
        if whole == "" then [] else [whole]
    case FlushPending => if s.fired == 0 || s.closed then [] else Held(s)
    case _ => []
  }

  function Held(s: Session): seq<string> {
    if s.pending == "" then [] else [s.pending]
  }

  /** The text one operation puts into the session: what a broadcast carries while it is open. */
  function Input(s: Session, op: Op): string {
    if op.Broadcast? && !s.closed then op.line else ""
  }

  /** The fragment that closing drops. */
  function Dropped(s: Session, op: Op): string {
    if op.Close? && !s.closed then s.pending else ""
  }

  function Run(s: Session, ops: seq<Op>): Session
    decreases |ops|
  {
    if ops == [] then s else Run(Apply(s, ops[0]), ops[1..])
  }

  function AllEmitted(s: Session, ops: seq<Op>): seq<string>
    decreases |ops|
  {
    if ops == [] then [] else Emitted(s, ops[0]) + AllEmitted(Apply(s, ops[0]), ops[1..])
  }

  function AllInput(s: Session, ops: seq<Op>): string
    decreases |ops|
  {
    if ops == [] then "" else Input(s, ops[0]) + AllInput(Apply(s, ops[0]), ops[1..])
  }

  function AllDropped(s: Session, ops: seq<Op>): string
    decreases |ops|
  {
    if ops == [] then "" else Dropped(s, ops[0]) + AllDropped(Apply(s, ops[0]), ops[1..])
  }

  function Concat(chunks: seq<string>): string {
    if chunks == [] then "" else chunks[0] + Concat(chunks[1..])
  }

  lemma {:induction false} ConcatJoin(a: seq<string>, b: seq<string>)
    ensures Concat(a + b) == Concat(a) + Concat(b)
    decreases |a|
  {
    if a == [] {
      assert a + b == b;
    } else {
      assert (a + b)[1..] == a[1..] + b;
      ConcatJoin(a[1..], b);
    }
  }

  // ---------------------------------------------------------------- conservation of text

  /** What every reachable state has. */
  ghost predicate Reachable(s: Session) {
    && (s.closed ==> s.pending == "" && s.subs == {})
    && '\n' !in s.pending
    && |s.ring| <= RING_SIZE
    && (!s.closed && s.pending != "" ==> s.timer == Armed || s.fired > 0)
    && (forall i :: i in s.subs ==> i < |s.chans|)
    && (forall i :: 0 <= i < |s.chans| ==> GoodChan(s.chans[i]) && (i in s.subs <==> !s.chans[i].closed))
  }

  /** What waits is the newest part of what was accepted, and there was no misuse. */
  predicate GoodChan(c: Chan) {
    && !c.misused && |c.queue| <= QUEUE_SIZE && |c.queue| <= |c.sent|
    && c.queue == c.sent[|c.sent| - |c.queue|..]
  }

  lemma OfferGood(c: Chan, line: string)
    requires GoodChan(c) && !c.closed
    ensures GoodChan(Offer(c, line)) && !Offer(c, line).closed
  {
    if |c.queue| < QUEUE_SIZE {
      var d := Offer(c, line);
      assert d.sent[|d.sent| - |d.queue|..] == c.sent[|c.sent| - |c.queue|..] + [line];
    }
  }

  lemma {:induction false} OfferAllGood(c: Chan, lines: seq<string>)
    requires GoodChan(c) && !c.closed
    ensures GoodChan(OfferAll(c, lines)) && !OfferAll(c, lines).closed
    decreases |lines|
  {
    if lines != [] {
      OfferGood(c, lines[0]);
      OfferAllGood(Offer(c, lines[0]), lines[1..]);
    }
  }

  lemma EmitReachable(s: Session, line: string)
    requires Reachable(s) && !s.closed
    ensures Reachable(Emit(s, line))
  {
    forall i | 0 <= i < |s.chans|
      ensures GoodChan(Emit(s, line).chans[i])
      ensures i in s.subs <==> !Emit(s, line).chans[i].closed
    {
      if i in s.subs {
        OfferGood(s.chans[i], line);
      }
    }
  }

  lemma BroadcastReachable(s: Session, line: string)
    requires Reachable(s)
    ensures Reachable(DoBroadcast(s, line))
  {
    if !s.closed {
      if Marker(line) {
        FlushReachable(s);
        EmitReachable(EmitPending(s), line);
      } else {
        var whole := WholeLines(s.pending + line);
        if whole != "" {
          EmitReachable(s, whole);
        }
      }
    }
  }

  lemma FlushReachable(s: Session)
    requires Reachable(s.(fired := s.fired + 1)) && !s.closed
    ensures Reachable(EmitPending(s))
  {
    if s.pending != "" {
      EmitReachable(s.(fired := s.fired + 1), s.pending);
    }
  }

  lemma SubscribeReachable(s: Session)
    requires Reachable(s)
    ensures Reachable(DoSubscribe(s))
  {
    OfferAllGood(Chan([], [], false, false, false), s.ring);
  }

  lemma ReceiveReachable(s: Session, ch: nat)
    requires Reachable(s)
    ensures Reachable(DoReceive(s, ch))
  {
    if ch < |s.chans| && s.chans[ch].queue != [] {
      var c := s.chans[ch];
      assert c.queue[1..] == c.sent[|c.sent| - (|c.queue| - 1)..];
    }
  }

  lemma CloseReachable(s: Session)
    requires Reachable(s)
    ensures Reachable(DoClose(s))
  {
  }

  /** Every operation keeps a reachable state reachable. */
  lemma StepReachable(s: Session, op: Op)
    requires Reachable(s)
    ensures Reachable(Apply(s, op))
  {
    match op
    case Broadcast(line) => BroadcastReachable(s, line);
    case TimerFires =>
    case FlushPending =>
      if s.fired > 0 && !s.closed {
        FlushReachable(s.(fired := s.fired - 1));
      }
    case Subscribe => SubscribeReachable(s);
    case Unsubscribe(ch) =>
    case Receive(ch) => ReceiveReachable(s, ch);
    case Close => CloseReachable(s);
  }

  lemma {:induction false} RunReachable(s: Session, ops: seq<Op>)
    requires Reachable(s)
    ensures Reachable(Run(s, ops))
    decreases |ops|
  {
    if ops != [] {
      StepReachable(s, ops[0]);
      RunReachable(Apply(s, ops[0]), ops[1..]);
    }
  }

  /**
   * In every run from an opened session: no channel is sent to after it is closed nor closed twice,
   * a held fragment never holds a newline and always has a flush on its way, the channels open are
   * exactly the subscribed ones, and what waits in a channel is the newest part of what it accepted.
   */
  lemma AlwaysSafe(ops: seq<Op>)
    ensures Reachable(Run(Opened(), ops))
  {
    RunReachable(Opened(), ops);
  }

  /** What goes out, stays and is dropped makes up what was held and came in. */
  predicate Balance(out: string, kept: string, dropped: string, held: string, input: string) {
    out + kept + dropped == held + input
  }

  lemma StepConserves(s: Session, op: Op)
    requires s.closed ==> s.pending == ""
    ensures Balance(Concat(Emitted(s, op)), Apply(s, op).pending, Dropped(s, op), s.pending, Input(s, op))
  {
    if op.Broadcast? && !s.closed {
      if Marker(op.line) {
        ConcatJoin(Held(s), [op.line]);
      } else {
        var buf := s.pending + op.line;
        assert WholeLines(buf) + Fragment(buf) == buf;
      }
    }
  }

  /** A closed session takes in, emits and drops nothing. */
  lemma {:induction false} ClosedIsSilent(s: Session, ops: seq<Op>)
    requires s.closed && s.pending == ""
    ensures AllEmitted(s, ops) == [] && AllDropped(s, ops) == "" && AllInput(s, ops) == ""
    ensures Run(s, ops).pending == ""
    decreases |ops|
  {
    if ops != [] {
      ClosedIsSilent(Apply(s, ops[0]), ops[1..]);
    }
  }

  /** Chaining the balance of one step with that of the rest. */
  lemma BalanceChains(
      e: string, p: string, d: string, q: string, i: string, e': string, p': string, d': string, i': string)
    requires Balance(e, p, d, q, i) && Balance(e', p', d', p, i')
    requires d == "" || (p == "" && i' == "")
    ensures Balance(e + e', p', d + d', q, i + i')
  {
    assert (e + e') + p' + d' == e + (e' + p' + d');
    assert q + (i + i') == (q + i) + i';
    if d == "" {
      assert e + p + d == e + p && d + d' == d';
      assert e + (p + i') == (e + p) + i';
    } else {
      assert p + i' == "";
      assert |e'| + |p'| + |d'| == |e' + p' + d'|;
      assert e' == "" && p' == "" && d' == "";
      assert e + p + d == e + d && (e + "") + "" + (d + "") == e + d;
    }
  }

  lemma {:induction false} RunBalances(s: Session, ops: seq<Op>)
    requires s.closed ==> s.pending == ""
    ensures Balance(Concat(AllEmitted(s, ops)), Run(s, ops).pending, AllDropped(s, ops), s.pending, AllInput(s, ops))
    decreases |ops|
  {
    if ops != [] {
      var op, rest := ops[0], ops[1..];
      var s' := Apply(s, op);
      StepKeepsClosedEmpty(s, op);
      StepConserves(s, op);
      RunBalances(s', rest);
      if Dropped(s, op) != "" {
        ClosedIsSilent(s', rest);
      }
      ConcatJoin(Emitted(s, op), AllEmitted(s', rest));
      BalanceChains(Concat(Emitted(s, op)), s'.pending, Dropped(s, op), s.pending, Input(s, op),
                    Concat(AllEmitted(s', rest)), Run(s', rest).pending, AllDropped(s', rest), AllInput(s', rest));
    }
  }

  /** Nothing is lost, added or reordered: emitted text, held text and what closing drops make up the input. */
  lemma TextConserved(s: Session, ops: seq<Op>)
    requires s.closed ==> s.pending == ""
    ensures Concat(AllEmitted(s, ops)) + Run(s, ops).pending + AllDropped(s, ops) == s.pending + AllInput(s, ops)
  {
    RunBalances(s, ops);
  }

  lemma StepKeepsClosedEmpty(s: Session, op: Op)
    requires s.closed ==> s.pending == ""
    ensures Apply(s, op).closed ==> Apply(s, op).pending == ""
  {
  }

  predicate EndsLine(c: string) {
    c != "" && c[|c| - 1] == '\n'
  }

  /** A chunk of op is the marker that op broadcasts, ends in a newline, or is the fragment held before op. */
  predicate ProperChunk(s: Session, op: Op, c: string) {
    (op == Broadcast(c) && Marker(c)) || EndsLine(c) || (c == s.pending && c != "" && '\n' !in c)
  }

  /** Every chunk of a run is proper for the operation that emits it. */
  predicate AllProper(s: Session, ops: seq<Op>)
    decreases |ops|
  {
    ops == [] ||
    ((forall i :: 0 <= i < |Emitted(s, ops[0])| ==> ProperChunk(s, ops[0], Emitted(s, ops[0])[i]))
     && AllProper(Apply(s, ops[0]), ops[1..]))
  }

  lemma StepIsProper(s: Session, op: Op)
    requires '\n' !in s.pending
    ensures forall i :: 0 <= i < |Emitted(s, op)| ==> ProperChunk(s, op, Emitted(s, op)[i])
    ensures '\n' !in Apply(s, op).pending
  {
  }

  lemma {:induction false} ChunksAreProper(s: Session, ops: seq<Op>)
    requires '\n' !in s.pending
    ensures AllProper(s, ops) && '\n' !in Run(s, ops).pending
    decreases |ops|
  {
    if ops != [] {
      StepIsProper(s, ops[0]);
      ChunksAreProper(Apply(s, ops[0]), ops[1..]);
    }
  }

  // ---------------------------------------------------------------- the ring

  function Newest(xs: seq<string>): seq<string> {
    if |xs| <= 200 then xs else xs[|xs| - 200..]
  }

  lemma PushIsNewest(ring: seq<string>, xs: seq<string>, line: string)
    requires ring == Newest(xs)
    ensures PushRing(ring, line) == Newest(xs + [line])
  {
  }

  /** The ring and the counter record the chunks xs. */
  ghost predicate Records(s: Session, xs: seq<string>) {
    s.ring == Newest(xs) && s.generated == |xs| % GENERATED_MODULUS
  }

  lemma EmitRecords(s: Session, line: string, xs: seq<string>)
    requires Records(s, xs)
    ensures Records(Emit(s, line), xs + [line])
  {
    PushIsNewest(s.ring, xs, line);
  }

  lemma HeldRecords(s: Session, xs: seq<string>)
    requires Records(s, xs)
    ensures Records(EmitPending(s), xs + Held(s))
  {
    if s.pending == "" {
      assert xs + [] == xs;
    } else {
      EmitRecords(s, s.pending, xs);
    }
  }

  lemma StepRecords(s: Session, op: Op, xs: seq<string>)
    requires Records(s, xs)
    ensures Records(Apply(s, op), xs + Emitted(s, op))
  {
    assert xs + [] == xs;
    if op.Broadcast? && !s.closed {
      if Marker(op.line) {
        HeldRecords(s, xs);
        EmitRecords(EmitPending(s), op.line, xs + Held(s));
        assert xs + Held(s) + [op.line] == xs + (Held(s) + [op.line]);
      } else if WholeLines(s.pending + op.line) != "" {
        EmitRecords(s, WholeLines(s.pending + op.line), xs);
      }
    } else if op.FlushPending? && s.fired > 0 && !s.closed {
      HeldRecords(s.(fired := s.fired - 1), xs);
    }
  }

  /** The ring holds exactly the newest 200 of all emitted chunks, and generated counts them. */
  lemma {:induction false} RunRecords(s: Session, ops: seq<Op>, xs: seq<string>)
    requires Records(s, xs)
    ensures Records(Run(s, ops), xs + AllEmitted(s, ops))
    decreases |ops|
  {
    if ops == [] {
      assert xs + [] == xs;
    } else {
      var out, more := Emitted(s, ops[0]), AllEmitted(Apply(s, ops[0]), ops[1..]);
      StepRecords(s, ops[0], xs);
      RunRecords(Apply(s, ops[0]), ops[1..], xs + out);
      assert xs + out + more == xs + (out + more);
    }
  }

  /** All the text laws for a session from its opening. */
  lemma SessionText(ops: seq<Op>)
    ensures var s, out := Run(Opened(), ops), AllEmitted(Opened(), ops);
      && Concat(out) + s.pending + AllDropped(Opened(), ops) == AllInput(Opened(), ops)
      && AllProper(Opened(), ops)
      && s.ring == Newest(out) && s.generated == |out| % GENERATED_MODULUS
      && '\n' !in s.pending
  {
    var s, out := Run(Opened(), ops), AllEmitted(Opened(), ops);
    TextConserved(Opened(), ops);
    ChunksAreProper(Opened(), ops);
    RunRecords(Opened(), ops, []);
    assert [] + out == out;
  }

  // ---------------------------------------------------------------- what a subscriber gets

  /** xs can be had from ys by leaving elements out. */
  predicate Subseq(xs: seq<string>, ys: seq<string>)
    decreases |ys|
  {
    xs == [] || (ys != [] && ((xs[0] == ys[0] && Subseq(xs[1..], ys[1..])) || Subseq(xs, ys[1..])))
  }

  lemma {:induction false} SubseqJoin(a: seq<string>, b: seq<string>, c: seq<string>, d: seq<string>)
    requires Subseq(a, b) && Subseq(c, d)
    ensures Subseq(a + c, b + d)
    decreases |b|
  {
    if b == [] {
      assert a + c == c && b + d == d;
    } else if a != [] && a[0] == b[0] && Subseq(a[1..], b[1..]) {
      SubseqJoin(a[1..], b[1..], c, d);
      assert (a + c)[1..] == a[1..] + c && (b + d)[1..] == b[1..] + d;
    } else {
      assert Subseq(a, b[1..]);
      SubseqJoin(a, b[1..], c, d);
      assert (b + d)[1..] == b[1..] + d;
    }
  }

  /** What offering lines adds: a subsequence of them, all of them while nothing is lost. */
  lemma {:induction false} OfferAllAdds(c: Chan, lines: seq<string>) returns (got: seq<string>)
    requires !c.closed && |c.queue| <= QUEUE_SIZE
    ensures var d := OfferAll(c, lines);
      && d.sent == c.sent + got && Subseq(got, lines)
      && (c.lossy ==> d.lossy)
      && (!d.lossy ==> got == lines)
      && (d.lossy <==> c.lossy || |c.queue| + |lines| > QUEUE_SIZE)
      && |got| <= |lines| && (|got| < |lines| <==> |c.queue| + |lines| > QUEUE_SIZE)
    decreases |lines|
  {
    if lines == [] {
      got := [];
    } else {
      var more := OfferAllAdds(Offer(c, lines[0]), lines[1..]);
      if |c.queue| < QUEUE_SIZE {
        got := [lines[0]] + more;
        assert c.sent + [lines[0]] + more == c.sent + got;
        assert got[1..] == more;
      } else {
        got := more;
      }
    }
  }

  /** The chunks that an operation offers to a channel: what it emits, if the channel is subscribed. */
  function Offered(s: Session, op: Op, ch: nat): seq<string> {
    if ch in s.subs then Emitted(s, op) else []
  }

  /** An operation offers a subscribed channel exactly the chunks it emits. */
  lemma StepOffers(s: Session, op: Op, ch: nat)
    requires Reachable(s) && ch in s.subs
    ensures ch < |Apply(s, op).chans|
    ensures var c, c' := s.chans[ch], Apply(s, op).chans[ch];
      c'.sent == OfferAll(c, Emitted(s, op)).sent && c'.lossy == OfferAll(c, Emitted(s, op)).lossy
  {
    var out := Emitted(s, op);
    var c := s.chans[ch];
    if |out| == 1 {
      assert OfferAll(c, out) == Offer(c, out[0]);
    } else if |out| == 2 {
      assert out[1..] == [out[1]];
      assert OfferAll(c, out) == OfferAll(Offer(c, out[0]), [out[1]]) == Offer(Offer(c, out[0]), out[1]);
    }
  }

  lemma StepAdds(s: Session, op: Op, ch: nat) returns (got: seq<string>)
    requires Reachable(s) && ch < |s.chans|
    ensures ch < |Apply(s, op).chans|
    ensures var c, c' := s.chans[ch], Apply(s, op).chans[ch];
      && c'.sent == c.sent + got && Subseq(got, Emitted(s, op))
      && (c.lossy ==> c'.lossy)
      && (ch in s.subs && !c'.lossy ==> got == Emitted(s, op))
      && |got| <= |Offered(s, op, ch)|
      && (c'.lossy <==> c.lossy || |got| < |Offered(s, op, ch)|)
      && (c'.lossy <==> c.lossy || |c.queue| + |Offered(s, op, ch)| > QUEUE_SIZE)
      && (ch !in s.subs ==> got == [] && ch !in Apply(s, op).subs)
  {
    if ch in s.subs {
      StepOffers(s, op, ch);
      got := OfferAllAdds(s.chans[ch], Emitted(s, op));
    } else {
      got := [];
    }
  }

  /** What a channel accepted between two states, against the chunks emitted between them. */
  ghost predicate Accepted(s: Session, s': Session, ch: nat, got: seq<string>, out: seq<string>)
    requires ch < |s.chans| && ch < |s'.chans|
  {
    var c, c' := s.chans[ch], s'.chans[ch];
    && c'.sent == c.sent + got && Subseq(got, out)
    && (c.lossy ==> c'.lossy)
    && (!c'.lossy ==> got <= out)
    && (!c'.lossy && ch in s'.subs ==> got == out)
    && (ch !in s.subs ==> got == [] && ch !in s'.subs)
  }

  lemma AcceptedChains(
      s: Session, s1: Session, s2: Session, ch: nat,
      a: seq<string>, outA: seq<string>, b: seq<string>, outB: seq<string>)
    requires ch < |s.chans| && ch < |s1.chans| && ch < |s2.chans|
    requires Accepted(s, s1, ch, a, outA) && Accepted(s1, s2, ch, b, outB)
    requires ch in s.subs && !s1.chans[ch].lossy ==> a == outA
    ensures Accepted(s, s2, ch, a + b, outA + outB)
  {
    SubseqJoin(a, outA, b, outB);
    assert s.chans[ch].sent + a + b == s.chans[ch].sent + (a + b);
    if !s2.chans[ch].lossy && ch in s.subs {
      assert a + outB[..|b|] == (outA + outB)[..|a + b|];
    }
  }

  /**
   * From any point of any run, a channel accepts a subsequence of the chunks emitted from then on;
   * as long as its queue never filled, these are all of them up to when it was unsubscribed.
   */
  lemma {:induction false} RunAdds(s: Session, ops: seq<Op>, ch: nat) returns (got: seq<string>)
    requires Reachable(s) && ch < |s.chans|
    ensures ch < |Run(s, ops).chans| && Accepted(s, Run(s, ops), ch, got, AllEmitted(s, ops))
    decreases |ops|
  {
    if ops == [] {
      got := [];
      assert s.chans[ch].sent + [] == s.chans[ch].sent;
    } else {
      var s' := Apply(s, ops[0]);
      var first := StepAdds(s, ops[0], ch);
      StepReachable(s, ops[0]);
      var more := RunAdds(s', ops[1..], ch);
      got := first + more;
      AcceptedChains(s, s', Run(s', ops[1..]), ch, first, Emitted(s, ops[0]), more, AllEmitted(s', ops[1..]));
    }
  }

  /**
   * A subscriber of an open session gets the whole ring as it stood, then a subsequence of what is
   * emitted later: all of it, up to when it unsubscribed, if its queue never filled.
   */
  lemma SubscriberGets(before: seq<Op>, after: seq<Op>) returns (got: seq<string>)
    requires !Run(Opened(), before).closed
    ensures var s := Run(Opened(), before);
      var ch := |s.chans|;
      var s' := Apply(s, Subscribe);
      var end := Run(s', after);
      && ch < |end.chans|
      && end.chans[ch].sent == s.ring + got
      && Subseq(got, AllEmitted(s', after))
      && (!end.chans[ch].lossy ==> got <= AllEmitted(s', after))
      && (!end.chans[ch].lossy && ch in end.subs ==> got == AllEmitted(s', after))
  {
    var s := Run(Opened(), before);
    RunReachable(Opened(), before);
    SubscribeReplays(s);
    got := RunAdds(Apply(s, Subscribe), after, |s.chans|);
  }

  /** A new channel has accepted the whole ring, and is subscribed unless the session is closed. */
  lemma SubscribeReplays(s: Session)
    requires Reachable(s)
    ensures var s', ch := Apply(s, Subscribe), |s.chans|;
      && Reachable(s') && |s'.chans| == ch + 1
      && s'.chans[ch].sent == s.ring && !s'.chans[ch].lossy && (ch in s'.subs <==> !s.closed)
  {
    StepReachable(s, Subscribe);
    var replay := OfferAllAdds(Chan([], [], false, false, false), s.ring);
    assert [] + s.ring == s.ring;
  }

  /** Whoever subscribes to a closed session gets the whole ring and then the end, and nothing more. */
  lemma LateSubscriberGets(before: seq<Op>, after: seq<Op>)
    requires Run(Opened(), before).closed
    ensures var s := Run(Opened(), before);
      var ch := |s.chans|;
      var end := Run(Apply(s, Subscribe), after);
      ch < |end.chans| && end.chans[ch].sent == s.ring && end.chans[ch].closed && !end.chans[ch].misused
  {
    var s := Run(Opened(), before);
    var s', ch := Apply(s, Subscribe), |s.chans|;
    RunReachable(Opened(), before);
    SubscribeReplays(s);
    var got := RunAdds(s', after, ch);
    assert s.ring + [] == s.ring;
    RunReachable(s', after);
  }
}
