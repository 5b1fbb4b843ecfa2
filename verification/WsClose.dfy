/**
 * How reading ends other than with a message, and the close handshake over any calls on one connection
 * (RFC 6455 sections 5.4, 5.5.1 and 7.1).
 */
module WsClose {
  import opened Basics
  import opened WsFrames
  import opened WsConn
  import opened WsWire

  // ---------------------------------------------------------------- what comes before

  /** Pings, pongs and data frames of a message that is not at its end yet. */
  predicate Unfinished(xs: seq<Sent>, started: bool): (ok: bool)
    ensures ok ==> AllSendable(xs)
    decreases |xs|
  {
    xs == [] ||
    (Sendable(xs[0]) &&
     var f := xs[0].frame;
     assert AllSendable(xs[1..]) ==> AllSendable([xs[0]] + xs[1..]);
     assert xs == [xs[0]] + xs[1..];
     if f.opcode == PING || f.opcode == PONG then Unfinished(xs[1..], started)
     else started == (f.opcode == CONTINUATION) && f.opcode <= BINARY && !f.fin && Unfinished(xs[1..], true))
  }

  /** The opcode of the message so far. */
  function OpcodeOf(xs: seq<Sent>, opcode: Byte): Byte
    decreases |xs|
  {
    if xs == [] then opcode else OpcodeOf(xs[1..], OpcodeAfter(xs[0].frame, opcode))
  }

  lemma UnfinishedTurn(xs: seq<Sent>, s: State, message: Bytes, opcode: Byte)
    requires xs != [] && Unfinished(xs, opcode != 0) && |message| + |DataOf(xs[0].frame)| <= MAX_PAYLOAD
    requires !s.out.broken && |PongFor(xs[0].frame)| <= s.out.accepts
    ensures var f, s' := xs[0].frame, s.(out := Put(s.out, PongFor(xs[0].frame)));
      && Unfinished(xs[1..], OpcodeAfter(f, opcode) != 0) && !s'.out.broken
      && Take(f, s, message, opcode) == GoOn(s', message + DataOf(f), OpcodeAfter(f, opcode))
  {
    assert s.out.wire + [] == s.out.wire && message + [] == message;
  }

  /** Reading goes through them, answers the pings and keeps the text. */
  lemma {:induction false} ReadsOn(s: State, xs: seq<Sent>, rest: Bytes, message: Bytes, opcode: Byte)
    requires Unfinished(xs, opcode != 0) && |message| + |TextOf(xs)| <= MAX_PAYLOAD
    requires !s.out.broken && |PongsOf(xs)| <= s.out.accepts
    ensures !Put(s.out, PongsOf(xs)).broken
    ensures ReadFrom(s.(input := EncodeAll(xs) + rest), message, opcode)
         == ReadFrom(s.(input := rest, out := Put(s.out, PongsOf(xs))), message + TextOf(xs), OpcodeOf(xs, opcode))
    decreases |xs|
  {
    if xs == [] {
      assert [] + rest == rest && message + [] == message;
      NothingSent(s.out);
    } else {
      var x, xs' := xs[0], xs[1..];
      var rest' := EncodeAll(xs') + rest;
      assert xs == [x] + xs';
      Joined(x, xs', message, rest);
      NextTurn(s.(input := EncodeAll(xs) + rest), x, rest', message, opcode);
      UnfinishedTurn(xs, s.(input := rest'), message, opcode);
      PutConcat(s.out, PongFor(x.frame), PongsOf(xs'));
      PongsFit(s.out, PongFor(x.frame), PongsOf(xs'));
      var s' := s.(input := rest', out := Put(s.out, PongFor(x.frame)));
      ReadsOn(s', xs', rest, message + DataOf(x.frame), OpcodeAfter(x.frame, opcode));
    }
  }

  /** And comes to the frame behind them. */
  lemma ReadsUpTo(s: State, xs: seq<Sent>, x: Sent, rest: Bytes, message: Bytes, opcode: Byte) returns (turn: Turn)
    requires Unfinished(xs, opcode != 0) && |message| + |TextOf(xs)| <= MAX_PAYLOAD && Sendable(x)
    requires !s.out.broken && |PongsOf(xs)| <= s.out.accepts
    ensures turn == Take(x.frame, s.(input := rest, out := Put(s.out, PongsOf(xs))), message + TextOf(xs),
                         OpcodeOf(xs, opcode))
    ensures turn.Return? ==>
      ReadFrom(s.(input := EncodeAll(xs) + (Encode(x.frame, x.mask, x.form) + rest)), message, opcode)
      == Reading(turn.outcome, turn.state)
  {
    var more := Encode(x.frame, x.mask, x.form) + rest;
    ReadsOn(s, xs, more, message, opcode);
    var s' := s.(input := more, out := Put(s.out, PongsOf(xs)));
    NextTurn(s', x, rest, message + TextOf(xs), OpcodeOf(xs, opcode));
    turn := Take(x.frame, s'.(input := rest), message + TextOf(xs), OpcodeOf(xs, opcode));
    assert s'.(input := rest) == s.(input := rest, out := Put(s.out, PongsOf(xs)));
  }

  /** Bytes that are no frame end the reading with the frame's error, and what was not read stays. */
  lemma BadFrameEnds(s: State, xs: seq<Sent>, bad: Bytes, message: Bytes, opcode: Byte)
    requires Unfinished(xs, opcode != 0) && |message| + |TextOf(xs)| <= MAX_PAYLOAD && ParseFrame(bad).Failed?
    requires !s.out.broken && |PongsOf(xs)| <= s.out.accepts
    ensures ReadFrom(s.(input := EncodeAll(xs) + bad), message, opcode)
         == Reading(BadFrame(ParseFrame(bad).error), s.(input := ParseFrame(bad).rest, out := Put(s.out, PongsOf(xs))))
  {
    ReadsOn(s, xs, bad, message, opcode);
  }

  // ---------------------------------------------------------------- a close frame

  /**
   * A close frame is answered with its own payload, behind the pongs due, and ends the stream; unless a
   * close frame of ours is out or on its way: then it is swallowed. Where the socket fails, that is reported.
   */
  lemma AnswersClose(s: State, xs: seq<Sent>, x: Sent, rest: Bytes, message: Bytes, opcode: Byte)
    requires Unfinished(xs, opcode != 0) && |message| + |TextOf(xs)| <= MAX_PAYLOAD
    requires Sendable(x) && x.frame.opcode == CLOSE && !s.out.broken && |PongsOf(xs)| <= s.out.accepts
    ensures var r := ReadFrom(s.(input := EncodeAll(xs) + (Encode(x.frame, x.mask, x.form) + rest)), message, opcode);
      var reply := PongsOf(xs) + ServerFrame(CLOSE, x.frame.payload);
      && r.state.input == rest && r.state.closing
      && (s.closing ==> r.outcome == EndOfStream && r.state.out == Put(s.out, PongsOf(xs)))
      && (!s.closing ==>
            && r.state.out == Put(s.out, reply)
            && r.outcome == (if |reply| <= s.out.accepts then EndOfStream else WriteFailed))
  {
    var turn := ReadsUpTo(s, xs, x, rest, message, opcode);
    PutConcat(s.out, PongsOf(xs), ServerFrame(CLOSE, x.frame.payload));
    NothingSent(s.out);
  }

  /** A ping whose pong the socket does not take ends the reading. */
  lemma PongFails(s: State, xs: seq<Sent>, x: Sent, rest: Bytes, message: Bytes, opcode: Byte)
    requires Unfinished(xs, opcode != 0) && |message| + |TextOf(xs)| <= MAX_PAYLOAD
    requires Sendable(x) && x.frame.opcode == PING && !s.out.broken && |PongsOf(xs)| <= s.out.accepts
    requires |PongsOf(xs) + PongFor(x.frame)| > s.out.accepts
    ensures ReadFrom(s.(input := EncodeAll(xs) + (Encode(x.frame, x.mask, x.form) + rest)), message, opcode)
         == Reading(WriteFailed, s.(input := rest, out := Put(s.out, PongsOf(xs) + PongFor(x.frame))))
  {
    PutConcat(s.out, PongsOf(xs), PongFor(x.frame));
    var turn := ReadsUpTo(s, xs, x, rest, message, opcode);
  }

  // ---------------------------------------------------------------- frames out of place

  predicate DataOpcode(opcode: Byte) {
    opcode == TEXT || opcode == BINARY
  }

  lemma TurnsAway(f: Frame, s: State, message: Bytes, opcode: Byte)
    requires Acceptable(f)
    ensures var turn, begun := Take(f, s, message, opcode), opcode != 0;
      && (DataOpcode(f.opcode) && begun ==> turn == Return(NewDataBeforeEnd, s))
      && (f.opcode == CONTINUATION && !begun ==> turn == Return(UnexpectedContinuation, s))
      && (f.opcode in {3, 4, 5, 6, 7, 11, 12, 13, 14, 15} ==> turn == Return(UnexpectedOpcode, s))
      && ((DataOpcode(f.opcode) && !begun) || (f.opcode == CONTINUATION && begun) ==>
            |message| + |f.payload| > MAX_PAYLOAD ==> turn == Return(MessageTooLarge, s))
  {
  }

  /** A data frame out of place is refused, each kind with its own error, and nothing but the pongs goes out. */
  lemma RefusesOutOfPlace(s: State, xs: seq<Sent>, x: Sent, rest: Bytes, message: Bytes, opcode: Byte)
    requires Unfinished(xs, opcode != 0) && |message| + |TextOf(xs)| <= MAX_PAYLOAD
    requires Sendable(x) && !s.out.broken && |PongsOf(xs)| <= s.out.accepts
    ensures var r := ReadFrom(s.(input := EncodeAll(xs) + (Encode(x.frame, x.mask, x.form) + rest)), message, opcode);
      var begun, after := OpcodeOf(xs, opcode) != 0, s.(input := rest, out := Put(s.out, PongsOf(xs)));
      && (DataOpcode(x.frame.opcode) && begun ==> r == Reading(NewDataBeforeEnd, after))
      && (x.frame.opcode == CONTINUATION && !begun ==> r == Reading(UnexpectedContinuation, after))
      && (x.frame.opcode in {3, 4, 5, 6, 7, 11, 12, 13, 14, 15} ==> r == Reading(UnexpectedOpcode, after))
      && ((DataOpcode(x.frame.opcode) && !begun) || (x.frame.opcode == CONTINUATION && begun) ==>
            |message| + |TextOf(xs)| + |x.frame.payload| > MAX_PAYLOAD ==> r == Reading(MessageTooLarge, after))
  {
    var turn := ReadsUpTo(s, xs, x, rest, message, opcode);
    TurnsAway(x.frame, s.(input := rest, out := Put(s.out, PongsOf(xs))), message + TextOf(xs), OpcodeOf(xs, opcode));
  }

  // ---------------------------------------------------------------- any calls on one connection

  datatype Call = ReadCall | WriteCall(payload: Bytes) | CloseCall

  predicate ValidCall(c: Call) {
    c.WriteCall? ==> |c.payload| < 0x8000_0000_0000_0000
  }

  /** A connection between calls: closed once Close has run. */
  datatype Link = Link(state: State, closed: bool)

  /** What a call does, as Conn.ReadText, Conn.WriteText and Conn.Close say. */
  function Act(l: Link, c: Call): Link
    requires ValidCall(c)
  {
    match c
    case ReadCall => l.(state := ReadMessage(l.state).state)
    case WriteCall(p) => l.(state := l.state.(out := Put(l.state.out, ServerFrame(TEXT, p))))
    case CloseCall => if l.closed then l else Link(Closed(l.state), true)
  }

  function ActAll(l: Link, calls: seq<Call>): Link
    requires forall i :: 0 <= i < |calls| ==> ValidCall(calls[i])
    decreases |calls|
  {
    if calls == [] then l else ActAll(Act(l, calls[0]), calls[1..])
  }

  predicate AllValid(fs: seq<Outgoing>) {
    forall i :: 0 <= i < |fs| ==> Valid(fs[i])
  }

  function FrameBytes(fs: seq<Outgoing>): Bytes
    requires AllValid(fs)
    decreases |fs|
  {
    if fs == [] then [] else BytesOf(fs[0]) + FrameBytes(fs[1..])
  }

  function Closes(fs: seq<Outgoing>): nat
    decreases |fs|
  {
    if fs == [] then 0 else One(fs[0].opcode == CLOSE) + Closes(fs[1..])
  }

  /** The texts that went into frames. */
  function TextsIn(fs: seq<Outgoing>): seq<Bytes>
    decreases |fs|
  {
    if fs == [] then [] else (if fs[0].opcode == TEXT then [fs[0].payload] else []) + TextsIn(fs[1..])
  }

  /** The frames lead from one output to the other, and hold one close frame exactly if closing was set meanwhile. */
  ghost predicate Sends(s: State, s': State, fs: seq<Outgoing>) {
    && AllValid(fs) && s'.out == Put(s.out, FrameBytes(fs))
    && Closes(fs) == (if s'.closing && !s.closing then 1 else 0) && (s.closing ==> s'.closing)
  }

  lemma ValidJoin(a: seq<Outgoing>, b: seq<Outgoing>)
    requires AllValid(a) && AllValid(b)
    ensures AllValid(a + b)
  {
  }

  lemma FirstOfJoin(a: seq<Outgoing>, b: seq<Outgoing>)
    requires a != []
    ensures (a + b)[0] == a[0] && (a + b)[1..] == a[1..] + b
  {
  }

  lemma {:induction false} BytesJoin(a: seq<Outgoing>, b: seq<Outgoing>)
    requires AllValid(a) && AllValid(b) && AllValid(a + b)
    ensures FrameBytes(a + b) == FrameBytes(a) + FrameBytes(b)
    decreases |a|
  {
    if a == [] {
      assert a + b == b;
    } else {
      FirstOfJoin(a, b);
      BytesJoin(a[1..], b);
      Assoc(BytesOf(a[0]), FrameBytes(a[1..]), FrameBytes(b));
    }
  }

  lemma {:induction false} CountsJoin(a: seq<Outgoing>, b: seq<Outgoing>)
    ensures TextsIn(a + b) == TextsIn(a) + TextsIn(b) && Closes(a + b) == Closes(a) + Closes(b)
    decreases |a|
  {
    if a == [] {
      assert a + b == b;
    } else {
      FirstOfJoin(a, b);
      CountsJoin(a[1..], b);
    }
  }

  lemma SendsThen(s: State, s1: State, s2: State, a: seq<Outgoing>, b: seq<Outgoing>)
    requires Sends(s, s1, a) && Sends(s1, s2, b)
    ensures Sends(s, s2, a + b) && TextsIn(a + b) == TextsIn(a) + TextsIn(b)
  {
    ValidJoin(a, b);
    BytesJoin(a, b);
    CountsJoin(a, b);
    PutConcat(s.out, FrameBytes(a), FrameBytes(b));
  }

  lemma SendsNothing(s: State, s': State)
    requires s'.out == s.out && s'.closing == s.closing
    ensures Sends(s, s', [])
  {
    if !s.out.broken {
      NothingSent(s.out);
    }
  }

  lemma SendsOne(s: State, s': State, f: Outgoing)
    requires Valid(f) && s'.out == Put(s.out, BytesOf(f)) && (s.closing ==> s'.closing)
    requires f.opcode == CLOSE <==> s'.closing && !s.closing
    ensures Sends(s, s', [f])
  {
    assert [f][1..] == [] && BytesOf(f) + [] == BytesOf(f);
  }

  /** What one turn of the reader sends. */
  lemma TurnSends(f: Frame, s: State, message: Bytes, opcode: Byte) returns (fs: seq<Outgoing>)
    requires Acceptable(f)
    ensures Sends(s, Take(f, s, message, opcode).state, fs) && TextsIn(fs) == []
  {
    var s' := Take(f, s, message, opcode).state;
    if f.opcode == CLOSE && !s.closing {
      fs := [Outgoing(CLOSE, f.payload)];
      SendsOne(s, s', fs[0]);
    } else if f.opcode == PING {
      fs := [Outgoing(PONG, f.payload)];
      SendsOne(s, s', fs[0]);
    } else {
      fs := [];
      SendsNothing(s, s');
    }
  }

  /** What a whole reading sends: pongs, and the one reply to a close frame. */
  lemma {:induction false} ReadSends(s: State, message: Bytes, opcode: Byte) returns (fs: seq<Outgoing>)
    ensures Sends(s, ReadFrom(s, message, opcode).state, fs) && TextsIn(fs) == []
    decreases |s.input|
  {
    var r := ParseFrame(s.input);
    if r.Failed? {
      fs := [];
      SendsNothing(s, s.(input := r.rest));
    } else {
      ParseShrinks(s.input);
      var s1 := s.(input := r.rest);
      var turn := Take(r.frame, s1, message, opcode);
      fs := TurnSends(r.frame, s1, message, opcode);
      if turn.GoOn? {
        var more := ReadSends(turn.state, turn.message, turn.opcode);
        SendsThen(s1, turn.state, ReadFrom(turn.state, turn.message, turn.opcode).state, fs, more);
        fs := fs + more;
      }
    }
  }

  // ---------------------------------------------------------------- one goodbye

  /** After Close the socket takes nothing, and closing is set. */
  predicate Shut(l: Link) {
    l.closed ==> l.state.out.accepts == 0 && l.state.closing
  }

  /** Once closed, no call sends anything. */
  lemma {:induction false} SilentWhenClosed(l: Link, calls: seq<Call>)
    requires (forall i :: 0 <= i < |calls| ==> ValidCall(calls[i])) && Shut(l) && l.closed
    ensures var l' := ActAll(l, calls); l'.closed && Shut(l') && l'.state.out.wire == l.state.out.wire
    decreases |calls|
  {
    if calls != [] {
      if calls[0].ReadCall? {
        var fs := ReadSends(l.state, [], 0);
      }
      assert forall i :: 0 <= i < |calls| - 1 ==> calls[1..][i] == calls[i + 1];
      SilentWhenClosed(Act(l, calls[0]), calls[1..]);
    }
  }

  /** The texts of the write calls up to the first Close. */
  function TextsOf(calls: seq<Call>): seq<Bytes>
    decreases |calls|
  {
    if calls == [] || calls[0].CloseCall? then []
    else (if calls[0].WriteCall? then [calls[0].payload] else []) + TextsOf(calls[1..])
  }

  /** What one call on an open connection sends. */
  lemma CallSends(l: Link, c: Call) returns (fs: seq<Outgoing>)
    requires ValidCall(c) && !l.closed
    ensures !c.CloseCall? ==> Sends(l.state, Act(l, c).state, fs) && !Act(l, c).closed
    ensures c.CloseCall? ==> var l' := Act(l, c);
      && AllValid(fs) && l'.closed && Shut(l') && l'.state.out.wire == Put(l.state.out, FrameBytes(fs)).wire
      && fs == if l.state.closing then [] else [Outgoing(CLOSE, [])]
    ensures TextsIn(fs) == if c.WriteCall? then [c.payload] else []
  {
    match c
    case ReadCall =>
      fs := ReadSends(l.state, [], 0);
    case WriteCall(p) =>
      fs := [Outgoing(TEXT, p)];
      SendsOne(l.state, Act(l, c).state, fs[0]);
      assert TextsIn(fs) == [p] + TextsIn([]);
    case CloseCall =>
      if l.state.closing {
        fs := [];
        SendsNothing(l.state, l.state);
      } else {
        fs := [Outgoing(CLOSE, [])];
        assert fs[1..] == [] && BytesOf(fs[0]) + [] == BytesOf(fs[0]);
        assert TextsIn(fs) == [] + TextsIn([]);
      }
  }

  /**
   * Over any calls of ReadText, WriteText and Close on one connection, what the socket is given is a row of
   * frames: the texts written before Close in their order, pongs, and one close frame exactly if closing
   * was set meanwhile, by a close frame that was read or by Close; and after Close nothing more.
   */
  lemma {:induction false} OneGoodbye(l: Link, calls: seq<Call>) returns (fs: seq<Outgoing>)
    requires (forall i :: 0 <= i < |calls| ==> ValidCall(calls[i])) && !l.closed
    ensures var l' := ActAll(l, calls);
      && AllValid(fs) && l'.state.out.wire == Put(l.state.out, FrameBytes(fs)).wire && Shut(l')
      && Closes(fs) == (if l'.state.closing && !l.state.closing then 1 else 0)
      && (l'.closed <==> Call.CloseCall in calls) && (l'.closed || l.state.closing ==> l'.state.closing)
      && TextsIn(fs) == TextsOf(calls)
    decreases |calls|
  {
    if calls == [] {
      fs := [];
      SendsNothing(l.state, l.state);
    } else {
      var c, rest, l1 := calls[0], calls[1..], Act(l, calls[0]);
      assert forall i :: 0 <= i < |rest| ==> rest[i] == calls[i + 1];
      fs := CallSends(l, c);
      if c.CloseCall? {
        SilentWhenClosed(l1, rest);
        ClosingStays(l1, rest);
        assert fs != [] ==> fs[1..] == [];
      } else {
        var more := OneGoodbye(l1, rest);
        ValidJoin(fs, more);
        BytesJoin(fs, more);
        CountsJoin(fs, more);
        PutConcat(l.state.out, FrameBytes(fs), FrameBytes(more));
        fs := fs + more;
      }
    }
  }

  lemma ClosingStays(l: Link, calls: seq<Call>)
    requires (forall i :: 0 <= i < |calls| ==> ValidCall(calls[i])) && Shut(l) && l.closed
    ensures ActAll(l, calls).state.closing
  {
    SilentWhenClosed(l, calls);
  }

  /** A connection that is new: at most one close frame, and exactly one once either side has said goodbye. */
  lemma NewConnection(input: Bytes, accepts: nat, calls: seq<Call>) returns (fs: seq<Outgoing>)
    requires forall i :: 0 <= i < |calls| ==> ValidCall(calls[i])
    ensures var l := ActAll(Link(State(input, Out([], accepts, false), false), false), calls);
      && AllValid(fs) && (|FrameBytes(fs)| <= accepts ==> l.state.out.wire == FrameBytes(fs))
      && (|FrameBytes(fs)| > accepts ==> l.state.out.wire == FrameBytes(fs)[..accepts])
      && Closes(fs) == (if l.state.closing then 1 else 0) && (Call.CloseCall in calls ==> l.state.closing)
      && TextsIn(fs) == TextsOf(calls)
  {
    fs := OneGoodbye(Link(State(input, Out([], accepts, false), false), false), calls);
    assert [] + FrameBytes(fs) == FrameBytes(fs);
  }
}
