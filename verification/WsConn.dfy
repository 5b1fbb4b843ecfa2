/**
 * Conn: reading messages out of fragmented frames with control frames in between (RFC 6455
 * sections 5.4 and 5.5), and the close handshake as one goroutine sees it.
 */
module WsConn {
  import opened Basics
  import opened WsFrames

  const CONTINUATION: Byte := 0
  const TEXT: Byte := 1
  const BINARY: Byte := 2
  const CLOSE: Byte := 8
  const PING: Byte := 9
  const PONG: Byte := 10

  datatype Outcome =
    | Message(payload: Bytes)
    | EndOfStream
    | BadFrame(error: FrameError)
    | WriteFailed
    | NewDataBeforeEnd
    | UnexpectedContinuation
    | UnexpectedOpcode
    | MessageTooLarge

  datatype State = State(input: Bytes, out: Out, closing: bool)

  datatype Reading = Reading(outcome: Outcome, state: State)

  /** writeControl, for the payloads that readFrame lets through. */
  function SendControl(out: Out, opcode: Byte, payload: Bytes): Out
    requires opcode < 16 && |payload| <= 125
  {
    Put(out, ServerFrame(opcode, payload))
  }

  lemma {:induction false} ParseShrinks(s: Bytes)
    requires ParseFrame(s).Parsed?
    ensures |ParseFrame(s).rest| < |s| && Acceptable(ParseFrame(s).frame)
  {
    var mask, form := EncodeParse(s);
  }

  /** A close frame has come in: reply once, unless a close went out already. */
  function OnClose(s: State, payload: Bytes): Turn
    requires |payload| <= 125
  {
    if s.closing then Return(EndOfStream, s)
    else
      var out := SendControl(s.out, CLOSE, payload);
      Return(if out.broken then WriteFailed else EndOfStream, s.(out := out, closing := true))
  }

  /** One turn of the loop of ReadText: return, or go on with this message and its opcode (0: none yet). */
  datatype Turn = Return(outcome: Outcome, state: State) | GoOn(state: State, message: Bytes, opcode: Byte)

  function Take(f: Frame, s: State, message: Bytes, opcode: Byte): (turn: Turn)
    requires Acceptable(f)
    ensures turn.state.input == s.input
  {
    if f.opcode == CLOSE then OnClose(s, f.payload)
    else if f.opcode == PING then
      var out := SendControl(s.out, PONG, f.payload);
      if out.broken then Return(WriteFailed, s.(out := out)) else GoOn(s.(out := out), message, opcode)
    else if f.opcode == PONG then GoOn(s, message, opcode)
    else if f.opcode != TEXT && f.opcode != BINARY && f.opcode != CONTINUATION then Return(UnexpectedOpcode, s)
    else if f.opcode != CONTINUATION && opcode != 0 then Return(NewDataBeforeEnd, s)
    else if f.opcode == CONTINUATION && opcode == 0 then Return(UnexpectedContinuation, s)
    else if |message| + |f.payload| > MAX_PAYLOAD then Return(MessageTooLarge, s)
    else if f.fin then Return(Message(message + f.payload), s)
    else GoOn(s, message + f.payload, if f.opcode != CONTINUATION then f.opcode else opcode)
  }

  /** The loop of ReadText. */
  function ReadFrom(s: State, message: Bytes, opcode: Byte): Reading
    decreases |s.input|
  {
    var r := ParseFrame(s.input);
    if r.Failed? then Reading(BadFrame(r.error), s.(input := r.rest))
    else
      ParseShrinks(s.input);
      match Take(r.frame, s.(input := r.rest), message, opcode)
      case Return(outcome, s') => Reading(outcome, s')
      case GoOn(s', message', opcode') => ReadFrom(s', message', opcode')
  }

  function ReadMessage(s: State): Reading {
    ReadFrom(s, [], 0)
  }

  // ---------------------------------------------------------------- the peer

  /** A frame as the client sends it. */
  datatype Sent = Sent(frame: Frame, mask: Bytes, form: Form)

  predicate Sendable(x: Sent) {
    && |x.mask| == 4 && FormFits(x.form, |x.frame.payload|) && Acceptable(x.frame)
  }

  predicate AllSendable(xs: seq<Sent>) {
    forall i :: 0 <= i < |xs| ==> Sendable(xs[i])
  }

  function EncodeAll(xs: seq<Sent>): Bytes
    requires AllSendable(xs)
    decreases |xs|
  {
    if xs == [] then [] else Encode(xs[0].frame, xs[0].mask, xs[0].form) + EncodeAll(xs[1..])
  }

  /**
   * One message, from its first control or data frame to its final frame: the first data frame says
   * text or binary, the others continue it, the last one is final; pings and pongs may come anywhere
   * before the last.
   */
  predicate IsMessage(xs: seq<Sent>, started: bool): (ok: bool)
    ensures ok ==> AllSendable(xs)
    decreases |xs|
  {
    xs != [] && Sendable(xs[0]) &&
    var f := xs[0].frame;
    assert AllSendable(xs[1..]) ==> AllSendable([xs[0]] + xs[1..]);
    assert xs == [xs[0]] + xs[1..];
    if f.opcode == PING || f.opcode == PONG then IsMessage(xs[1..], started)
    else if started != (f.opcode == CONTINUATION) || f.opcode > BINARY then false
    else if f.fin then |xs| == 1
    else IsMessage(xs[1..], true)
  }

  function DataOf(f: Frame): Bytes {
    if f.opcode < CLOSE then f.payload else []
  }

  /** The pong due for a frame. */
  function PongFor(f: Frame): Bytes {
    if f.opcode == PING && |f.payload| <= 125 then ServerFrame(PONG, f.payload) else []
  }

  /** The payloads of the data frames, in order. */
  function TextOf(xs: seq<Sent>): Bytes
    decreases |xs|
  {
    if xs == [] then [] else DataOf(xs[0].frame) + TextOf(xs[1..])
  }

  /** The pongs due: one for each ping, with its payload, in order. */
  function PongsOf(xs: seq<Sent>): Bytes
    decreases |xs|
  {
    if xs == [] then [] else PongFor(xs[0].frame) + PongsOf(xs[1..])
  }

  // ---------------------------------------------------------------- reassembly

  lemma Joined(x: Sent, xs: seq<Sent>, message: Bytes, rest: Bytes)
    requires Sendable(x) && AllSendable(xs) && AllSendable([x] + xs)
    ensures EncodeAll([x] + xs) + rest == Encode(x.frame, x.mask, x.form) + (EncodeAll(xs) + rest)
    ensures message + TextOf([x] + xs) == message + DataOf(x.frame) + TextOf(xs)
    ensures PongsOf([x] + xs) == PongFor(x.frame) + PongsOf(xs)
  {
    assert ([x] + xs)[1..] == xs;
    Assoc(Encode(x.frame, x.mask, x.form), EncodeAll(xs), rest);
    Assoc(message, DataOf(x.frame), TextOf(xs));
  }

  lemma Assoc(a: Bytes, b: Bytes, c: Bytes)
    ensures a + b + c == a + (b + c)
  {
  }

  lemma PongsFit(out: Out, a: Bytes, b: Bytes)
    requires !out.broken && |a + b| <= out.accepts
    ensures !Put(out, a).broken && |b| <= Put(out, a).accepts
  {
  }

  /** A frame at the front of the input is the next turn. */
  lemma NextTurn(s: State, x: Sent, rest: Bytes, message: Bytes, opcode: Byte)
    requires Sendable(x) && s.input == Encode(x.frame, x.mask, x.form) + rest
    ensures ReadFrom(s, message, opcode) ==
      match Take(x.frame, s.(input := rest), message, opcode)
      case Return(outcome, s') => Reading(outcome, s')
      case GoOn(s', message', opcode') => ReadFrom(s', message', opcode')
  {
    ParseEncode(x.frame, x.mask, x.form, rest);
  }

  predicate Final(f: Frame) {
    f.opcode < CLOSE && f.fin
  }

  function OpcodeAfter(f: Frame, opcode: Byte): Byte {
    if f.opcode == TEXT || f.opcode == BINARY then f.opcode else opcode
  }

  /** A frame of a message, while the pong it needs can be sent and the message does not get too long. */
  lemma MessageTurn(xs: seq<Sent>, s: State, message: Bytes, opcode: Byte)
    requires IsMessage(xs, opcode != 0) && |message| + |DataOf(xs[0].frame)| <= MAX_PAYLOAD
    requires !s.out.broken && |PongFor(xs[0].frame)| <= s.out.accepts
    ensures var f, s' := xs[0].frame, s.(out := Put(s.out, PongFor(xs[0].frame)));
      if Final(f) then
        xs[1..] == [] && Take(f, s, message, opcode) == Return(Message(message + DataOf(f)), s')
      else
        && IsMessage(xs[1..], OpcodeAfter(f, opcode) != 0) && !s'.out.broken
        && Take(f, s, message, opcode) == GoOn(s', message + DataOf(f), OpcodeAfter(f, opcode))
  {
    assert s.out.wire + [] == s.out.wire && message + [] == message;
  }

  /**
   * However a message of at most 4 MiB is fragmented, masked and interleaved with pings and pongs,
   * reading returns exactly its text, takes exactly its frames, and sends one pong for each ping.
   */
  lemma {:induction false} Reassembles(s: State, xs: seq<Sent>, rest: Bytes, message: Bytes, opcode: Byte)
    requires IsMessage(xs, opcode != 0) && |message| + |TextOf(xs)| <= MAX_PAYLOAD
    requires !s.out.broken && |PongsOf(xs)| <= s.out.accepts
    ensures ReadFrom(s.(input := EncodeAll(xs) + rest), message, opcode)
         == Reading(Message(message + TextOf(xs)), s.(input := rest, out := Put(s.out, PongsOf(xs))))
    decreases |xs|
  {
    var x, xs' := xs[0], xs[1..];
    var rest' := EncodeAll(xs') + rest;
    assert xs == [x] + xs';
    Joined(x, xs', message, rest);
    NextTurn(s.(input := EncodeAll(xs) + rest), x, rest', message, opcode);
    MessageTurn(xs, s.(input := rest'), message, opcode);
    if Final(x.frame) {
      LastFrame(xs, rest);
    } else {
      var pong := PongFor(x.frame);
      PutConcat(s.out, pong, PongsOf(xs'));
      PongsFit(s.out, pong, PongsOf(xs'));
      var s' := s.(input := rest', out := Put(s.out, pong));
      Reassembles(s', xs', rest, message + DataOf(x.frame), OpcodeAfter(x.frame, opcode));
    }
  }

  lemma LastFrame(xs: seq<Sent>, rest: Bytes)
    requires AllSendable(xs) && xs != [] && xs[1..] == []
    ensures TextOf(xs) == DataOf(xs[0].frame) && PongsOf(xs) == PongFor(xs[0].frame)
    ensures EncodeAll(xs[1..]) + rest == rest
  {
  }

  // ---------------------------------------------------------------- many messages

  predicate AllMessages(ms: seq<seq<Sent>>) {
    forall i :: 0 <= i < |ms| ==> IsMessage(ms[i], false) && |TextOf(ms[i])| <= MAX_PAYLOAD
  }

  function EncodeMessages(ms: seq<seq<Sent>>): Bytes
    requires AllMessages(ms)
    decreases |ms|
  {
    if ms == [] then []
    else
      EncodeAll(ms[0]) + EncodeMessages(ms[1..])
  }

  function Pongs(ms: seq<seq<Sent>>): Bytes
    decreases |ms|
  {
    if ms == [] then [] else PongsOf(ms[0]) + Pongs(ms[1..])
  }

  /** n successive calls of a reader, as long as they return messages. */
  function Many(read: State -> Reading, s: State, n: nat): (seq<Bytes>, State)
    decreases n
  {
    if n == 0 then ([], s)
    else
      var r := read(s);
      if r.outcome.Message? then
        var (more, s') := Many(read, r.state, n - 1);
        ([r.outcome.payload] + more, s')
      else ([], r.state)
  }

  /** n successive calls of ReadText. */
  function ReadMany(s: State, n: nat): (seq<Bytes>, State) {
    Many(ReadMessage, s, n)
  }

  /** The states between the calls, and what the calls return. */
  lemma {:induction false} ManyAlong(read: State -> Reading, states: seq<State>, texts: seq<Bytes>)
    requires |states| == |texts| + 1
    requires forall i :: 0 <= i < |texts| ==> read(states[i]) == Reading(Message(texts[i]), states[i + 1])
    ensures Many(read, states[0], |texts|) == (texts, states[|texts|])
    decreases |texts|
  {
    if texts != [] {
      var states', texts' := states[1..], texts[1..];
      assert forall i :: 0 <= i < |texts'| ==> states'[i] == states[i + 1] && texts'[i] == texts[i + 1];
      ManyAlong(read, states', texts');
      assert texts == [texts[0]] + texts';
    }
  }

  /** The state after the first i messages. */
  function StateAt(s: State, ms: seq<seq<Sent>>, rest: Bytes, i: nat): State
    requires AllMessages(ms) && i <= |ms|
  {
    s.(input := EncodeMessages(ms[i..]) + rest, out := Put(s.out, Pongs(ms[..i])))
  }

  lemma {:induction false} PongsConcat(a: seq<seq<Sent>>, b: seq<seq<Sent>>)
    ensures Pongs(a + b) == Pongs(a) + Pongs(b)
    decreases |a|
  {
    if a == [] {
      assert a + b == b;
    } else {
      assert (a + b)[1..] == a[1..] + b && (a + b)[0] == a[0];
      PongsConcat(a[1..], b);
      Assoc(PongsOf(a[0]), Pongs(a[1..]), Pongs(b));
    }
  }

  lemma PongsUpTo(ms: seq<seq<Sent>>, i: nat)
    requires i < |ms|
    ensures Pongs(ms[..i + 1]) == Pongs(ms[..i]) + PongsOf(ms[i])
    ensures |Pongs(ms[..i + 1])| <= |Pongs(ms)|
  {
    assert ms[..i + 1] == ms[..i] + [ms[i]] && ms == ms[..i + 1] + ms[i + 1..];
    PongsConcat(ms[..i], [ms[i]]);
    assert [ms[i]][1..] == [] && Pongs([ms[i]]) == PongsOf(ms[i]);
    PongsConcat(ms[..i + 1], ms[i + 1..]);
  }

  lemma InputSplits(ms: seq<seq<Sent>>, rest: Bytes, i: nat)
    requires AllMessages(ms) && i < |ms|
    ensures EncodeMessages(ms[i..]) + rest == EncodeAll(ms[i]) + (EncodeMessages(ms[i + 1..]) + rest)
  {
    assert ms[i..][0] == ms[i] && ms[i..][1..] == ms[i + 1..];
  }

  lemma OutSplits(out: Out, ms: seq<seq<Sent>>, i: nat)
    requires i < |ms| && !out.broken && |Pongs(ms)| <= out.accepts
    ensures var before := Put(out, Pongs(ms[..i]));
      && !before.broken && |PongsOf(ms[i])| <= before.accepts
      && Put(before, PongsOf(ms[i])) == Put(out, Pongs(ms[..i + 1]))
  {
    PongsUpTo(ms, i);
    PongsFit(out, Pongs(ms[..i]), PongsOf(ms[i]));
    PutConcat(out, Pongs(ms[..i]), PongsOf(ms[i]));
  }

  lemma ReadsOne(s: State, ms: seq<seq<Sent>>, rest: Bytes, i: nat)
    requires AllMessages(ms) && i < |ms| && !s.out.broken && |Pongs(ms)| <= s.out.accepts
    ensures ReadMessage(StateAt(s, ms, rest, i)) == Reading(Message(TextOf(ms[i])), StateAt(s, ms, rest, i + 1))
  {
    InputSplits(ms, rest, i);
    OutSplits(s.out, ms, i);
    Reassembles(StateAt(s, ms, rest, i), ms[i], EncodeMessages(ms[i + 1..]) + rest, [], 0);
    assert [] + TextOf(ms[i]) == TextOf(ms[i]);
  }

  function Texts(ms: seq<seq<Sent>>): (texts: seq<Bytes>)
    ensures |texts| == |ms| && forall i :: 0 <= i < |ms| ==> texts[i] == TextOf(ms[i])
  {
    seq(|ms|, i requires 0 <= i < |ms| => TextOf(ms[i]))
  }

  function States(s: State, ms: seq<seq<Sent>>, rest: Bytes): (states: seq<State>)
    requires AllMessages(ms)
    ensures |states| == |ms| + 1 && forall i :: 0 <= i <= |ms| ==> states[i] == StateAt(s, ms, rest, i)
  {
    seq(|ms| + 1, i requires 0 <= i <= |ms| => StateAt(s, ms, rest, i))
  }

  /** Successive calls return exactly the messages sent, in order, and answer exactly their pings. */
  lemma ReadsAllMessages(s: State, ms: seq<seq<Sent>>, rest: Bytes)
    requires AllMessages(ms) && !s.out.broken && |Pongs(ms)| <= s.out.accepts
    ensures ReadMany(s.(input := EncodeMessages(ms) + rest), |ms|)
         == (Texts(ms), s.(input := rest, out := Put(s.out, Pongs(ms))))
  {
    var states := States(s, ms, rest);
    forall i | 0 <= i < |ms|
      ensures ReadMessage(states[i]) == Reading(Message(TextOf(ms[i])), states[i + 1])
    {
      ReadsOne(s, ms, rest, i);
    }
    ManyAlong(ReadMessage, states, Texts(ms));
    StateBegins(s, ms, rest);
    StateEnds(s, ms, rest);
  }

  lemma NothingSent(out: Out)
    requires !out.broken
    ensures Put(out, []) == out
  {
    assert out.wire + [] == out.wire;
  }

  lemma StateBegins(s: State, ms: seq<seq<Sent>>, rest: Bytes)
    requires AllMessages(ms) && !s.out.broken
    ensures StateAt(s, ms, rest, 0) == s.(input := EncodeMessages(ms) + rest)
  {
    NothingSent(s.out);
    assert ms[0..] == ms && Pongs(ms[..0]) == [];
  }

  lemma StateEnds(s: State, ms: seq<seq<Sent>>, rest: Bytes)
    requires AllMessages(ms)
    ensures StateAt(s, ms, rest, |ms|) == s.(input := rest, out := Put(s.out, Pongs(ms)))
  {
    assert ms[..|ms|] == ms;
    assert EncodeMessages(ms[|ms|..]) + rest == rest by {
      assert EncodeMessages(ms[|ms|..]) == [];
    }
  }

  // ---------------------------------------------------------------- and nothing else is a message

  /** A turn that is not the end of the message belongs to it. */
  lemma TurnWasSent(f: Frame, s: State, message: Bytes, opcode: Byte, x: Sent, xs: seq<Sent>)
    requires Sendable(x) && x.frame == f && |message| <= MAX_PAYLOAD
    requires var turn := Take(f, s, message, opcode);
      if turn.Return? then turn.outcome.Message? && xs == [] else IsMessage(xs, turn.opcode != 0)
    ensures IsMessage([x] + xs, opcode != 0)
    ensures var turn := Take(f, s, message, opcode);
      && turn.state == s.(out := Put(s.out, PongFor(f)))
      && |message + DataOf(f)| <= MAX_PAYLOAD
      && (if turn.Return? then turn.outcome == Message(message + DataOf(f)) else turn.message == message + DataOf(f))
  {
    assert ([x] + xs)[1..] == xs;
    assert s.out.wire + [] == s.out.wire && message + [] == message;
  }

  /** Whatever is returned was sent: the input starts with a message in frames, and its text is what came back. */
  lemma {:induction false} ReturnedWasSent(s: State, message: Bytes, opcode: Byte) returns (xs: seq<Sent>)
    requires ReadFrom(s, message, opcode).outcome.Message? && |message| <= MAX_PAYLOAD
    ensures IsMessage(xs, opcode != 0)
    ensures var r := ReadFrom(s, message, opcode);
      && s.input == EncodeAll(xs) + r.state.input
      && r.outcome.payload == message + TextOf(xs) && |r.outcome.payload| <= MAX_PAYLOAD
      && r.state.out == Put(s.out, PongsOf(xs)) && r.state.closing == s.closing
    decreases |s.input|
  {
    var f, rest := ParseFrame(s.input).frame, ParseFrame(s.input).rest;
    var mask, form := EncodeParse(s.input);
    ParseShrinks(s.input);
    var x := Sent(f, mask, form);
    var turn := Take(f, s.(input := rest), message, opcode);
    var xs' := [];
    if turn.GoOn? {
      MessageGrows(f, s.(input := rest), message, opcode);
      xs' := ReturnedWasSent(turn.state, turn.message, turn.opcode);
    }
    TurnWasSent(f, s.(input := rest), message, opcode, x, xs');
    xs := [x] + xs';
    assert xs[1..] == xs';
    PutConcat(s.out, PongFor(f), PongsOf(xs'));
    Joined(x, xs', message, ReadFrom(s, message, opcode).state.input);
  }

  lemma MessageGrows(f: Frame, s: State, message: Bytes, opcode: Byte)
    requires Acceptable(f) && |message| <= MAX_PAYLOAD && Take(f, s, message, opcode).GoOn?
    ensures |Take(f, s, message, opcode).message| <= MAX_PAYLOAD
  {
  }

  // ---------------------------------------------------------------- the code

  /** Close, when it is the first: a close frame unless one went out already, then the socket goes. */
  function Closed(s: State): State {
    var out := if s.closing then s.out else Put(s.out, ServerFrame(CLOSE, []));
    s.(out := out.(accepts := 0), closing := true)
  }

  class Conn {
    const r: Reader
    const w: Writer
    var closing: bool
    var closeOnce: bool

    constructor (r: Reader, w: Writer)
      ensures this.r == r && this.w == w && !closing && !closeOnce
    {
      this.r, this.w, closing, closeOnce := r, w, false, false;
    }

    function Now(): State
      reads this, r, w
    {
      State(r.input, w.State(), closing)
    }

    /** WriteText, under writeMu. */
    method WriteText(payload: Bytes) returns (ok: bool)
      requires |payload| < 0x8000_0000_0000_0000
      modifies w
      ensures Now() == old(Now()).(out := Put(old(w.State()), ServerFrame(TEXT, payload)))
      ensures ok == !w.broken
    {
      ok := w.WriteFrame(TEXT, payload);
    }

    /** writeControl, under writeMu: nothing is sent of a payload that is too long. */
    method WriteControl(opcode: Byte, payload: Bytes) returns (ok: bool)
      requires opcode < 16
      modifies w
      ensures |payload| > 125 ==> !ok && Now() == old(Now())
      ensures |payload| <= 125
              ==> Now() == old(Now()).(out := SendControl(old(w.State()), opcode, payload)) && ok == !w.broken
    {
      if |payload| > 125 {
        return false;
      }
      ok := w.WriteFrame(opcode, payload);
    }

    method ReadText() returns (outcome: Outcome)
      modifies this`closing, r, w
      ensures Reading(outcome, Now()) == ReadMessage(old(Now()))
    {
      var message: Bytes, messageOpcode: Byte := [], 0;
      while true
        invariant ReadFrom(Now(), message, messageOpcode) == ReadMessage(old(Now()))
        decreases |r.input|
      {
        ghost var unread := r.input;
        var got := r.ReadFrame();
        if got.Failed? {
          return BadFrame(got.error);
        }
        var turn;
        ParseShrinks(unread);
        turn, message, messageOpcode := Handle(got.frame, message, messageOpcode);
        if turn.Some? {
          return turn.value;
        }
      }
    }

    /** One turn of the loop of ReadText: what to return, if anything, and the message so far. */
    method Handle(f: Frame, message: Bytes, messageOpcode: Byte)
      returns (result: Option<Outcome>, more: Bytes, opcode: Byte)
      requires Acceptable(f)
      modifies this`closing, w
      ensures match Take(f, old(Now()), message, messageOpcode)
        case Return(outcome, s) => result == Some(outcome) && Now() == s
        case GoOn(s, m, o) => result == None && Now() == s && more == m && opcode == o
    {
      result, more, opcode := None, message, messageOpcode;
      if f.opcode == CLOSE {
        var before := closing;
        closing := true;
        if before {
          return Some(EndOfStream), more, opcode;
        }
        var ok := WriteControl(CLOSE, f.payload);
        return Some(if ok then EndOfStream else WriteFailed), more, opcode;
      } else if f.opcode == PING {
        var ok := WriteControl(PONG, f.payload);
        return if ok then None else Some(WriteFailed), more, opcode;
      } else if f.opcode == PONG {
        return;
      } else if f.opcode == TEXT || f.opcode == BINARY {
        if messageOpcode != 0 {
          return Some(NewDataBeforeEnd), more, opcode;
        }
        opcode := f.opcode;
      } else if f.opcode == CONTINUATION {
        if messageOpcode == 0 {
          return Some(UnexpectedContinuation), more, opcode;
        }
      } else {
        return Some(UnexpectedOpcode), more, opcode;
      }
      if |message| + |f.payload| > MAX_PAYLOAD {
        return Some(MessageTooLarge), more, opcode;
      }
      more := message + f.payload;
      if f.fin {
        result := Some(Message(more));
      }
    }

    /** Close: the first call says goodbye and closes the socket, later ones do nothing. */
    method Close()
      modifies this`closing, this`closeOnce, w
      ensures closeOnce && Now() == if old(closeOnce) then old(Now()) else Closed(old(Now()))
    {
      if !closeOnce {
        closeOnce := true;
        var before := closing;
        closing := true;
        if !before {
          var ok := w.WriteFrame(CLOSE, []);
        }
        w.Shut();
      }
    }
  }
}
