/**
 * A terminal session: reassembly of output into whole lines, the replay ring, and lossy subscriber
 * channels. Every operation of the code is one critical section under the session mutex, so a run
 * of the session under any interleaving is a sequence of operations.
 */
module Terminal {

  const RING_SIZE: nat := 200
  const QUEUE_SIZE: nat := 512
  const GENERATED_MODULUS: nat := 0x1_0000_0000_0000_0000

  /**
   * A subscriber channel: what waits in it, all it ever accepted, whether it is closed, whether a
   * line was lost for lack of room, and whether it was misused (sent to or closed when closed,
   * which panics).
   */
  datatype Chan = Chan(queue: seq<string>, sent: seq<string>, closed: bool, lossy: bool, misused: bool)

  /** A send in a select with a default branch. */
  function Offer(c: Chan, line: string): Chan {
    if c.closed then c.(misused := true)
    else if |c.queue| < QUEUE_SIZE then c.(queue := c.queue + [line], sent := c.sent + [line])
    else c.(lossy := true)
  }

  function OfferAll(c: Chan, lines: seq<string>): Chan
    decreases |lines|
  {
    if lines == [] then c else OfferAll(Offer(c, lines[0]), lines[1..])
  }

  function Shut(c: Chan): Chan {
    if c.closed then c.(misused := true) else c.(closed := true)
  }

  datatype Timer = Unset | Armed | Spent

  /** fired counts the timer callbacks that have started and still wait for the mutex. */
  datatype Session = Session(
    closed: bool, ring: seq<string>, pending: string, generated: nat,
    subs: set<nat>, chans: seq<Chan>, timer: Timer, fired: nat)

  function Opened(): Session {
    Session(false, [], "", 0, {}, [], Unset, 0)
  }

  datatype Op =
    | Broadcast(line: string)
    | TimerFires
    | FlushPending
    | Subscribe
    | Unsubscribe(ch: nat)
    | Receive(ch: nat)
    | Close

  const ENDED := "__session_ended__"
  const ERROR_PREFIX := "__session_error__:"

  predicate Marker(line: string) {
    line == ENDED || ERROR_PREFIX <= line
  }

  lemma NoneAfter(buf: string, i: int)
    requires buf != "" && buf[|buf| - 1] != '\n' && -1 <= i < |buf| - 1 && '\n' !in buf[..|buf| - 1][i + 1..]
    ensures '\n' !in buf[i + 1..]
  {
    var last := |buf| - 1;
    assert buf[i + 1..] == buf[..last][i + 1..] + [buf[last]];
  }

  /** strings.LastIndexByte(buf, '\n'). */
  function LastNewline(buf: string): (i: int)
    ensures -1 <= i < |buf|
    ensures i >= 0 ==> buf[i] == '\n'
    ensures '\n' !in buf[i + 1..]
  {
    if buf == "" then -1
    else if buf[|buf| - 1] == '\n' then |buf| - 1
    else
      var i := LastNewline(buf[..|buf| - 1]);
      NoneAfter(buf, i);
      i
  }

  function PushRing(ring: seq<string>, line: string): seq<string> {
    if |ring| >= RING_SIZE then ring[1..] + [line] else ring + [line]
  }

  function OfferEach(chans: seq<Chan>, subs: set<nat>, line: string): (r: seq<Chan>)
    ensures |r| == |chans|
    ensures forall i :: 0 <= i < |chans| ==> r[i] == if i in subs then Offer(chans[i], line) else chans[i]
  {
    seq(|chans|, i requires 0 <= i < |chans| => if i in subs then Offer(chans[i], line) else chans[i])
  }

  function ShutEach(chans: seq<Chan>, subs: set<nat>): (r: seq<Chan>)
    ensures |r| == |chans|
    ensures forall i :: 0 <= i < |chans| ==> r[i] == if i in subs then Shut(chans[i]) else chans[i]
  {
    seq(|chans|, i requires 0 <= i < |chans| => if i in subs then Shut(chans[i]) else chans[i])
  }

  /** emitLocked. */
  function Emit(s: Session, line: string): Session {
    s.(generated := (s.generated + 1) % GENERATED_MODULUS,
       ring := PushRing(s.ring, line),
       chans := OfferEach(s.chans, s.subs, line))
  }

  function EmitPending(s: Session): Session {
    if s.pending == "" then s else Emit(s, s.pending).(pending := "")
  }

  /** Hold a fragment; a nonempty one (re)starts the timer. */
  function Hold(s: Session, text: string): Session {
    s.(pending := text, timer := if text != "" then Armed else s.timer)
  }

  /** Up to and including the last newline; empty when there is none. */
  function WholeLines(buf: string): string {
    buf[..LastNewline(buf) + 1]
  }

  function Fragment(buf: string): string {
    buf[LastNewline(buf) + 1..]
  }

  /** Program output: the whole lines go out in one chunk, the rest is held. */
  function Reassemble(s: Session, line: string): Session {
    var buf := s.pending + line;
    Hold(if WholeLines(buf) != "" then Emit(s, WholeLines(buf)) else s, Fragment(buf))
  }

  function DoBroadcast(s: Session, line: string): Session {
    if s.closed then s
    else if Marker(line) then Emit(EmitPending(s), line)
    else Reassemble(s, line)
  }

  function DoFlush(s: Session): Session {
    if s.fired == 0 then s
    else
      var s' := s.(fired := s.fired - 1);
      if s'.closed then s' else EmitPending(s')
  }

  function DoSubscribe(s: Session): Session {
    var c := OfferAll(Chan([], [], false, false, false), s.ring);
    if s.closed then s.(chans := s.chans + [Shut(c)])
    else s.(chans := s.chans + [c], subs := s.subs + {|s.chans|})
  }

  function DoUnsubscribe(s: Session, ch: nat): Session {
    if ch in s.subs && ch < |s.chans| then
      s.(subs := s.subs - {ch}, chans := s.chans[ch := Shut(s.chans[ch])])
    else s
  }

  function DoClose(s: Session): Session {
    if s.closed then s
    else
      s.(closed := true, timer := Unset, pending := "", subs := {},
         chans := ShutEach(s.chans, s.subs))
  }

  function DoReceive(s: Session, ch: nat): Session {
    if ch < |s.chans| && s.chans[ch].queue != [] then
      s.(chans := s.chans[ch := s.chans[ch].(queue := s.chans[ch].queue[1..])])
    else s
  }

  function Apply(s: Session, op: Op): Session {
    match op
    case Broadcast(line) => DoBroadcast(s, line)
    case TimerFires => if s.timer == Armed then s.(timer := Spent, fired := s.fired + 1) else s
    case FlushPending => DoFlush(s)
    case Subscribe => DoSubscribe(s)
    case Unsubscribe(ch) => DoUnsubscribe(s, ch)
    case Receive(ch) => DoReceive(s, ch)
    case Close => DoClose(s)
  }

  // ---------------------------------------------------------------- the code

  class Channel {
    var queue: seq<string>
    var closed: bool
    ghost var sent: seq<string>
    ghost var lossy: bool
    ghost const id: nat  // its place among all channels of the session

    ghost function Value(): Chan
      reads this
    {
      Chan(queue, sent, closed, lossy, false)
    }

    constructor (ghost id: nat)
      ensures Value() == Chan([], [], false, false, false) && this.id == id
    {
      queue, closed, sent, lossy := [], false, [], false;
      this.id := id;
    }

    /** Sending to a closed channel panics: the precondition is the proof that nobody does. */
    method TrySend(line: string)
      requires !closed
      modifies this
      ensures Value() == Offer(old(Value()), line)
    {
      if |queue| < QUEUE_SIZE {
        queue, sent := queue + [line], sent + [line];
      } else {
        lossy := true;
      }
    }

    /** Closing twice panics as well. */
    method CloseOnce()
      requires !closed
      modifies this
      ensures Value() == Shut(old(Value()))
    {
      closed := true;
    }
  }

  class TerminalSession {
    var closed: bool
    var ring: seq<string>
    var pending: string
    var generated: nat
    var subs: set<Channel>
    var timer: Timer
    ghost var fired: nat
    ghost var chans: seq<Channel>

    ghost predicate Valid()
      reads this, chans
    {
      && (forall i :: 0 <= i < |chans| ==> chans[i].id == i)
      && (forall ch :: ch in subs ==> ch.id < |chans| && chans[ch.id] == ch)
      && (forall i :: 0 <= i < |chans| && chans[i] in subs ==> !chans[i].closed)
    }

    /** The session holds exactly the abstract state v. */
    ghost predicate Holds(v: Session)
      reads this, chans
    {
      && Valid()
      && closed == v.closed && ring == v.ring && pending == v.pending && generated == v.generated
      && timer == v.timer && fired == v.fired
      && |chans| == |v.chans| && (forall i :: i in v.subs ==> i < |v.chans|)
      && (forall i :: 0 <= i < |chans| ==> chans[i].Value() == v.chans[i])
      && (forall i :: 0 <= i < |chans| ==> (chans[i] in subs <==> i in v.subs))
    }

    constructor ()
      ensures Holds(Opened())
    {
      closed, ring, pending, generated, subs, timer := false, [], "", 0, {}, Unset;
      fired, chans := 0, [];
    }

    /** The select of emitLocked, over every subscriber. */
    method Fanout(line: string, ghost before: seq<Chan>)
      requires Valid() && |before| == |chans|
      requires forall i :: 0 <= i < |chans| ==> chans[i].Value() == before[i]
      modifies chans
      ensures Valid()
      ensures forall i :: 0 <= i < |chans| ==>
        chans[i].Value() == if chans[i] in subs then Offer(before[i], line) else before[i]
    {
      var todo := subs;
      while todo != {}
        invariant todo <= subs && Valid()
        invariant forall i :: 0 <= i < |chans| ==>
          chans[i].Value() == if chans[i] in subs && chans[i] !in todo then Offer(before[i], line) else before[i]
        decreases todo
      {
        var ch :| ch in todo;
        ch.TrySend(line);
        todo := todo - {ch};
        assert ch.Value() == Offer(before[ch.id], line);
      }
    }

    method EmitLocked(line: string, ghost v: Session)
      requires Holds(v)
      modifies this`generated, this`ring, chans
      ensures Holds(Emit(v, line))
    {
      generated := (generated + 1) % GENERATED_MODULUS;
      if |ring| >= RING_SIZE {
        ring := ring[1..] + [line];
      } else {
        ring := ring + [line];
      }
      Fanout(line, v.chans);
    }

    method EmitHeld(ghost v: Session)
      requires Holds(v)
      modifies this`generated, this`ring, this`pending, chans
      ensures Holds(EmitPending(v))
    {
      if pending != "" {
        EmitLocked(pending, v);
        pending := "";
      }
    }

    method HoldFragment(text: string, ghost v: Session)
      requires Holds(v)
      modifies this`pending, this`timer
      ensures Holds(Hold(v, text))
    {
      pending := text;
      if pending != "" {
        timer := Armed;
      }
    }

    static method Cut(buf: string) returns (whole: string, rest: string)
      ensures whole == WholeLines(buf) && rest == Fragment(buf)
    {
      var i := LastNewline(buf);
      whole, rest := buf[..i + 1], buf[i + 1..];
    }

    /** broadcast of program output: whole lines go out, the rest is held. */
    method EmitLines(line: string, ghost v: Session)
      requires Holds(v)
      modifies this`generated, this`ring, this`pending, this`timer, chans
      ensures Holds(Reassemble(v, line))
    {
      var whole, rest := Cut(pending + line);
      ghost var w := v;
      if whole != "" {
        EmitLocked(whole, v);
        w := Emit(v, whole);
      }
      HoldFragment(rest, w);
    }

    method BroadcastLine(line: string, ghost v: Session)
      requires Holds(v)
      modifies this`generated, this`ring, this`pending, this`timer, chans
      ensures Holds(DoBroadcast(v, line))
    {
      if closed {
        return;
      }
      if Marker(line) {
        EmitHeld(v);
        EmitLocked(line, EmitPending(v));
      } else {
        EmitLines(line, v);
      }
    }

    /** The timer's callback, already started. */
    method FlushHeld(ghost v: Session)
      requires Holds(v) && fired > 0
      modifies this`generated, this`ring, this`pending, this`fired, chans
      ensures Holds(DoFlush(v))
    {
      fired := fired - 1;
      if !closed {
        EmitHeld(v.(fired := v.fired - 1));
      }
    }

    method NewSubscriber(ghost v: Session) returns (ch: Channel)
      requires Holds(v) && |v.ring| <= RING_SIZE
      modifies this
      ensures chans == old(chans) + [ch] && fresh(ch)
      ensures Holds(DoSubscribe(v))
    {
      ch := new Channel(|chans|);
      ghost var none := ch.Value();
      for i := 0 to |ring|
        modifies ch
        invariant |ch.queue| == i && !ch.closed
        invariant OfferAll(ch.Value(), ring[i..]) == OfferAll(none, ring)
      {
        assert ring[i..][1..] == ring[i + 1..];
        ch.TrySend(ring[i]);
      }
      chans := chans + [ch];
      if closed {
        ch.CloseOnce();
        return;
      }
      subs := subs + {ch};
    }

    method Drop(ch: Channel, ghost i: nat, ghost v: Session)
      requires Holds(v) && i < |chans| && chans[i] == ch
      modifies this, chans
      ensures chans == old(chans) && Holds(DoUnsubscribe(v, i))
    {
      if ch in subs {
        subs := subs - {ch};
        ch.CloseOnce();
      }
    }

    method CloseSession(ghost v: Session)
      requires Holds(v)
      modifies this, chans
      ensures chans == old(chans) && Holds(DoClose(v))
    {
      if closed {
        return;
      }
      closed := true;
      timer := Unset;
      pending := "";
      CloseAll(v.chans);
    }

    method CloseAll(ghost before: seq<Chan>)
      requires Valid() && |before| == |chans|
      requires forall i :: 0 <= i < |chans| ==> chans[i].Value() == before[i]
      modifies this`subs, chans
      ensures Valid() && subs == {}
      ensures forall i :: 0 <= i < |chans| ==>
        chans[i].Value() == if chans[i] in old(subs) then Shut(before[i]) else before[i]
    {
      while subs != {}
        invariant subs <= old(subs) && Valid()
        invariant forall i :: 0 <= i < |chans| ==>
          chans[i].Value() == if chans[i] in old(subs) && chans[i] !in subs then Shut(before[i]) else before[i]
        decreases subs
      {
        var ch :| ch in subs;
        subs := subs - {ch};
        ch.CloseOnce();
        assert ch.Value() == Shut(before[ch.id]);
      }
    }
  }
}
