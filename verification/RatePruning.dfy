/** Exactly when pruning is invisible: maxAge must be long enough to refill a bucket. */
module RatePruning {
  import opened RateLimit
  import opened RateLaws

  function At(id: string, t: real): Request {
    Request(id, t, t, t)
  }

  function Hammer(id: string, t: real, n: nat): (rs: seq<Request>)
    ensures |rs| == n
  {
    if n == 0 then [] else [At(id, t)] + Hammer(id, t, n - 1)
  }

  /** Client names other than "": "f", "ff", ... */
  function Filler(i: nat): (s: string)
    ensures |s| == i + 1
  {
    seq(i + 1, _ => 'f')
  }

  function Fillers(from: nat, n: nat, t: real): seq<Request>
    decreases n
  {
    if n == 0 then [] else [At(Filler(from), t)] + Fillers(from + 1, n - 1, t)
  }

  lemma {:induction false} HammerOrdered(id: string, t: real, n: nat, clock: real)
    requires clock <= t
    ensures Ordered(Hammer(id, t, n), clock) && End(Hammer(id, t, n), clock) <= t
    decreases n
  {
    if n > 0 {
      HammerOrdered(id, t, n - 1, t);
      assert Hammer(id, t, n)[1..] == Hammer(id, t, n - 1);
    }
  }

  lemma {:induction false} FillersOrdered(from: nat, n: nat, t: real, clock: real)
    requires clock <= t
    ensures Ordered(Fillers(from, n, t), clock) && End(Fillers(from, n, t), clock) <= t
    decreases n
  {
    if n > 0 {
      FillersOrdered(from + 1, n - 1, t, t);
      var rest := Fillers(from + 1, n - 1, t);
      assert Fillers(from, n, t)[1..] == rest;
      assert End(Fillers(from, n, t), clock) == End(rest, t);
    }
  }

  // ---------------------------------------------------------------- who is forgotten

  /** Only a newcomer to a full map has others forgotten: those not seen for longer than maxAge. */
  predicate StaysFor(m: Fills, r: Request, l: Limits, id: string) {
    id in m && (r.id in m || |m| < l.maxClients || r.prune - m[id].last <= l.maxAge)
  }

  /** A request leaves the buckets of all others as they are, or forgets them by age; it adds none but its own. */
  lemma ForgetsExactly(p: Policy, m: Fills, r: Request, l: Limits, id: string)
    requires p != Free && id != r.id
    ensures var m' := Step(p, m, r, l).fills;
      (id in m' <==> StaysFor(m, r, l, id)) && (id in m' ==> m'[id] == m[id])
  {
  }

  /** A newcomer is turned away exactly when 2 * maxClients buckets of others stay. */
  lemma TurnsAwayExactly(m: Fills, r: Request, l: Limits)
    ensures StepKey(m, r, l).verdict == TooMany
       <==> r.id !in m && |set id | id in m && StaysFor(m, r, l, id)| >= 2 * l.maxClients
  {
    if r.id !in m {
      assert Room(m, r, l).Keys == set id | id in m && StaysFor(m, r, l, id);
    }
  }

  predicate AllAdmitted(vs: seq<Verdict>) {
    forall i :: 0 <= i < |vs| ==> vs[i] == Admitted
  }

  /** Two runs that are admitted are admitted one after the other. */
  lemma AdmitsInTurn(p: Policy, m: Fills, a: seq<Request>, b: seq<Request>, l: Limits)
    requires AllAdmitted(Verdicts(p, m, a, l)) && AllAdmitted(Verdicts(p, After(p, m, a, l), b, l))
    ensures AllAdmitted(Verdicts(p, m, a + b, l))
  {
    RunConcat(p, m, a, b, l);
  }

  /** A take from a bucket just taken from costs exactly one token. */
  lemma TakeAtOnce(x: real, t: real, l: Limits)
    requires x <= l.burst as real
    ensures Take(Fill(x, t), t, l) == if x < 1.0 then Taken(Fill(x, t), false) else Taken(Fill(x - 1.0, t), true)
  {
    assert (t - t) * l.tps == 0.0;
  }

  /** A bucket with n tokens admits n requests at one instant. */
  lemma {:induction false} HammerAdmits(p: Policy, m: Fills, id: string, x: real, t: real, n: nat, l: Limits)
    requires id in m && m[id] == Fill(x, t) && n as real <= x <= l.burst as real
    ensures After(p, m, Hammer(id, t, n), l) == m[id := Fill(x - n as real, t)]
    ensures AllAdmitted(Verdicts(p, m, Hammer(id, t, n), l))
    decreases n
  {
    if n == 0 {
      assert m[id := Fill(x, t)] == m;
    } else {
      TakeAtOnce(x, t, l);
      var m' := m[id := Fill(x - 1.0, t)];
      assert Hammer(id, t, n)[1..] == Hammer(id, t, n - 1);
      assert Step(p, m, At(id, t), l) == Outcome(m', Admitted);
      HammerAdmits(p, m', id, x - 1.0, t, n - 1, l);
      VerdictsFirst(p, m, Hammer(id, t, n), l);
      assert (x - 1.0) - (n - 1) as real == x - n as real;
      assert m'[id := Fill(x - n as real, t)] == m[id := Fill(x - n as real, t)];
    }
  }

  /** A bucket with less than n tokens does not. */
  lemma {:induction false} HammerLimits(m: Fills, id: string, x: real, t: real, n: nat, l: Limits)
    requires id in m && m[id] == Fill(x, t) && x < n as real && x <= l.burst as real && n > 0
    ensures exists i :: 0 <= i < n && Verdicts(Free, m, Hammer(id, t, n), l)[i] == Limited
    decreases n
  {
    TakeAtOnce(x, t, l);
    var vs := Verdicts(Free, m, Hammer(id, t, n), l);
    assert Hammer(id, t, n)[1..] == Hammer(id, t, n - 1);
    if x < 1.0 {
      assert vs[0] == Limited;
    } else {
      var m' := m[id := Fill(x - 1.0, t)];
      assert Step(Free, m, At(id, t), l) == Outcome(m', Admitted);
      HammerLimits(m', id, x - 1.0, t, n - 1, l);
      var i :| 0 <= i < n - 1 && Verdicts(Free, m', Hammer(id, t, n - 1), l)[i] == Limited;
      assert vs[i + 1] == Limited;
    }
  }

  /** Runs that take the same first step are the same. */
  lemma SameFirstStep(p: Policy, m: Fills, m': Fills, rs: seq<Request>, l: Limits)
    requires rs != [] && Step(p, m, rs[0], l) == Step(p, m', rs[0], l)
    ensures Verdicts(p, m, rs, l) == Verdicts(p, m', rs, l) && After(p, m, rs, l) == After(p, m', rs, l)
  {
  }

  /** A client without a bucket gets a full one, so it is admitted a whole burst at once. */
  lemma NewcomerAdmits(p: Policy, m: Fills, id: string, t: real, l: Limits)
    requires Proper(l) && id !in m && Room(m, At(id, t), l) == m && |m| < 2 * l.maxClients
    ensures After(p, m, Hammer(id, t, l.burst), l) == m[id := Fill(0.0, t)]
    ensures AllAdmitted(Verdicts(p, m, Hammer(id, t, l.burst), l))
  {
    var full := m[id := Fill(l.burst as real, t)];
    var rs := Hammer(id, t, l.burst);
    HammerAdmits(p, full, id, l.burst as real, t, l.burst, l);
    assert full[id := Fill(0.0, t)] == m[id := Fill(0.0, t)];
    assert rs[0] == At(id, t);
    assert TakeFrom(m, rs[0], l) == TakeFrom(full, rs[0], l);
    SameFirstStep(p, m, full, rs, l);
  }

  /** Everything was last used at time 0, "" is empty, and only names up to a length occur. */
  ghost predicate Drained(m: Fills, longest: nat) {
    && "" in m && m[""] == Fill(0.0, 0.0)
    && (forall id :: id in m ==> m[id].last == 0.0 && |id| <= longest)
  }

  lemma OneFiller(p: Policy, m: Fills, from: nat, l: Limits)
    requires Proper(l) && |m| == from + 1 && from + 2 <= l.maxClients
    requires Drained(m, from)
    ensures var o := Step(p, m, At(Filler(from), 0.0), l);
      o.verdict == Admitted && |o.fills| == from + 2 && Drained(o.fills, from + 1)
  {
    var r := At(Filler(from), 0.0);
    var o := Step(p, m, r, l);
    TakeAtOnce(l.burst as real, 0.0, l);
    assert Room(m, r, l) == m;
    assert o.fills.Keys == m.Keys + {r.id};
    assert |o.fills| == |o.fills.Keys| && |m| == |m.Keys|;
  }

  /** Newcomers at time 0 fill the map without pruning anything. */
  lemma {:induction false} FillersFill(p: Policy, m: Fills, from: nat, n: nat, l: Limits)
    requires Proper(l) && |m| == from + 1 && from + n + 1 <= l.maxClients
    requires Drained(m, from)
    ensures |After(p, m, Fillers(from, n, 0.0), l)| == from + n + 1
    ensures Drained(After(p, m, Fillers(from, n, 0.0), l), from + n)
    ensures AllAdmitted(Verdicts(p, m, Fillers(from, n, 0.0), l))
    decreases n
  {
    if n > 0 {
      var rest := Fillers(from + 1, n - 1, 0.0);
      var m' := FillerFirst(p, m, from, rest, l);
      FillersFill(p, m', from + 1, n - 1, l);
    }
  }

  /** One newcomer before other requests. */
  lemma FillerFirst(p: Policy, m: Fills, from: nat, rest: seq<Request>, l: Limits) returns (m': Fills)
    requires Proper(l) && |m| == from + 1 && from + 2 <= l.maxClients
    requires Drained(m, from)
    ensures |m'| == from + 2 && Drained(m', from + 1)
    ensures var rs := [At(Filler(from), 0.0)] + rest;
      && After(p, m, rs, l) == After(p, m', rest, l)
      && (AllAdmitted(Verdicts(p, m', rest, l)) ==> AllAdmitted(Verdicts(p, m, rs, l)))
  {
    var r := At(Filler(from), 0.0);
    m' := Step(p, m, r, l).fills;
    OneFiller(p, m, from, l);
    assert ([r] + rest)[1..] == rest;
    VerdictsFirst(p, m, [r] + rest, l);
  }

  /** A time after maxAge at which an empty bucket still misses part of its burst. */
  lemma EarlyTime(l: Limits) returns (t: real)
    requires Proper(l) && l.maxAge * l.tps < l.burst as real
    ensures t > l.maxAge && t * l.tps < l.burst as real
  {
    var slack := (l.burst as real - l.maxAge * l.tps) / 2.0;
    var extra := slack / l.tps;
    assert extra * l.tps == slack;
    assert extra > 0.0;
    t := l.maxAge + extra;
    assert t * l.tps == l.maxAge * l.tps + extra * l.tps;
  }

  /** The first part of the trace: drain "" at time 0 and fill the map. */
  function Prologue(l: Limits): seq<Request>
    requires Proper(l)
  {
    Hammer("", 0.0, l.burst) + Fillers(0, l.maxClients - 1, 0.0)
  }

  lemma OnlyDrained(m: Fills)
    requires m == map["" := Fill(0.0, 0.0)]
    ensures |m| == 1 && Drained(m, 0)
  {
    assert m.Keys == {""};
    assert |m| == |m.Keys|;
  }

  /** "" takes its whole burst at once. */
  lemma DrainedAtOnce(p: Policy, drained: Fills, l: Limits)
    requires Proper(l) && drained == map["" := Fill(0.0, 0.0)]
    ensures After(p, map[], Hammer("", 0.0, l.burst), l) == drained
    ensures AllAdmitted(Verdicts(p, map[], Hammer("", 0.0, l.burst), l))
  {
    var empty: Fills := map[];
    NewcomerAdmits(p, empty, "", 0.0, l);
  }

  lemma PrologueParts(p: Policy, drained: Fills, l: Limits)
    requires Proper(l) && drained == map["" := Fill(0.0, 0.0)]
    requires AllAdmitted(Verdicts(p, drained, Fillers(0, l.maxClients - 1, 0.0), l))
    ensures After(p, map[], Prologue(l), l) == After(p, drained, Fillers(0, l.maxClients - 1, 0.0), l)
    ensures AllAdmitted(Verdicts(p, map[], Prologue(l), l))
  {
    var a, b := Hammer("", 0.0, l.burst), Fillers(0, l.maxClients - 1, 0.0);
    DrainedAtOnce(p, drained, l);
    RunConcat(p, map[], a, b, l);
    AdmitsInTurn(p, map[], a, b, l);
  }

  lemma AfterPrologue(p: Policy, l: Limits) returns (m: Fills)
    requires Proper(l)
    ensures m == After(p, map[], Prologue(l), l)
    ensures |m| == l.maxClients && Drained(m, l.maxClients - 1)
    ensures AllAdmitted(Verdicts(p, map[], Prologue(l), l))
  {
    var drained: Fills := map["" := Fill(0.0, 0.0)];
    OnlyDrained(drained);
    FillersFill(p, drained, 0, l.maxClients - 1, l);
    PrologueParts(p, drained, l);
    m := After(p, drained, Fillers(0, l.maxClients - 1, 0.0), l);
  }

  function Epilogue(l: Limits, t: real): seq<Request>
    requires Proper(l)
  {
    [At(Filler(l.maxClients - 1), t)] + Hammer("", t, l.burst)
  }

  lemma EpilogueOrdered(l: Limits, t: real)
    requires Proper(l) && t >= 0.0
    ensures Ordered(Prologue(l) + Epilogue(l, t), 0.0)
  {
    HammerOrdered("", 0.0, l.burst, 0.0);
    FillersOrdered(0, l.maxClients - 1, 0.0, 0.0);
    OrderedConcat(Hammer("", 0.0, l.burst), Fillers(0, l.maxClients - 1, 0.0), 0.0, 0.0);
    HammerOrdered("", t, l.burst, t);
    assert Epilogue(l, t)[1..] == Hammer("", t, l.burst);
    var a, b := Hammer("", 0.0, l.burst), Fillers(0, l.maxClients - 1, 0.0);
    if b != [] {
      assert Prologue(l)[|a + b| - 1] == b[|b| - 1];
    } else {
      assert a + b == a;
    }
    OrderedConcat(Prologue(l), Epilogue(l, t), 0.0, t);
  }

  /** With pruning, "" has been forgotten and gets a whole burst again. */
  lemma PrunedEpilogue(p: Policy, m: Fills, t: real, l: Limits)
    requires p != Free && Proper(l) && t > l.maxAge && |m| == l.maxClients
    requires Drained(m, l.maxClients - 1)
    ensures AllAdmitted(Verdicts(p, m, Epilogue(l, t), l))
  {
    var one := PrunedNewcomer(p, m, t, l);
    NewcomerAdmits(p, one, "", t, l);
    assert Epilogue(l, t)[1..] == Hammer("", t, l.burst);
  }

  /** One newcomer at t clears the map. */
  lemma PrunedNewcomer(p: Policy, m: Fills, t: real, l: Limits) returns (one: Fills)
    requires p != Free && Proper(l) && t > l.maxAge && |m| == l.maxClients
    requires Drained(m, l.maxClients - 1)
    ensures Step(p, m, At(Filler(l.maxClients - 1), t), l) == Outcome(one, Admitted)
    ensures "" !in one && |one| < 2 * l.maxClients && Room(one, At("", t), l) == one
  {
    var r := At(Filler(l.maxClients - 1), t);
    var none: Fills := map[];
    assert Room(m, r, l) == none;
    TakeAtOnce(l.burst as real, t, l);
    one := none[r.id := Fill(l.burst as real - 1.0, t)];
    assert Step(p, m, r, l) == Outcome(one, Admitted) by {
      assert none[r.id := Fill(l.burst as real, t)][r.id := Fill(l.burst as real - 1.0, t)] == one;
    }
    assert one.Keys == {r.id} && |one| == |one.Keys|;
    assert Room(one, At("", t), l) == one by {
      assert Pruned(one, t - l.maxAge) == one;
    }
  }

  /** Taking from the emptied bucket at t is taking from one that holds what t has earned. */
  lemma EarnedByThen(t: real, l: Limits) returns (x: real)
    requires Proper(l) && 0.0 <= t && t * l.tps < l.burst as real
    ensures x < l.burst as real
    ensures Take(Fill(0.0, 0.0), t, l) == Take(Fill(x, t), t, l)
  {
    x := t * l.tps;
    TakeAtOnce(x, t, l);
    assert (t - 0.0) * l.tps == x;
  }

  /** Without pruning, "" has only earned part of a burst. */
  lemma FreeEpilogue(m: Fills, x: real, t: real, l: Limits) returns (i: nat)
    requires Proper(l) && x < l.burst as real
    requires Take(Fill(0.0, 0.0), t, l) == Take(Fill(x, t), t, l)
    requires Drained(m, l.maxClients - 1)
    ensures i <= l.burst && Verdicts(Free, m, Epilogue(l, t), l)[i] == Limited
  {
    var r := At(Filler(l.maxClients - 1), t);
    var m' := StepFree(m, r, l).fills;
    assert m'[""] == Fill(0.0, 0.0);
    var refilled := m'["" := Fill(x, t)];
    var rs := Hammer("", t, l.burst);
    HammerLimits(refilled, "", x, t, l.burst, l);
    var k :| 0 <= k < l.burst && Verdicts(Free, refilled, rs, l)[k] == Limited;
    assert rs[0] == At("", t);
    assert StepFree(m', rs[0], l).fills == StepFree(refilled, rs[0], l).fills;
    SameFirstStep(Free, m', refilled, rs, l);
    assert Epilogue(l, t)[1..] == rs;
    i := k + 1;
  }

  /** Fill the map, wait a little longer than maxAge, and come back. */
  function Trace(l: Limits, t: real): seq<Request>
    requires Proper(l)
  {
    Prologue(l) + Epilogue(l, t)
  }

  /** A limiter that prunes admits the whole trace. */
  lemma PrunedTrace(p: Policy, l: Limits, t: real)
    requires p != Free && Proper(l) && t > l.maxAge
    ensures AllAdmitted(Verdicts(p, map[], Trace(l, t), l))
  {
    var m := AfterPrologue(p, l);
    PrunedEpilogue(p, m, t, l);
    AdmitsInTurn(p, map[], Prologue(l), Epilogue(l, t), l);
  }

  /** One that does not prune limits part of it. */
  lemma FreeTrace(l: Limits, t: real, x: real)
    requires Proper(l) && t > l.maxAge && x < l.burst as real
    requires Take(Fill(0.0, 0.0), t, l) == Take(Fill(x, t), t, l)
    ensures !AllAdmitted(Verdicts(Free, map[], Trace(l, t), l))
  {
    var m := AfterPrologue(Free, l);
    var i := FreeEpilogue(m, x, t, l);
    RunConcat(Free, map[], Prologue(l), Epilogue(l, t), l);
    assert Verdicts(Free, map[], Trace(l, t), l)[|Prologue(l)| + i] == Limited;
  }

  /** Where all are admitted, none is turned away. */
  lemma {:induction false} AdmittedAreKept(p: Policy, m: Fills, rs: seq<Request>, l: Limits)
    requires AllAdmitted(Verdicts(p, m, rs, l))
    ensures NotTurnedAway(p, m, rs, l) == rs && WithoutTooMany(Verdicts(p, m, rs, l)) == Verdicts(p, m, rs, l)
    decreases |rs|
  {
    if rs != [] {
      var vs := Verdicts(p, m, rs, l);
      VerdictsFirst(p, m, rs, l);
      AdmittedAreKept(p, Step(p, m, rs[0], l).fills, rs[1..], l);
      assert vs == [vs[0]] + vs[1..];
    }
  }

  /** A trace whose pruning shows: long enough for maxAge, too short for a burst. */
  lemma ShortAgeShows(p: Policy, l: Limits) returns (t: real)
    requires p != Free && Proper(l) && l.maxAge * l.tps < l.burst as real
    ensures t > l.maxAge && t * l.tps < l.burst as real && Ordered(Trace(l, t), 0.0)
    ensures AllAdmitted(Verdicts(p, map[], Trace(l, t), l)) && !AllAdmitted(Verdicts(Free, map[], Trace(l, t), l))
  {
    t := EarlyTime(l);
    var x := EarnedByThen(t, l);
    EpilogueOrdered(l, t);
    PrunedTrace(p, l, t);
    FreeTrace(l, t, x);
  }

  /** The limiter decides what it does not turn away like one that never prunes. */
  predicate DecidesAlike(p: Policy, l: Limits, rs: seq<Request>) {
    WithoutTooMany(Verdicts(p, map[], rs, l)) == Verdicts(Free, map[], NotTurnedAway(p, map[], rs, l), l)
  }

  /** Pruning is invisible in every run exactly when maxAge refills a bucket: for addresses and for keys. */
  lemma PruningInvisible(p: Policy, l: Limits)
    requires p != Free && Proper(l)
    ensures l.maxAge * l.tps >= l.burst as real <==> (forall rs :: Ordered(rs, 0.0) ==> DecidesAlike(p, l, rs))
  {
    if l.maxAge * l.tps >= l.burst as real {
      forall rs | Ordered(rs, 0.0)
        ensures DecidesAlike(p, l, rs)
      {
        PrunedRunAgrees(p, map[], map[], rs, l, 0.0);
      }
    } else {
      var t := ShortAgeShows(p, l);
      AdmittedAreKept(p, map[], Trace(l, t), l);
      assert !DecidesAlike(p, l, Trace(l, t));
    }
  }

  /** The address limiter turns nobody away, so for it alike means the same verdicts. */
  lemma {:induction false} AddressesAllDecided(m: Fills, rs: seq<Request>, l: Limits)
    ensures NotTurnedAway(PerAddress, m, rs, l) == rs
    ensures WithoutTooMany(Verdicts(PerAddress, m, rs, l)) == Verdicts(PerAddress, m, rs, l)
    decreases |rs|
  {
    if rs != [] {
      var m' := AddressFirst(m, rs, l);
      AddressesAllDecided(m', rs[1..], l);
    }
  }

  lemma AddressFirst(m: Fills, rs: seq<Request>, l: Limits) returns (m': Fills)
    requires rs != []
    ensures var kept, vs := NotTurnedAway(PerAddress, m', rs[1..], l), Verdicts(PerAddress, m', rs[1..], l);
      && (kept == rs[1..] ==> NotTurnedAway(PerAddress, m, rs, l) == rs)
      && (WithoutTooMany(vs) == vs
          ==> WithoutTooMany(Verdicts(PerAddress, m, rs, l)) == Verdicts(PerAddress, m, rs, l))
  {
    m' := Step(PerAddress, m, rs[0], l).fills;
    var vs := Verdicts(PerAddress, m, rs, l);
    VerdictsFirst(PerAddress, m, rs, l);
    assert vs == [vs[0]] + vs[1..] && rs == [rs[0]] + rs[1..];
  }

  // ---------------------------------------------------------------- the window bound

  lemma {:induction false} AdmittedCount(id: string, rs: seq<Request>, vs: seq<Verdict>)
    requires |rs| == |vs| && AllAdmitted(vs)
    ensures Count(id, rs, vs) == |TimesOf(id, rs)|
    decreases |rs|
  {
    if rs != [] {
      AdmittedCount(id, rs[1..], vs[1..]);
    }
  }

  lemma {:induction false} TimesConcat(id: string, a: seq<Request>, b: seq<Request>)
    ensures TimesOf(id, a + b) == TimesOf(id, a) + TimesOf(id, b)
    decreases |a|
  {
    if a == [] {
      assert a + b == b;
    } else {
      assert (a + b)[1..] == a[1..] + b;
      TimesConcat(id, a[1..], b);
      var first := if a[0].id == id then [a[0].now] else [];
      assert first + (TimesOf(id, a[1..]) + TimesOf(id, b)) == first + TimesOf(id, a[1..]) + TimesOf(id, b);
    }
  }

  lemma {:induction false} HammerTimes(id: string, t: real, n: nat)
    ensures |TimesOf(id, Hammer(id, t, n))| == n
    decreases n
  {
    if n > 0 {
      assert Hammer(id, t, n)[1..] == Hammer(id, t, n - 1);
      HammerTimes(id, t, n - 1);
    }
  }

  /** "" asks for two bursts in the trace. */
  lemma TraceAsks(l: Limits, t: real)
    requires Proper(l)
    ensures |TimesOf("", Trace(l, t))| >= 2 * l.burst
  {
    var first, fillers := Hammer("", 0.0, l.burst), Fillers(0, l.maxClients - 1, 0.0);
    var newcomer, again := [At(Filler(l.maxClients - 1), t)], Hammer("", t, l.burst);
    TimesConcat("", first + fillers, newcomer + again);
    TimesConcat("", first, fillers);
    TimesConcat("", newcomer, again);
    HammerTimes("", 0.0, l.burst);
    HammerTimes("", t, l.burst);
  }

  lemma TraceSpan(l: Limits, t: real)
    requires Proper(l)
    ensures var rs := Trace(l, t); rs != [] && rs[0].now == 0.0 && rs[|rs| - 1].now == t
  {
    HammerLast("", t, l.burst);
    assert Trace(l, t)[0] == Hammer("", 0.0, l.burst)[0];
    assert Trace(l, t)[|Trace(l, t)| - 1] == Hammer("", t, l.burst)[l.burst - 1];
  }

  lemma {:induction false} HammerLast(id: string, t: real, n: nat)
    requires n > 0
    ensures Hammer(id, t, n)[n - 1] == At(id, t)
    decreases n
  {
    if n > 1 {
      assert Hammer(id, t, n)[1..] == Hammer(id, t, n - 1);
      HammerLast(id, t, n - 1);
    }
  }

  /** With maxAge too short for a burst, a client is admitted two bursts in less time than one takes to earn. */
  lemma TwoBursts(p: Policy, l: Limits) returns (rs: seq<Request>)
    requires p != Free && Proper(l) && l.maxAge * l.tps < l.burst as real
    ensures Ordered(rs, 0.0) && rs != [] && !WindowKept(p, l, rs, "", 0, |rs| - 1)
  {
    var t := ShortAgeShows(p, l);
    rs := Trace(l, t);
    TraceSpan(l, t);
    TraceAsks(l, t);
    var vs := Verdicts(p, map[], rs, l);
    AdmittedCount("", rs, vs);
    TooManyFor(Count("", rs, vs), t, l);
    assert rs[0..|rs| - 1 + 1] == rs && vs[0..|rs| - 1 + 1] == vs;
    assert !RateBound(Count("", rs, vs), rs[|rs| - 1].now - rs[0].now, l) by {
      assert t - 0.0 == t;
    }
  }

  lemma TooManyFor(count: nat, t: real, l: Limits)
    requires count >= 2 * l.burst && t * l.tps < l.burst as real
    ensures !RateBound(count, t, l)
  {
  }

  /** Each client is kept to its rate in every window of every run, exactly when maxAge refills a bucket. */
  lemma WindowBound(p: Policy, l: Limits)
    requires p != Free && Proper(l)
    ensures l.maxAge * l.tps >= l.burst as real <==>
      (forall rs, id, i: nat, j: nat :: Ordered(rs, 0.0) && i <= j < |rs| ==> WindowKept(p, l, rs, id, i, j))
  {
    if l.maxAge * l.tps >= l.burst as real {
      forall rs, id, i: nat, j: nat | Ordered(rs, 0.0) && i <= j < |rs|
        ensures WindowKept(p, l, rs, id, i, j)
      {
        RefilledWindowKept(p, rs, l, id, i, j);
      }
    } else {
      var rs := TwoBursts(p, l);
    }
  }
}
