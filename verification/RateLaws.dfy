/** What the limiters promise over whole request sequences. */
module RateLaws {
  import opened RateLimit

  datatype Policy = Free | PerAddress | PerKey

  function Step(p: Policy, m: Fills, r: Request, l: Limits): Outcome {
    match p
    case Free => StepFree(m, r, l)
    case PerAddress => StepAddress(m, r, l)
    case PerKey => StepKey(m, r, l)
  }

  /** The verdicts on a request sequence, and the buckets after it. */
  function Verdicts(p: Policy, m: Fills, rs: seq<Request>, l: Limits): (vs: seq<Verdict>)
    ensures |vs| == |rs|
    decreases |rs|
  {
    if rs == [] then []
    else
      var o := Step(p, m, rs[0], l);
      [o.verdict] + Verdicts(p, o.fills, rs[1..], l)
  }

  function After(p: Policy, m: Fills, rs: seq<Request>, l: Limits): Fills
    decreases |rs|
  {
    if rs == [] then m else After(p, Step(p, m, rs[0], l).fills, rs[1..], l)
  }

  lemma {:induction false} RunConcat(p: Policy, m: Fills, a: seq<Request>, b: seq<Request>, l: Limits)
    ensures Verdicts(p, m, a + b, l) == Verdicts(p, m, a, l) + Verdicts(p, After(p, m, a, l), b, l)
    ensures After(p, m, a + b, l) == After(p, After(p, m, a, l), b, l)
    decreases |a|
  {
    if a == [] {
      assert a + b == b;
    } else {
      assert (a + b)[1..] == a[1..] + b && (a + b)[0] == a[0];
      var m' := Step(p, m, a[0], l).fills;
      RunConcat(p, m', a[1..], b, l);
    }
  }

  lemma {:induction false} OrderedConcat(a: seq<Request>, b: seq<Request>, clock: real, mid: real)
    requires Ordered(a, clock) && Ordered(b, mid)
    requires (if a == [] then clock else a[|a| - 1].now) <= mid
    ensures Ordered(a + b, clock)
    decreases |a|
  {
    if a == [] {
      assert a + b == b;
    } else {
      assert (a + b)[1..] == a[1..] + b;
      assert a[1..] != [] ==> a[1..][|a| - 2] == a[|a| - 1];
      OrderedConcat(a[1..], b, a[0].now, mid);
    }
  }

  lemma MulMono(a: real, b: real, k: real)
    requires a <= b && k >= 0.0
    ensures a * k <= b * k
  {
  }

  // ---------------------------------------------------------------- token bounds

  /** The refill in terms of the tokens gained since the last take. */
  lemma RefillGain(f: Fill, now: real, l: Limits) returns (gain: real)
    requires Proper(l)
    ensures gain == (now - f.last) * l.tps
    ensures f.last <= now ==> gain >= 0.0
    ensures Refill(f, now, l) == if f.tokens + gain > l.burst as real then l.burst as real else f.tokens + gain
  {
    gain := (now - f.last) * l.tps;
    if f.last <= now {
      MulMono(0.0, now - f.last, l.tps);
    }
  }

  ghost predicate Bounded(m: Fills, clock: real, l: Limits) {
    forall id :: id in m ==> 0.0 <= m[id].tokens <= l.burst as real && m[id].last <= clock
  }

  lemma TakeBounded(f: Fill, now: real, l: Limits)
    requires Proper(l) && 0.0 <= f.tokens <= l.burst as real && f.last <= now
    ensures var t := Take(f, now, l).fill; 0.0 <= t.tokens <= l.burst as real && t.last == now
  {
    var gain := RefillGain(f, now, l);
  }

  lemma StepBounded(p: Policy, m: Fills, r: Request, l: Limits, clock: real)
    requires Proper(l) && Bounded(m, clock, l) && clock <= r.prune <= r.born <= r.now
    ensures Bounded(Step(p, m, r, l).fills, r.now, l)
  {
    TakeBounded(Fill(l.burst as real, r.born), r.now, l);
    if r.id in m {
      TakeBounded(m[r.id], r.now, l);
    }
  }

  /** Token counts stay between 0 and the burst in every run of every limiter. */
  lemma {:induction false} TokensStayInRange(p: Policy, m: Fills, rs: seq<Request>, l: Limits, clock: real)
    requires Proper(l) && Bounded(m, clock, l) && Ordered(rs, clock)
    ensures Bounded(After(p, m, rs, l), if rs == [] then clock else rs[|rs| - 1].now, l)
    decreases |rs|
  {
    if rs != [] {
      StepBounded(p, m, rs[0], l, clock);
      TokensStayInRange(p, Step(p, m, rs[0], l).fills, rs[1..], l, rs[0].now);
    }
  }

  lemma KeyStepStaysSmall(m: Fills, r: Request, l: Limits)
    requires |m| <= 2 * l.maxClients
    ensures |StepKey(m, r, l).fills| <= 2 * l.maxClients
  {
    var kept := Room(m, r, l);
    PrunedIsSmaller(m, r.prune - l.maxAge);
    var o := StepKey(m, r, l);
    if o.verdict != TooMany {
      assert o.fills.Keys == kept.Keys + {r.id};
      assert |o.fills| == |o.fills.Keys| && |kept| == |kept.Keys|;
    }
  }

  /** The key limiter never holds more than twice the configured number of buckets. */
  lemma {:induction false} KeyMapStaysSmall(m: Fills, rs: seq<Request>, l: Limits)
    requires |m| <= 2 * l.maxClients
    ensures |After(PerKey, m, rs, l)| <= 2 * l.maxClients
    decreases |rs|
  {
    if rs != [] {
      KeyStepStaysSmall(m, rs[0], l);
      KeyMapStaysSmall(StepKey(m, rs[0], l).fills, rs[1..], l);
    }
  }

  lemma PrunedIsSmaller(m: Fills, cutoff: real)
    ensures |Pruned(m, cutoff)| <= |m|
  {
    SubsetIsSmaller(Pruned(m, cutoff).Keys, m.Keys);
  }

  lemma {:induction false} SubsetIsSmaller<T>(a: set<T>, b: set<T>)
    requires a <= b
    ensures |a| <= |b|
    decreases a
  {
    if x :| x in a {
      SubsetIsSmaller(a - {x}, b - {x});
    }
  }

  // ---------------------------------------------------------------- pruning is invisible

  /** The pruned map agrees with the full one, which besides holds only long unused buckets. */
  ghost predicate Agrees(small: Fills, full: Fills, clock: real, l: Limits) {
    && Bounded(full, clock, l)
    && (forall id :: id in small ==> id in full && small[id] == full[id])
    && (forall id :: id in full && id !in small ==> full[id].last < clock - l.maxAge)
  }

  /** A bucket unused for long enough refills to the burst, so it acts like a new one. */
  lemma StaleActsNew(f: Fill, r: Request, l: Limits)
    requires Proper(l) && l.maxAge * l.tps >= l.burst as real
    requires 0.0 <= f.tokens <= l.burst as real && f.last < r.now - l.maxAge && r.born <= r.now
    ensures Take(f, r.now, l) == Take(Fill(l.burst as real, r.born), r.now, l)
  {
    StaleRefill(f, r.now, l);
    StaleRefill(Fill(l.burst as real, r.born), r.now, l);
  }

  /** A full bucket, and one unused for maxAge, refill to the burst. */
  lemma StaleRefill(f: Fill, now: real, l: Limits)
    requires Proper(l) && l.maxAge * l.tps >= l.burst as real && f.last <= now
    requires f.tokens == l.burst as real || (f.tokens >= 0.0 && f.last < now - l.maxAge)
    ensures Refill(f, now, l) == l.burst as real
  {
    var gain := RefillGain(f, now, l);
    if f.tokens != l.burst as real {
      LongGain(l.maxAge, now - f.last, l.tps, l.burst as real, gain);
    }
  }

  lemma LongGain(age: real, span: real, tps: real, burst: real, gain: real)
    requires age <= span && tps > 0.0 && age * tps >= burst && gain == span * tps
    ensures gain >= burst
  {
    MulMono(age, span, tps);
  }

  lemma RoomAgrees(small: Fills, full: Fills, r: Request, l: Limits, clock: real)
    requires Agrees(small, full, clock, l) && clock <= r.prune
    ensures Agrees(Room(small, r, l), full, r.prune, l)
  {
  }

  lemma TakeAgrees(small: Fills, full: Fills, r: Request, l: Limits)
    requires Proper(l) && l.maxAge * l.tps >= l.burst as real
    requires Agrees(small, full, r.prune, l) && r.prune <= r.born <= r.now
    ensures TakeFrom(small, r, l).verdict == TakeFrom(full, r, l).verdict
    ensures Agrees(TakeFrom(small, r, l).fills, TakeFrom(full, r, l).fills, r.now, l)
  {
    if r.id in full && r.id !in small {
      StaleActsNew(full[r.id], r, l);
    }
    StepBounded(Free, full, r, l, r.prune);
  }

  lemma {:induction false} AddressRunAgrees(small: Fills, full: Fills, rs: seq<Request>, l: Limits, clock: real)
    requires Proper(l) && l.maxAge * l.tps >= l.burst as real
    requires Agrees(small, full, clock, l) && Ordered(rs, clock)
    ensures Verdicts(PerAddress, small, rs, l) == Verdicts(Free, full, rs, l)
    decreases |rs|
  {
    if rs != [] {
      var r := rs[0];
      RoomAgrees(small, full, r, l, clock);
      TakeAgrees(Room(small, r, l), full, r, l);
      AddressRunAgrees(StepAddress(small, r, l).fills, StepFree(full, r, l).fills, rs[1..], l, r.now);
    }
  }

  /** The requests that are not turned away at the ceiling of the key limiter. */
  function NotTurnedAway(p: Policy, m: Fills, rs: seq<Request>, l: Limits): seq<Request>
    decreases |rs|
  {
    if rs == [] then []
    else
      var o := Step(p, m, rs[0], l);
      (if o.verdict == TooMany then [] else [rs[0]]) + NotTurnedAway(p, o.fills, rs[1..], l)
  }

  function WithoutTooMany(vs: seq<Verdict>): seq<Verdict>
    decreases |vs|
  {
    if vs == [] then []
    else (if vs[0] == TooMany then [] else [vs[0]]) + WithoutTooMany(vs[1..])
  }

  /** A request that is not turned away is decided as without pruning; one that is changes no bucket. */
  lemma PrunedStepAgrees(p: Policy, small: Fills, full: Fills, r: Request, l: Limits, clock: real)
    requires p != Free && Proper(l) && l.maxAge * l.tps >= l.burst as real
    requires Agrees(small, full, clock, l) && clock <= r.prune <= r.born <= r.now
    ensures var o := Step(p, small, r, l);
      if o.verdict == TooMany then Agrees(o.fills, full, r.now, l)
      else o.verdict == StepFree(full, r, l).verdict && Agrees(o.fills, StepFree(full, r, l).fills, r.now, l)
  {
    RoomAgrees(small, full, r, l, clock);
    TakeAgrees(Room(small, r, l), full, r, l);
  }

  /**
   * On every request not refused by the ceiling, a limiter that prunes decides like one that does not,
   * and their buckets keep agreeing.
   */
  lemma {:induction false} PrunedRunAgrees(
      p: Policy, small: Fills, full: Fills, rs: seq<Request>, l: Limits, clock: real)
    requires p != Free && Proper(l) && l.maxAge * l.tps >= l.burst as real
    requires Agrees(small, full, clock, l) && Ordered(rs, clock)
    ensures var kept := NotTurnedAway(p, small, rs, l);
      && WithoutTooMany(Verdicts(p, small, rs, l)) == Verdicts(Free, full, kept, l)
      && Agrees(After(p, small, rs, l), After(Free, full, kept, l), End(rs, clock), l)
    decreases |rs|
  {
    if rs != [] {
      var small', full' := PrunedFirst(p, small, full, rs, l, clock);
      assert End(rs[1..], rs[0].now) == End(rs, clock);
      PrunedRunAgrees(p, small', full', rs[1..], l, rs[0].now);
    }
  }

  /** The first step of both, and how verdicts and buckets of the rest become those of all. */
  lemma PrunedFirst(p: Policy, small: Fills, full: Fills, rs: seq<Request>, l: Limits, clock: real)
    returns (small': Fills, full': Fills)
    requires p != Free && Proper(l) && l.maxAge * l.tps >= l.burst as real
    requires Agrees(small, full, clock, l) && Ordered(rs, clock) && rs != []
    ensures Agrees(small', full', rs[0].now, l)
    ensures var kept, rest := NotTurnedAway(p, small, rs, l), NotTurnedAway(p, small', rs[1..], l);
      && (WithoutTooMany(Verdicts(p, small', rs[1..], l)) == Verdicts(Free, full', rest, l)
          ==> WithoutTooMany(Verdicts(p, small, rs, l)) == Verdicts(Free, full, kept, l))
      && After(p, small, rs, l) == After(p, small', rs[1..], l)
      && After(Free, full, kept, l) == After(Free, full', rest, l)
  {
    PrunedStepAgrees(p, small, full, rs[0], l, clock);
    small', full' := AgreedFirst(p, small, full, rs, l);
  }

  /** If the two limiters decide the first request alike, the rest makes up the whole. */
  lemma AgreedFirst(p: Policy, small: Fills, full: Fills, rs: seq<Request>, l: Limits)
    returns (small': Fills, full': Fills)
    requires rs != []
    requires var o := Step(p, small, rs[0], l); o.verdict == TooMany || o.verdict == StepFree(full, rs[0], l).verdict
    ensures var o := Step(p, small, rs[0], l);
      small' == o.fills && full' == if o.verdict == TooMany then full else StepFree(full, rs[0], l).fills
    ensures var kept, rest := NotTurnedAway(p, small, rs, l), NotTurnedAway(p, small', rs[1..], l);
      && (WithoutTooMany(Verdicts(p, small', rs[1..], l)) == Verdicts(Free, full', rest, l)
          ==> WithoutTooMany(Verdicts(p, small, rs, l)) == Verdicts(Free, full, kept, l))
      && After(p, small, rs, l) == After(p, small', rs[1..], l)
      && After(Free, full, kept, l) == After(Free, full', rest, l)
  {
    var r, o := rs[0], Step(p, small, rs[0], l);
    small' := o.fills;
    full' := if o.verdict == TooMany then full else StepFree(full, r, l).fills;
    VerdictsFirst(p, small, rs, l);
    var rest := NotTurnedAway(p, small', rs[1..], l);
    if o.verdict == TooMany {
      assert [] + rest == rest;
    } else {
      KeptFirst(full, r, rest, l);
    }
  }

  lemma KeptFirst(full: Fills, r: Request, kept: seq<Request>, l: Limits)
    ensures var o := StepFree(full, r, l);
      && Verdicts(Free, full, [r] + kept, l) == [o.verdict] + Verdicts(Free, o.fills, kept, l)
      && After(Free, full, [r] + kept, l) == After(Free, o.fills, kept, l)
  {
    assert ([r] + kept)[0] == r && ([r] + kept)[1..] == kept;
  }

  lemma VerdictsFirst(p: Policy, m: Fills, rs: seq<Request>, l: Limits)
    requires rs != []
    ensures var o, vs := Step(p, m, rs[0], l), Verdicts(p, m, rs, l);
      vs[0] == o.verdict && vs[1..] == Verdicts(p, o.fills, rs[1..], l)
  {
  }

  /** What is not turned away is in order, within the same time. */
  lemma {:induction false} KeptOrdered(p: Policy, m: Fills, rs: seq<Request>, l: Limits, clock: real)
    requires Ordered(rs, clock)
    ensures var kept := NotTurnedAway(p, m, rs, l);
      && Ordered(kept, clock) && clock <= End(kept, clock) <= End(rs, clock)
      && (kept != [] ==> rs != [] && rs[0].now <= kept[0].now)
    decreases |rs|
  {
    if rs != [] {
      var r, rest := rs[0], rs[1..];
      var m', kept := FirstKept(p, m, rs, l);
      KeptOrdered(p, m', rest, l, r.now);
      assert End(rest, r.now) == End(rs, clock);
      OrderedFirst(r, kept, clock);
    }
  }

  /** What is kept of a run is what is kept of its rest, after the first request or without it. */
  lemma FirstKept(p: Policy, m: Fills, rs: seq<Request>, l: Limits) returns (m': Fills, kept: seq<Request>)
    requires rs != []
    ensures kept == NotTurnedAway(p, m', rs[1..], l)
    ensures NotTurnedAway(p, m, rs, l) in {kept, [rs[0]] + kept}
  {
    m' := Step(p, m, rs[0], l).fills;
    kept := NotTurnedAway(p, m', rs[1..], l);
    assert [] + kept == kept;
  }

  lemma OrderedFirst(r: Request, rest: seq<Request>, clock: real)
    requires clock <= r.prune <= r.born <= r.now && Ordered(rest, r.now)
    ensures Ordered(rest, clock) && (rest != [] ==> End(rest, clock) == End(rest, r.now))
    ensures Ordered([r] + rest, clock) && End([r] + rest, clock) == End(rest, r.now)
  {
    assert ([r] + rest)[1..] == rest;
  }

  /** The end of an ordered request sequence. */
  function End(rs: seq<Request>, clock: real): real {
    if rs == [] then clock else rs[|rs| - 1].now
  }

  // ---------------------------------------------------------------- the rate bound

  function Count(id: string, rs: seq<Request>, vs: seq<Verdict>): nat
    requires |rs| == |vs|
    decreases |rs|
  {
    if rs == [] then 0
    else (if rs[0].id == id && vs[0] == Admitted then 1 else 0) + Count(id, rs[1..], vs[1..])
  }

  /** The times of the requests for one id. */
  function TimesOf(id: string, rs: seq<Request>): seq<real>
    decreases |rs|
  {
    if rs == [] then [] else (if rs[0].id == id then [rs[0].now] else []) + TimesOf(id, rs[1..])
  }

  /** What one bucket alone admits of takes at these times. */
  function BucketAdmits(f: Fill, times: seq<real>, l: Limits): nat
    decreases |times|
  {
    if times == [] then 0
    else
      var t := Take(f, times[0], l);
      (if t.ok then 1 else 0) + BucketAdmits(t.fill, times[1..], l)
  }

  predicate Between(times: seq<real>, from: real, end: real)
    decreases |times|
  {
    if times == [] then from <= end else from <= times[0] <= end && Between(times[1..], times[0], end)
  }

  lemma MulSplit(a: real, b: real, c: real, k: real)
    ensures (c - a) * k == (c - b) * k + (b - a) * k
  {
  }

  /** From its last take on, a bucket admits at most its tokens plus what it earns. */
  lemma {:induction false} EarnedBound(f: Fill, times: seq<real>, l: Limits, end: real)
    requires Proper(l) && f.tokens >= 0.0 && Between(times, f.last, end)
    ensures BucketAdmits(f, times, l) as real <= f.tokens + (end - f.last) * l.tps
    decreases |times|
  {
    if times == [] {
      MulMono(0.0, end - f.last, l.tps);
      assert (end - f.last) * l.tps >= 0.0;
    } else {
      var gain := RefillGain(f, times[0], l);
      EarnedBound(Take(f, times[0], l).fill, times[1..], l, end);
      MulSplit(f.last, times[0], end, l.tps);
    }
  }

  /** The promise of the token bucket for a span of time. */
  predicate RateBound(count: nat, span: real, l: Limits) {
    count as real <= l.burst as real + span * l.tps
  }

  /** From any request on, a bucket admits at most the burst plus what it earns until the end. */
  lemma BucketWindowBound(f: Fill, times: seq<real>, l: Limits, end: real)
    requires Proper(l) && 0.0 <= f.tokens <= l.burst as real && Between(times, f.last, end) && times != []
    ensures RateBound(BucketAdmits(f, times, l), end - times[0], l)
  {
    var earned := (end - times[0]) * l.tps;
    assert BucketAdmits(f, times, l) as real <= l.burst as real + earned by {
      var t, rest := RestEarns(f, times, l, end, earned);
      TakePays(f, times[0], l);
      SumBound(BucketAdmits(f, times, l), rest, earned, t, l);
    }
  }

  /** What the later requests of a bucket are admitted is paid by what is left and what is earned. */
  lemma RestEarns(f: Fill, times: seq<real>, l: Limits, end: real, earned: real) returns (t: Taken, rest: nat)
    requires Proper(l) && 0.0 <= f.tokens <= l.burst as real && Between(times, f.last, end) && times != []
    requires earned == (end - times[0]) * l.tps
    ensures t == Take(f, times[0], l) && rest as real <= t.fill.tokens + earned
    ensures BucketAdmits(f, times, l) == (if t.ok then 1 else 0) + rest
  {
    t := Take(f, times[0], l);
    rest := BucketAdmits(t.fill, times[1..], l);
    TakeBounded(f, times[0], l);
    EarnedBound(t.fill, times[1..], l, end);
  }

  /** An admitted take costs a token of a level that is at most the burst. */
  lemma TakePays(f: Fill, now: real, l: Limits)
    ensures var t := Take(f, now, l); t.fill.tokens + (if t.ok then 1.0 else 0.0) <= l.burst as real
  {
  }

  lemma SumBound(all: nat, rest: nat, earned: real, t: Taken, l: Limits)
    requires all == (if t.ok then 1 else 0) + rest && rest as real <= t.fill.tokens + earned
    requires t.fill.tokens + (if t.ok then 1.0 else 0.0) <= l.burst as real
    ensures all as real <= l.burst as real + earned
  {
  }

  /** The bucket that serves id from here on: a missing one acts like a full one of any age. */
  ghost predicate Serves(m: Fills, id: string, f: Fill, l: Limits) {
    if id in m then f == m[id] else f.tokens == l.burst as real
  }

  lemma FullIsAgeless(f: Fill, g: Fill, now: real, l: Limits)
    requires Proper(l) && f.tokens == g.tokens == l.burst as real && f.last <= now && g.last <= now
    ensures Take(f, now, l) == Take(g, now, l)
  {
    var gain := RefillGain(f, now, l);
    var gain' := RefillGain(g, now, l);
  }

  /** In a run the requests for one id see one bucket, whatever the others do. */
  lemma {:induction false} OneBucketPerId(m: Fills, rs: seq<Request>, id: string, f: Fill, l: Limits, clock: real)
    requires Proper(l) && Ordered(rs, clock) && Serves(m, id, f, l) && f.last <= clock
    ensures Count(id, rs, Verdicts(Free, m, rs, l)) == BucketAdmits(f, TimesOf(id, rs), l)
    decreases |rs|
  {
    if rs != [] {
      var r := rs[0];
      var o := StepFree(m, r, l);
      CountFirst(m, rs, id, l);
      BucketStep(m, r, id, f, l, clock);
      var f' := if r.id == id then Take(f, r.now, l).fill else f;
      OneBucketPerId(o.fills, rs[1..], id, f', l, r.now);
      if r.id == id {
        assert TimesOf(id, rs)[1..] == TimesOf(id, rs[1..]);
      } else {
        assert TimesOf(id, rs) == TimesOf(id, rs[1..]);
      }
    }
  }

  /** One request moves the bucket of its own id and no other. */
  lemma BucketStep(m: Fills, r: Request, id: string, f: Fill, l: Limits, clock: real)
    requires Proper(l) && Serves(m, id, f, l) && f.last <= clock <= r.born <= r.now
    ensures var o := StepFree(m, r, l);
      if r.id == id then
        var t := Take(f, r.now, l);
        Serves(o.fills, id, t.fill, l) && t.fill.last == r.now && (o.verdict == Admitted <==> t.ok)
      else Serves(o.fills, id, f, l)
  {
    if r.id == id && id !in m {
      FullIsAgeless(f, Fill(l.burst as real, r.born), r.now, l);
    }
  }

  lemma CountFirst(m: Fills, rs: seq<Request>, id: string, l: Limits)
    requires rs != []
    ensures var o := StepFree(m, rs[0], l);
      Count(id, rs, Verdicts(Free, m, rs, l))
      == Count(id, rs[1..], Verdicts(Free, o.fills, rs[1..], l))
         + (if rs[0].id == id && o.verdict == Admitted then 1 else 0)
  {
    var o := StepFree(m, rs[0], l);
    var rest := Verdicts(Free, o.fills, rs[1..], l);
    assert ([o.verdict] + rest)[1..] == rest;
  }

  lemma {:induction false} TimesBetween(rs: seq<Request>, id: string, clock: real, from: real)
    requires Ordered(rs, clock) && from <= clock
    ensures clock <= End(rs, clock)
    ensures Between(TimesOf(id, rs), from, End(rs, clock))
    ensures TimesOf(id, rs) != [] ==> rs[0].now <= TimesOf(id, rs)[0]
    decreases |rs|
  {
    if rs != [] {
      var r, rest := rs[0], rs[1..];
      assert End(rest, r.now) == End(rs, clock);
      if r.id == id {
        TimesBetween(rest, id, r.now, r.now);
        assert TimesOf(id, rs)[1..] == TimesOf(id, rest);
      } else {
        TimesBetween(rest, id, r.now, from);
        assert TimesOf(id, rs) == TimesOf(id, rest);
        if rest != [] {
          assert r.now <= rest[0].now;
        }
      }
    }
  }

  /** The last clock reading of a prefix. */
  function ClockAt(rs: seq<Request>, clock: real, i: nat): real
    requires i <= |rs|
  {
    End(rs[..i], clock)
  }

  lemma {:induction false} OrderedSlice(rs: seq<Request>, clock: real, i: nat)
    requires Ordered(rs, clock) && i <= |rs|
    ensures Ordered(rs[..i], clock) && Ordered(rs[i..], ClockAt(rs, clock, i))
    decreases i
  {
    if i == 0 {
      assert rs[0..] == rs;
    } else {
      var rest := rs[1..];
      OrderedSlice(rest, rs[0].now, i - 1);
      var a, b := rs[..i], rs[i..];
      assert a[1..] == rest[..i - 1] && a[0] == rs[0];
      assert b == rest[i - 1..];
      assert ClockAt(rest, rs[0].now, i - 1) == ClockAt(rs, clock, i);
    }
  }

  /** A slice of a run is a run from where its prefix ends. */
  lemma VerdictSlice(p: Policy, m: Fills, rs: seq<Request>, l: Limits, i: nat, j: nat)
    requires i <= j <= |rs|
    ensures Verdicts(p, m, rs, l)[i..j] == Verdicts(p, After(p, m, rs[..i], l), rs[i..j], l)
  {
    var a, b, c := rs[..i], rs[i..j], rs[j..];
    assert rs == a + (b + c);
    RunConcat(p, m, a, b + c, l);
    RunConcat(p, After(p, m, a, l), b, c, l);
    var m' := After(p, m, a, l);
    var va, vb, vc := Verdicts(p, m, a, l), Verdicts(p, m', b, l), Verdicts(p, After(p, m', b, l), c, l);
    assert Verdicts(p, m, rs, l) == va + (vb + vc);
    Middle(va, vb, vc);
  }

  lemma Middle(a: seq<Verdict>, b: seq<Verdict>, c: seq<Verdict>)
    ensures (a + (b + c))[|a|..|a| + |b|] == b
  {
  }

  lemma WiderSpan(count: nat, span: real, wider: real, l: Limits)
    requires Proper(l) && span <= wider && RateBound(count, span, l)
    ensures RateBound(count, wider, l)
  {
    MulMono(span, wider, l.tps);
  }

  lemma EmptyCount(span: real, l: Limits)
    requires Proper(l) && span >= 0.0
    ensures RateBound(0, span, l)
  {
    MulMono(0.0, span, l.tps);
    assert span * l.tps >= 0.0;
  }

  lemma RunWindowBound(m: Fills, rs: seq<Request>, l: Limits, id: string, clock: real)
    requires Proper(l) && Bounded(m, clock, l) && Ordered(rs, clock) && rs != []
    ensures RateBound(Count(id, rs, Verdicts(Free, m, rs, l)), End(rs, clock) - rs[0].now, l)
  {
    var f := if id in m then m[id] else Fill(l.burst as real, clock);
    var times := TimesOf(id, rs);
    var end := End(rs, clock);
    OneBucketPerId(m, rs, id, f, l, clock);
    TimesBetween(rs, id, clock, f.last);
    if times == [] {
      TimesBetween(rs[1..], id, rs[0].now, rs[0].now);
      assert End(rs[1..], rs[0].now) == end;
      EmptyCount(end - rs[0].now, l);
    } else {
      BucketWindowBound(f, times, l, end);
      WiderSpan(BucketAdmits(f, times, l), end - times[0], end - rs[0].now, l);
    }
  }

  lemma WindowSlice(rs: seq<Request>, i: nat, j: nat)
    requires Ordered(rs, 0.0) && i <= j < |rs|
    ensures Ordered(rs[..i], 0.0) && Ordered(rs[i..j + 1], ClockAt(rs, 0.0, i))
  {
    OrderedSlice(rs, 0.0, i);
    OrderedSlice(rs[i..], ClockAt(rs, 0.0, i), j + 1 - i);
    assert rs[i..][..j + 1 - i] == rs[i..j + 1];
  }

  /** Only requests that are not turned away can be admitted. */
  lemma {:induction false} CountKept(p: Policy, m: Fills, rs: seq<Request>, l: Limits, id: string)
    ensures var kept, vs := NotTurnedAway(p, m, rs, l), Verdicts(p, m, rs, l);
      |WithoutTooMany(vs)| == |kept| && Count(id, rs, vs) == Count(id, kept, WithoutTooMany(vs))
    decreases |rs|
  {
    if rs != [] {
      var o := Step(p, m, rs[0], l);
      var vs := Verdicts(p, m, rs, l);
      VerdictsFirst(p, m, rs, l);
      CountKept(p, o.fills, rs[1..], l, id);
      var kept, decided := NotTurnedAway(p, o.fills, rs[1..], l), WithoutTooMany(vs[1..]);
      if o.verdict == TooMany {
        assert [] + kept == kept && [] + decided == decided;
      } else {
        assert ([rs[0]] + kept)[1..] == kept && ([vs[0]] + decided)[1..] == decided;
      }
    }
  }

  /** What one client is admitted between two requests of a run keeps the promise of the token bucket. */
  predicate WindowKept(p: Policy, l: Limits, rs: seq<Request>, id: string, i: nat, j: nat)
    requires i <= j < |rs|
  {
    RateBound(Count(id, rs[i..j + 1], Verdicts(p, map[], rs, l)[i..j + 1]), rs[j].now - rs[i].now, l)
  }

  /** What is kept of a run keeps the promise within the time of the run. */
  lemma KeptBound(full: Fills, kept: seq<Request>, l: Limits, id: string, clock: real, start: real, end: real)
    requires Proper(l) && Bounded(full, clock, l) && Ordered(kept, clock) && start <= end
    requires kept != [] ==> start <= kept[0].now && End(kept, clock) <= end
    ensures RateBound(Count(id, kept, Verdicts(Free, full, kept, l)), end - start, l)
  {
    if kept == [] {
      EmptyCount(end - start, l);
    } else {
      RunWindowBound(full, kept, l, id, clock);
      WiderSpan(Count(id, kept, Verdicts(Free, full, kept, l)), End(kept, clock) - kept[0].now, end - start, l);
    }
  }

  /** A run of a limiter that prunes, from buckets that agree with those never pruned. */
  lemma PrunedRunBound(p: Policy, small: Fills, full: Fills, rs: seq<Request>, l: Limits, id: string, clock: real)
    requires p != Free && Proper(l) && l.maxAge * l.tps >= l.burst as real
    requires Agrees(small, full, clock, l) && Ordered(rs, clock) && rs != []
    ensures RateBound(Count(id, rs, Verdicts(p, small, rs, l)), End(rs, clock) - rs[0].now, l)
  {
    var kept := NotTurnedAway(p, small, rs, l);
    KeptOrdered(p, small, rs, l, clock);
    OrderedEnds(rs, clock);
    KeptBound(full, kept, l, id, clock, rs[0].now, End(rs, clock));
    assert Count(id, rs, Verdicts(p, small, rs, l)) == Count(id, kept, Verdicts(Free, full, kept, l)) by {
      PrunedRunAgrees(p, small, full, rs, l, clock);
      CountKept(p, small, rs, l, id);
    }
  }

  lemma OrderedEnds(rs: seq<Request>, clock: real)
    requires Ordered(rs, clock) && rs != []
    ensures rs[0].now <= End(rs, clock)
  {
    TimesBetween(rs[1..], "", rs[0].now, rs[0].now);
    assert End(rs[1..], rs[0].now) == End(rs, clock);
  }

  /** In any window each client is admitted at most the burst plus the rate times its length. */
  lemma RefilledWindowKept(p: Policy, rs: seq<Request>, l: Limits, id: string, i: nat, j: nat)
    requires p != Free && Proper(l) && l.maxAge * l.tps >= l.burst as real
    requires Ordered(rs, 0.0) && i <= j < |rs|
    ensures WindowKept(p, l, rs, id, i, j)
  {
    var count, span := WindowRun(p, rs, l, id, i, j);
    SameBound(count, span, rs[j].now - rs[i].now, l);
  }

  lemma SameBound(count: nat, span: real, span': real, l: Limits)
    requires RateBound(count, span, l) && span == span'
    ensures RateBound(count, span', l)
  {
  }

  /** A window of a run, as a run of its own that keeps to the rate. */
  lemma WindowRun(p: Policy, rs: seq<Request>, l: Limits, id: string, i: nat, j: nat)
    returns (count: nat, span: real)
    requires p != Free && Proper(l) && l.maxAge * l.tps >= l.burst as real
    requires Ordered(rs, 0.0) && i <= j < |rs|
    ensures count == Count(id, rs[i..j + 1], Verdicts(p, map[], rs, l)[i..j + 1])
    ensures span == rs[j].now - rs[i].now && RateBound(count, span, l)
  {
    var small, full := AgreeAt(p, rs, l, i);
    var w, clock := rs[i..j + 1], ClockAt(rs, 0.0, i);
    WindowSlice(rs, i, j);
    count, span := Count(id, w, Verdicts(p, small, w, l)), End(w, clock) - w[0].now;
    PrunedRunBound(p, small, full, w, l, id, clock);
    WindowIsRun(p, rs, l, id, i, j, small);
  }

  /** A window of a run is a run from where it starts. */
  lemma WindowIsRun(p: Policy, rs: seq<Request>, l: Limits, id: string, i: nat, j: nat, small: Fills)
    requires i <= j < |rs| && small == After(p, map[], rs[..i], l)
    ensures var w := rs[i..j + 1];
      && Count(id, w, Verdicts(p, small, w, l)) == Count(id, w, Verdicts(p, map[], rs, l)[i..j + 1])
      && w[0] == rs[i] && End(w, ClockAt(rs, 0.0, i)) == rs[j].now
  {
    assert Verdicts(p, small, rs[i..j + 1], l) == Verdicts(p, map[], rs, l)[i..j + 1] by {
      VerdictSlice(p, map[], rs, l, i, j + 1);
    }
    WindowEnds(rs, i, j, ClockAt(rs, 0.0, i));
  }

  lemma WindowEnds(rs: seq<Request>, i: nat, j: nat, clock: real)
    requires i <= j < |rs|
    ensures rs[i..j + 1][0] == rs[i] && End(rs[i..j + 1], clock) == rs[j].now
  {
  }

  /** At any point of a run the buckets agree with those never pruned. */
  lemma AgreeAt(p: Policy, rs: seq<Request>, l: Limits, i: nat) returns (small: Fills, full: Fills)
    requires p != Free && Proper(l) && l.maxAge * l.tps >= l.burst as real
    requires Ordered(rs, 0.0) && i <= |rs|
    ensures small == After(p, map[], rs[..i], l) && Agrees(small, full, ClockAt(rs, 0.0, i), l)
  {
    OrderedSlice(rs, 0.0, i);
    PrunedRunAgrees(p, map[], map[], rs[..i], l, 0.0);
    small, full := After(p, map[], rs[..i], l), After(Free, map[], NotTurnedAway(p, map[], rs[..i], l), l);
  }

  // ---------------------------------------------------------------- who is never limited

  /** At least gap between one take and the next, the first one after from. */
  predicate Spaced(times: seq<real>, from: real, gap: real)
    decreases |times|
  {
    times == [] || (times[0] - from >= gap && Spaced(times[1..], times[0], gap))
  }

  /** A level of one token is enough to be admitted, and leaves no debt. */
  lemma LevelAdmits(f: Fill, now: real, l: Limits, gain: real)
    requires Proper(l) && f.tokens >= 0.0 && gain == (now - f.last) * l.tps && f.tokens + gain >= 1.0
    ensures Take(f, now, l).ok && Take(f, now, l).fill.tokens >= 0.0 && Take(f, now, l).fill.last == now
  {
    var gain' := RefillGain(f, now, l);
  }

  /** A client with no bucket, or whose bucket has the time to earn a token before each request. */
  predicate Steady(m: Fills, rs: seq<Request>, id: string, gap: real) {
    var times := TimesOf(id, rs);
    && (times != [] ==> Spaced(times[1..], times[0], gap))
    && (id in m ==> m[id].tokens >= 0.0 && Spaced(times, m[id].last, gap))
  }

  lemma SteadyStep(p: Policy, m: Fills, rs: seq<Request>, l: Limits, id: string, gap: real, clock: real)
    requires Proper(l) && gap * l.tps >= 1.0 && Ordered(rs, clock) && rs != [] && Steady(m, rs, id, gap)
    ensures var o := Step(p, m, rs[0], l);
      Steady(o.fills, rs[1..], id, gap) && (rs[0].id == id ==> o.verdict != Limited)
  {
    var r, times := rs[0], TimesOf(id, rs);
    if r.id == id {
      assert times[0] == r.now && times[1..] == TimesOf(id, rs[1..]);
      var f := if id in m then m[id] else Fill(l.burst as real, r.born);
      SteadyTake(f, r.now, l, gap, id in m);
      StepTakes(p, m, r, l, f);
    } else {
      assert times == TimesOf(id, rs[1..]);
      OthersKeep(p, m, r, l, id);
    }
  }

  /** A step for a client takes from its bucket, or from a full one, unless it is turned away. */
  lemma StepTakes(p: Policy, m: Fills, r: Request, l: Limits, f: Fill)
    requires f == if r.id in m then m[r.id] else Fill(l.burst as real, r.born)
    ensures var o, t := Step(p, m, r, l), Take(f, r.now, l);
      if o.verdict == TooMany then r.id !in o.fills
      else r.id in o.fills && o.fills[r.id] == t.fill && (o.verdict == Admitted <==> t.ok)
  {
  }

  lemma OthersKeep(p: Policy, m: Fills, r: Request, l: Limits, id: string)
    requires r.id != id
    ensures var after := Step(p, m, r, l).fills; id in after ==> id in m && after[id] == m[id]
  {
  }

  /** A full bucket, and one left alone for the gap, admits. */
  lemma SteadyTake(f: Fill, now: real, l: Limits, gap: real, used: bool)
    requires Proper(l) && gap * l.tps >= 1.0 && f.tokens >= 0.0 && f.last <= now
    requires if used then now - f.last >= gap else f.tokens == l.burst as real
    ensures Take(f, now, l).ok && Take(f, now, l).fill.tokens >= 0.0 && Take(f, now, l).fill.last == now
  {
    var gain := RefillGain(f, now, l);
    if used {
      LongGain(gap, now - f.last, l.tps, 1.0, gain);
    }
    LevelAdmits(f, now, l, gain);
  }

  /**
   * A client that leaves the time to earn a token between its requests is never limited, whatever others
   * do, by any of the limiters and with any limits; only the ceiling for keys can turn it away.
   */
  lemma {:induction false} SteadyClientAdmitted(
      p: Policy, m: Fills, rs: seq<Request>, l: Limits, id: string, gap: real, clock: real)
    requires Proper(l) && gap * l.tps >= 1.0 && Ordered(rs, clock) && Steady(m, rs, id, gap)
    ensures forall k :: 0 <= k < |rs| && rs[k].id == id ==> Verdicts(p, m, rs, l)[k] != Limited
    ensures p != PerKey ==> forall k :: 0 <= k < |rs| && rs[k].id == id ==> Verdicts(p, m, rs, l)[k] == Admitted
    decreases |rs|
  {
    if rs != [] {
      var o := Step(p, m, rs[0], l);
      SteadyStep(p, m, rs, l, id, gap, clock);
      SteadyClientAdmitted(p, o.fills, rs[1..], l, id, gap, rs[0].now);
      VerdictsFirst(p, m, rs, l);
      assert forall k :: 0 < k < |rs| ==>
        rs[k] == rs[1..][k - 1] && Verdicts(p, m, rs, l)[k] == Verdicts(p, o.fills, rs[1..], l)[k - 1];
    }
  }
}
