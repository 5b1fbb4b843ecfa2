/**
 * The token-bucket limiters of the auth middleware: one per remote address, one per API key.
 * Times are seconds on the monotonic clock, token counts are reals.
 */
module RateLimit {

  /** What a bucket holds. */
  datatype Fill = Fill(tokens: real, last: real)

  /** The configured limits; a zero or negative configuration value means a positive default. */
  datatype Limits = Limits(tps: real, burst: nat, maxClients: nat, maxAge: real)

  predicate Proper(l: Limits) {
    l.tps > 0.0 && l.burst >= 1 && l.maxClients >= 1 && l.maxAge > 0.0
  }

  /** One request: its bucket id, and the clock readings for pruning, bucket creation and taking. */
  datatype Request = Request(id: string, prune: real, born: real, now: real)

  /** The clock never goes back, within a request or from one to the next. */
  predicate Ordered(rs: seq<Request>, clock: real)
    decreases |rs|
  {
    rs == [] || (clock <= rs[0].prune <= rs[0].born <= rs[0].now && Ordered(rs[1..], rs[0].now))
  }

  type Fills = map<string, Fill>

  /** What a bucket earns between two clock readings. */
  function Earned(now: real, last: real, tps: real): real {
    (now - last) * tps
  }

  /** takeLocked: refill up to the burst, then take one token if there is one. */
  function Refill(f: Fill, now: real, l: Limits): real {
    var t := f.tokens + Earned(now, f.last, l.tps);
    if t > l.burst as real then l.burst as real else t
  }

  datatype Taken = Taken(fill: Fill, ok: bool)

  function Take(f: Fill, now: real, l: Limits): Taken {
    var t := Refill(f, now, l);
    if t < 1.0 then Taken(Fill(t, now), false) else Taken(Fill(t - 1.0, now), true)
  }

  /** pruneLocked and pruneKeysLocked. */
  function Pruned(m: Fills, cutoff: real): Fills {
    map id | id in m && !(m[id].last < cutoff) :: m[id]
  }

  datatype Verdict = Admitted | Limited | TooMany

  datatype Outcome = Outcome(fills: Fills, verdict: Verdict)

  function TakeFrom(m: Fills, r: Request, l: Limits): Outcome {
    var m := if r.id in m then m else m[r.id := Fill(l.burst as real, r.born)];
    var t := Take(m[r.id], r.now, l);
    Outcome(m[r.id := t.fill], if t.ok then Admitted else Limited)
  }

  /** The reference limiter: every bucket is kept forever. */
  function StepFree(m: Fills, r: Request, l: Limits): Outcome {
    TakeFrom(m, r, l)
  }

  /** A new id in a full map first prunes the buckets not used for maxAge. */
  function Room(m: Fills, r: Request, l: Limits): Fills {
    if r.id !in m && |m| >= l.maxClients then Pruned(m, r.prune - l.maxAge) else m
  }

  /** RateLimit, for an address that is not loopback. */
  function StepAddress(m: Fills, r: Request, l: Limits): Outcome {
    TakeFrom(Room(m, r, l), r, l)
  }

  /** RateLimitKey: the same, with a ceiling on the number of buckets. */
  function StepKey(m: Fills, r: Request, l: Limits): Outcome {
    var kept := Room(m, r, l);
    if r.id !in kept && |kept| >= 2 * l.maxClients then Outcome(kept, TooMany) else TakeFrom(kept, r, l)
  }

  // ---------------------------------------------------------------- the code

  class Bucket {
    var tokens: real
    var last: real

    constructor (tokens: real, last: real)
      ensures this.tokens == tokens && this.last == last
    {
      this.tokens, this.last := tokens, last;
    }

    function Value(): Fill
      reads this
    {
      Fill(tokens, last)
    }

    method TakeLocked(now: real, l: Limits) returns (ok: bool)
      modifies this
      ensures Taken(Value(), ok) == Take(old(Value()), now, l)
    {
      ghost var before := Value();
      var earned := Earned(now, last, l.tps);
      tokens := tokens + earned;
      if tokens > l.burst as real {
        tokens := l.burst as real;
      }
      last := now;
      assert tokens == Refill(before, now, l);
      if tokens < 1.0 {
        return false;
      }
      tokens := tokens - 1.0;
      return true;
    }
  }

  class Limiter {
    var buckets: map<string, Bucket>

    ghost predicate Valid()
      reads this
    {
      forall x, y :: x in buckets && y in buckets && x != y ==> buckets[x] != buckets[y]
    }

    ghost function View(): Fills
      reads this, buckets.Values
    {
      map id | id in buckets :: buckets[id].Value()
    }

    constructor ()
      ensures Valid() && View() == map[]
    {
      buckets := map[];
    }

    method PruneLocked(now: real, maxAge: real)
      requires Valid()
      modifies this
      ensures Valid() && buckets.Values <= old(buckets.Values)
      ensures View() == Pruned(old(View()), now - maxAge)
    {
      var cutoff := now - maxAge;
      var todo := buckets.Keys;
      while todo != {}
        invariant todo <= buckets.Keys <= old(buckets.Keys)
        invariant forall id :: id in buckets ==> buckets[id] == old(buckets)[id]
        invariant forall id :: id in todo || (id in old(buckets) && !(old(buckets)[id].last < cutoff)) ==> id in buckets
        invariant forall id :: id in buckets && id !in todo ==> !(buckets[id].last < cutoff)
        decreases todo
      {
        var id :| id in todo;
        if buckets[id].last < cutoff {
          buckets := buckets - {id};
        }
        todo := todo - {id};
      }
    }

    method MakeRoom(r: Request, l: Limits)
      requires Valid()
      modifies this
      ensures Valid() && buckets.Values <= old(buckets.Values)
      ensures View() == Room(old(View()), r, l) && |View()| == |buckets| && View().Keys == buckets.Keys
    {
      assert View().Keys == buckets.Keys;
      if r.id !in buckets && |buckets| >= l.maxClients {
        PruneLocked(r.prune, l.maxAge);
      }
      assert View().Keys == buckets.Keys;
    }

    /** Create the bucket if it is missing, then take a token. */
    method TakeOrCreate(r: Request, l: Limits) returns (v: Verdict)
      requires Valid()
      modifies this, buckets.Values
      ensures Valid() && fresh(buckets.Values - old(buckets.Values))
      ensures Outcome(View(), v) == TakeFrom(old(View()), r, l)
    {
      if r.id !in buckets {
        var b := new Bucket(l.burst as real, r.born);
        buckets := buckets[r.id := b];
      }
      var ok := buckets[r.id].TakeLocked(r.now, l);
      v := if ok then Admitted else Limited;
    }

    method RateLimit(r: Request, l: Limits) returns (v: Verdict)
      requires Valid()
      modifies this, buckets.Values
      ensures Valid()
      ensures Outcome(View(), v) == StepAddress(old(View()), r, l)
    {
      MakeRoom(r, l);
      v := TakeOrCreate(r, l);
    }

    method RateLimitKey(r: Request, l: Limits) returns (v: Verdict)
      requires Valid()
      modifies this, buckets.Values
      ensures Valid()
      ensures Outcome(View(), v) == StepKey(old(View()), r, l)
    {
      MakeRoom(r, l);
      if r.id !in buckets && |buckets| >= 2 * l.maxClients {
        return TooMany;
      }
      v := TakeOrCreate(r, l);
    }
  }
}
