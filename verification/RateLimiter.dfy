/** The token bucket that limits ban requests (internal/api/api.go), over exact reals. */
module RateLimiter {

  datatype Bucket = Bucket(tokens: real, max: real, rate: real, last: real) {
    predicate Valid() { 0.0 <= tokens <= max && 0.0 <= rate }
  }

  /** Tokens that flow in between two times. */
  function Flow(rate: real, from: real, to: real): real { (to - from) * rate }

  lemma FlowAdds(rate: real, a: real, b: real, c: real)
    ensures Flow(rate, a, c) == Flow(rate, a, b) + Flow(rate, b, c)
  {
  }

  lemma FlowNonNegative(rate: real, a: real, b: real)
    requires 0.0 <= rate && a <= b
    ensures 0.0 <= Flow(rate, a, b)
  {
  }

  /** The bucket after refilling up to time now. */
  function Refill(b: Bucket, now: real): Bucket {
    var t := b.tokens + Flow(b.rate, b.last, now);
    b.(tokens := if t > b.max then b.max else t, last := now)
  }

  predicate Granted(b: Bucket, now: real) { Refill(b, now).tokens >= 1.0 }

  function After(b: Bucket, now: real): Bucket {
    var r := Refill(b, now);
    if r.tokens < 1.0 then r else r.(tokens := r.tokens - 1.0)
  }

  class Limiter {
    var tokens: real
    var max: real
    var rate: real
    var last: real

    constructor (rate: int, burst: int, now: real)
      ensures State() == Bucket(burst as real, burst as real, rate as real, now)
      ensures rate >= 0 && burst >= 0 ==> State().Valid()
    {
      tokens, max, this.rate, last := burst as real, burst as real, rate as real, now;
    }

    function State(): Bucket
      reads this
    {
      Bucket(tokens, max, rate, last)
    }

    method Allow(now: real) returns (ok: bool)
      modifies this
      ensures State() == After(old(State()), now)
      ensures ok == Granted(old(State()), now)
      ensures var filled := old(tokens) + (now - old(last)) * rate;
              var level := if filled < max then filled else max;
              ok == (level >= 1.0) && tokens == level - (if ok then 1.0 else 0.0)
      ensures last == now && max == old(max) && rate == old(rate)
    {
      var elapsed := now - last;
      last := now;
      tokens := tokens + elapsed * rate;
      if tokens > max {
        tokens := max;
      }
      if tokens < 1.0 {
        return false;
      }
      tokens := tokens - 1.0;
      return true;
    }
  }

  // ----- whole runs -----

  /** Call times never go backwards (Go's clock is monotonic). */
  predicate Nondecreasing(last: real, ts: seq<real>)
    decreases ts
  {
    ts == [] || (last <= ts[0] && Nondecreasing(ts[0], ts[1..]))
  }

  function Run(b: Bucket, ts: seq<real>): Bucket
    decreases ts
  {
    if ts == [] then b else Run(After(b, ts[0]), ts[1..])
  }

  function Grants(b: Bucket, ts: seq<real>): nat
    decreases ts
  {
    if ts == [] then 0
    else (if Granted(b, ts[0]) then 1 else 0) + Grants(After(b, ts[0]), ts[1..])
  }

  lemma {:induction false} RunSplit(b: Bucket, xs: seq<real>, ys: seq<real>)
    ensures Run(b, xs + ys) == Run(Run(b, xs), ys)
    ensures Grants(b, xs + ys) == Grants(b, xs) + Grants(Run(b, xs), ys)
    decreases xs
  {
    if xs == [] {
      assert [] + ys == ys;
    } else {
      assert (xs + ys)[0] == xs[0] && (xs + ys)[1..] == xs[1..] + ys;
      RunSplit(After(b, xs[0]), xs[1..], ys);
    }
  }

  lemma AllowKeepsValid(b: Bucket, now: real)
    requires b.Valid() && b.last <= now
    ensures After(b, now).Valid()
    ensures After(b, now).last == now && After(b, now).max == b.max && After(b, now).rate == b.rate
    ensures After(b, now).tokens + (if Granted(b, now) then 1.0 else 0.0) <= b.tokens + Flow(b.rate, b.last, now)
  {
  }

  lemma {:induction false} RunKeepsValid(b: Bucket, ts: seq<real>)
    requires b.Valid() && Nondecreasing(b.last, ts)
    ensures var e := Run(b, ts); e.Valid() && e.max == b.max && e.rate == b.rate && e.last >= b.last
    ensures ts != [] ==> Run(b, ts).last == ts[|ts| - 1]
    decreases ts
  {
    hide After;
    if ts != [] {
      AllowKeepsValid(b, ts[0]);
      RunKeepsValid(After(b, ts[0]), ts[1..]);
      assert |ts| > 1 ==> ts[|ts| - 1] == ts[1..][|ts| - 2];
    }
  }

  /** Conservation: what is granted and what is left never exceeds what was there and what
      flowed in. */
  lemma {:induction false} TokensConserved(b: Bucket, ts: seq<real>)
    requires b.Valid() && Nondecreasing(b.last, ts)
    ensures Run(b, ts).tokens + Grants(b, ts) as real <= b.tokens + Flow(b.rate, b.last, Run(b, ts).last)
    decreases ts
  {
    hide After, Flow, Granted;
    FlowNonNegative(b.rate, b.last, b.last);
    if ts != [] {
      var b1 := After(b, ts[0]);
      AllowKeepsValid(b, ts[0]);
      TokensConserved(b1, ts[1..]);
      FlowAdds(b.rate, b.last, ts[0], Run(b1, ts[1..]).last);
    }
  }

  /** At one of the calls more flows in than the bucket holds. */
  predicate Clips(b: Bucket, ts: seq<real>)
    decreases ts
  {
    ts != [] && (b.tokens + Flow(b.rate, b.last, ts[0]) > b.max || Clips(After(b, ts[0]), ts[1..]))
  }

  /** Conservation is exact while the bucket does not overflow: a grant costs one token and a denial
      none. */
  lemma {:induction false} TokensBalance(b: Bucket, ts: seq<real>)
    requires !Clips(b, ts)
    ensures Run(b, ts).tokens + Grants(b, ts) as real == b.tokens + Flow(b.rate, b.last, Run(b, ts).last)
    ensures Run(b, ts).rate == b.rate
    decreases ts
  {
    if ts != [] {
      TokensBalance(After(b, ts[0]), ts[1..]);
      hide Clips;
      assert After(b, ts[0]).tokens + (if Granted(b, ts[0]) then 1.0 else 0.0) == b.tokens + Flow(b.rate, b.last, ts[0]);
      hide After, Granted, Flow;
      FlowAdds(b.rate, b.last, ts[0], Run(After(b, ts[0]), ts[1..]).last);
    }
  }

  function Repeated(now: real, n: nat): seq<real> { seq(n, i => now) }

  /** A burst: of n calls at one instant exactly as many are granted as the bucket holds whole tokens. */
  lemma {:induction false} BurstIsGranted(b: Bucket, now: real, n: nat)
    requires b.Valid() && b.last == now
    ensures Grants(b, Repeated(now, n)) == if n as real <= b.tokens then n else b.tokens.Floor
    decreases n
  {
    if n > 0 {
      var ts := Repeated(now, n);
      assert ts[1..] == Repeated(now, n - 1);
      assert Flow(b.rate, now, now) == 0.0;
      BurstIsGranted(After(b, now), now, n - 1);
    }
  }

  /** Upper bound: however a run starts, any block of calls ts after it is granted at most
      max + rate * (last call - first call of the block). */
  lemma GrantsBounded(b: Bucket, before: seq<real>, ts: seq<real>)
    requires b.Valid() && ts != [] && Nondecreasing(b.last, before + ts)
    ensures Grants(Run(b, before), ts) as real <= b.max + Flow(b.rate, ts[0], ts[|ts| - 1])
  {
    hide Flow;
    NondecreasingSplit(b.last, before, ts);
    RunKeepsValid(b, before);
    var s := Run(b, before);
    NondecreasingFrom(s.last, ts);
    AllowKeepsValid(s, ts[0]);
    var s1 := After(s, ts[0]);
    RunKeepsValid(s1, ts[1..]);
    TokensConserved(s1, ts[1..]);
    assert s1.tokens + (if Granted(s, ts[0]) then 1.0 else 0.0) <= b.max;
    assert Run(s1, ts[1..]).last == ts[|ts| - 1] by {
      if |ts| > 1 {
        assert ts[1..][|ts| - 2] == ts[|ts| - 1];
      }
    }
  }

  lemma {:induction false} NondecreasingSplit(last: real, xs: seq<real>, ys: seq<real>)
    requires Nondecreasing(last, xs + ys)
    ensures Nondecreasing(last, xs)
    ensures Nondecreasing(if xs == [] then last else xs[|xs| - 1], ys)
    decreases xs
  {
    if xs == [] {
      assert [] + ys == ys;
    } else {
      assert (xs + ys)[0] == xs[0] && (xs + ys)[1..] == xs[1..] + ys;
      NondecreasingSplit(xs[0], xs[1..], ys);
      assert |xs| > 1 ==> xs[1..][|xs| - 2] == xs[|xs| - 1];
    }
  }

  lemma NondecreasingFrom(last: real, ts: seq<real>)
    requires Nondecreasing(last, ts)
    ensures ts != [] ==> last <= ts[0]
  {
  }

  /** While calls are denied the bucket only fills: nothing is clipped or rounded away. */
  lemma {:induction false} DenialsAccumulate(b: Bucket, ts: seq<real>)
    requires b.Valid() && 1.0 <= b.max && b.tokens < 1.0 && Nondecreasing(b.last, ts)
    requires Grants(b, ts) == 0
    ensures var e := Run(b, ts);
            e == b.(tokens := b.tokens + Flow(b.rate, b.last, e.last), last := e.last) && e.tokens < 1.0
    decreases ts
  {
    if ts == [] {
      assert Flow(b.rate, b.last, b.last) == 0.0;
    } else {
      var b1 := After(b, ts[0]);
      assert !Granted(b, ts[0]);
      AllowKeepsValid(b, ts[0]);
      hide Flow;
      DenialsAccumulate(b1, ts[1..]);
      FlowAdds(b.rate, b.last, ts[0], Run(b1, ts[1..]).last);
    }
  }

  /** However finely denied calls are spaced, the next call fares exactly as if they had not
      been made. */
  lemma DenialsLoseNothing(b: Bucket, ts: seq<real>, now: real)
    requires b.Valid() && 1.0 <= b.max && b.tokens < 1.0 && Nondecreasing(b.last, ts)
    requires Grants(b, ts) == 0
    ensures After(Run(b, ts), now) == After(b, now)
    ensures Granted(Run(b, ts), now) == Granted(b, now)
  {
    hide Flow;
    DenialsAccumulate(b, ts);
    FlowAdds(b.rate, b.last, Run(b, ts).last, now);
  }

  /** Lower bound: a block of consecutive denials spans strictly less than the time one token
      takes to flow in, provided the bucket can hold a token at all. */
  lemma DenialsAreShort(b: Bucket, before: seq<real>, ts: seq<real>)
    requires b.Valid() && 1.0 <= b.max && ts != [] && Nondecreasing(b.last, before + ts)
    requires Grants(Run(b, before), ts) == 0
    ensures Flow(b.rate, ts[0], ts[|ts| - 1]) < 1.0
  {
    hide Flow;
    NondecreasingSplit(b.last, before, ts);
    RunKeepsValid(b, before);
    var s := Run(b, before);
    NondecreasingFrom(s.last, ts);
    var s1 := After(s, ts[0]);
    assert !Granted(s, ts[0]);
    AllowKeepsValid(s, ts[0]);
    hide After, Refill, Granted;
    DenialsAccumulate(s1, ts[1..]);
    RunKeepsValid(s1, ts[1..]);
    assert |ts| > 1 ==> ts[1..][|ts| - 2] == ts[|ts| - 1];
  }

  /** A bucket that cannot hold one token never grants, so the lower bound needs max >= 1: a
      limiter made with a burst of zero denies over any span. */
  lemma {:induction false} SmallBucketNeverGrants(b: Bucket, ts: seq<real>)
    requires b.Valid() && b.max < 1.0 && Nondecreasing(b.last, ts)
    ensures Grants(b, ts) == 0
    decreases ts
  {
    if ts != [] {
      AllowKeepsValid(b, ts[0]);
      SmallBucketNeverGrants(After(b, ts[0]), ts[1..]);
    }
  }

  /** In time units: with a positive rate, consecutive denials span less than 1/rate. */
  lemma DenialSpan(b: Bucket, before: seq<real>, ts: seq<real>)
    requires b.Valid() && 1.0 <= b.max && 0.0 < b.rate && ts != [] && Nondecreasing(b.last, before + ts)
    requires Grants(Run(b, before), ts) == 0
    ensures ts[|ts| - 1] - ts[0] < 1.0 / b.rate
  {
    hide Flow, Refill, After, Run, Grants;
    DenialsAreShort(b, before, ts);
    FlowBelowOne(b.rate, ts[0], ts[|ts| - 1]);
  }

  lemma FlowBelowOne(rate: real, from: real, to: real)
    requires 0.0 < rate && Flow(rate, from, to) < 1.0
    ensures to - from < 1.0 / rate
  {
  }
}
