/** The request limiter of the bridge's REST interface: a token bucket, with
    reals for seconds and tokens. */
module TokenBucket {
  /** What a bucket remembers between calls. */
  datatype Level = Level(tokens: real, last: real)

  /** How long ago, never less than nothing. */
  function Elapsed(last: real, now: real): real { if last <= now then now - last else 0.0 }

  /** The tokens that `d` seconds are worth. */
  function Earned(rate: real, d: real): real { rate * d }

  lemma EarnedAdds(rate: real, a: real, b: real)
    ensures Earned(rate, a) + Earned(rate, b) == Earned(rate, a + b)
  {
  }

  lemma EarnedGrows(rate: real, a: real, b: real)
    requires rate >= 0.0 && a <= b
    ensures Earned(rate, a) <= Earned(rate, b)
  {
    assert rate * (b - a) >= 0.0;
  }

  lemma EarnedNothing(rate: real)
    ensures Earned(rate, 0.0) == 0.0
  {
  }

  /** The tokens at `now`, before the call takes one. */
  function Refilled(b: Level, rate: real, now: real): real {
    var filled := b.tokens + Earned(rate, Elapsed(b.last, now));
    if filled < 2.0 * rate then filled else 2.0 * rate
  }

  function Called(b: Level, rate: real, now: real): (Level, bool) {
    var filled := Refilled(b, rate, now);
    if filled >= 1.0 then (Level(filled - 1.0, now), true) else (Level(filled, now), false)
  }

  /** The bucket after calls at the given times. */
  function After(b: Level, rate: real, times: seq<real>): Level {
    if times == [] then b else Called(After(b, rate, times[..|times| - 1]), rate, times[|times| - 1]).0
  }

  /** How many of those calls were let through. */
  function Grants(b: Level, rate: real, times: seq<real>): nat {
    if times == [] then 0
    else
      Grants(b, rate, times[..|times| - 1]) +
      if Called(After(b, rate, times[..|times| - 1]), rate, times[|times| - 1]).1 then 1 else 0
  }

  predicate InOrder(last: real, times: seq<real>) {
    && (forall i :: 0 <= i < |times| ==> last <= times[i])
    && forall i, j :: 0 <= i <= j < |times| ==> times[i] <= times[j]
  }

  predicate LevelOk(b: Level, rate: real) { 0.0 <= b.tokens <= 2.0 * rate }

  lemma CalledIsOk(b: Level, rate: real, now: real)
    requires LevelOk(b, rate) && rate >= 1.0
    ensures LevelOk(Called(b, rate, now).0, rate)
    ensures Called(b, rate, now).0.last == now
  {
    EarnedNothing(rate);
    EarnedGrows(rate, 0.0, Elapsed(b.last, now));
    hide Earned;
  }

  /** Tokens stay within the burst, whatever the clock says. */
  lemma {:induction false} RunStaysOk(b: Level, rate: real, times: seq<real>)
    requires LevelOk(b, rate) && rate >= 1.0
    ensures LevelOk(After(b, rate, times), rate)
    ensures After(b, rate, times).last == if times == [] then b.last else times[|times| - 1]
  {
    hide Called;
    if times != [] {
      RunStaysOk(b, rate, times[..|times| - 1]);
      CalledIsOk(After(b, rate, times[..|times| - 1]), rate, times[|times| - 1]);
    }
  }

  /** A call lets through no more than it takes out. */
  lemma CallPays(b: Level, rate: real, now: real)
    requires b.last <= now && rate >= 0.0
    ensures Called(b, rate, now).0.tokens + (if Called(b, rate, now).1 then 1.0 else 0.0) <=
              b.tokens + Earned(rate, now - b.last)
    ensures Called(b, rate, now).0.tokens + (if Called(b, rate, now).1 then 1.0 else 0.0) <= 2.0 * rate
  {
    hide Earned;
  }

  /** Every grant of a run is paid for: by the tokens at its first call, or by time since. */
  lemma {:induction false} GrantsArePaid(b: Level, rate: real, times: seq<real>)
    requires rate >= 1.0 && LevelOk(b, rate) && times != [] && InOrder(b.last, times)
    ensures After(b, rate, times).tokens + Grants(b, rate, times) as real <=
              2.0 * rate + Earned(rate, times[|times| - 1] - times[0])
  {
    hide Earned, Called, LevelOk;
    var n := |times| - 1;
    var init := times[..n];
    if n == 0 {
      assert init == [] && times[0] - times[0] == 0.0;
      CallPays(b, rate, times[0]);
      EarnedNothing(rate);
    } else {
      GrantsArePaid(b, rate, init);
      RunStaysOk(b, rate, init);
      CallPays(After(b, rate, init), rate, times[n]);
      EarnedAdds(rate, times[n - 1] - times[0], times[n] - times[n - 1]);
    }
  }

  lemma {:induction false} AfterConcat(b: Level, rate: real, s: seq<real>, t: seq<real>)
    ensures After(b, rate, s + t) == After(After(b, rate, s), rate, t)
    ensures Grants(b, rate, s + t) == Grants(b, rate, s) + Grants(After(b, rate, s), rate, t)
  {
    if t == [] {
      assert s + t == s;
    } else {
      assert (s + t)[..|s + t| - 1] == s + t[..|t| - 1];
      AfterConcat(b, rate, s, t[..|t| - 1]);
    }
  }

  /** Calls `i` to `j - 1` of a run let through as many as `Grants` says. */
  function Window(b: Level, rate: real, times: seq<real>, i: nat, j: nat): nat
    requires i <= j <= |times|
  {
    Grants(After(b, rate, times[..i]), rate, times[i..j])
  }

  lemma NoDebt(b: Level, rate: real)
    requires LevelOk(b, rate)
    ensures b.tokens >= 0.0
  {
  }

  lemma RunIsBounded(b: Level, rate: real, times: seq<real>, d: real)
    requires rate >= 1.0 && LevelOk(b, rate) && times != [] && InOrder(b.last, times)
    requires times[|times| - 1] - times[0] <= d
    ensures Grants(b, rate, times) as real <= 2.0 * rate + Earned(rate, d)
  {
    hide *;
    GrantsArePaid(b, rate, times);
    RunStaysOk(b, rate, times);
    NoDebt(After(b, rate, times), rate);
    EarnedGrows(rate, times[|times| - 1] - times[0], d);
  }

  /** In every window of a run, however the calls fall, at most the burst plus
      what the rate allows for the length of the window gets through; and
      windows that adjoin add up. */
  lemma WindowIsBounded(b: Level, rate: real, times: seq<real>, i: nat, j: nat, d: real)
    requires rate >= 1.0 && LevelOk(b, rate) && InOrder(b.last, times)
    requires i < j <= |times| && times[j - 1] - times[i] <= d
    ensures Window(b, rate, times, i, j) as real <= 2.0 * rate + Earned(rate, d)
    ensures Grants(b, rate, times[..j]) == Grants(b, rate, times[..i]) + Window(b, rate, times, i, j)
  {
    var part, at := times[i..j], After(b, rate, times[..i]);
    hide Earned, Called, InOrder, Grants, After, LevelOk;
    RunStaysOk(b, rate, times[..i]);
    LaterInOrder(b.last, times, i, j);
    RunIsBounded(at, rate, part, d);
    assert times[..j] == times[..i] + part;
    AfterConcat(b, rate, times[..i], part);
  }

  lemma LaterInOrder(last: real, times: seq<real>, i: nat, j: nat)
    requires InOrder(last, times) && i < j <= |times|
    ensures InOrder(if i == 0 then last else times[i - 1], times[i..j])
  {
  }

  /** A call that keeps its distance, one `rate`th of a second, is never refused. */
  lemma SpacedCallIsServed(b: Level, rate: real, now: real)
    requires rate >= 1.0 && LevelOk(b, rate) && now - b.last >= 1.0 / rate
    ensures Called(b, rate, now).1
  {
    SpacedPays(now - b.last, rate);
    assert 1.0 / rate > 0.0;
    hide Earned;
  }

  lemma SpacedPays(gap: real, rate: real)
    requires rate >= 1.0 && gap >= 1.0 / rate
    ensures Earned(rate, gap) >= 1.0
  {
    assert Earned(rate, 1.0 / rate) == 1.0;
    EarnedGrows(rate, 1.0 / rate, gap);
  }

  /** `n` calls at one moment. */
  function AtOnce(now: real, n: nat): seq<real> { seq(n, _ => now) }

  /** The bound is reached: a full bucket serves its whole burst at once, and
      not one call more. */
  lemma {:induction false} BurstIsServed(rate: nat, now: real, n: nat)
    requires rate >= 1
    ensures
      var full := Level(2.0 * rate as real, now);
      && Grants(full, rate as real, AtOnce(now, n)) == (if n <= 2 * rate then n else 2 * rate)
      && After(full, rate as real, AtOnce(now, n)).tokens == (if n <= 2 * rate then (2 * rate - n) as real else 0.0)
      && After(full, rate as real, AtOnce(now, n)).last == now
  {
    if n > 0 {
      assert AtOnce(now, n)[..n - 1] == AtOnce(now, n - 1);
      BurstIsServed(rate, now, n - 1);
      EarnedNothing(rate as real);
      hide Earned;
    }
  }

  class Bucket {
    var tokens: real
    const perSecond: real
    const burst: real
    var last: real

    ghost predicate Valid()
      reads this
    {
      perSecond >= 1.0 && burst == 2.0 * perSecond && LevelOk(Now(), perSecond)
    }

    ghost function Now(): Level
      reads this
    {
      Level(tokens, last)
    }

    constructor (perSecond: nat, now: real)
      requires perSecond > 0
      ensures Valid() && this.perSecond == perSecond as real && Now() == Level(2.0 * perSecond as real, now)
    {
      this.tokens, this.burst := perSecond as real * 2.0, perSecond as real * 2.0;
      this.perSecond, this.last := perSecond as real, now;
    }

    /** Refill for the time since the last call, then take a token if there is one. */
    method Take(now: real) returns (granted: bool)
      requires Valid()
      modifies this
      ensures Valid() && (Now(), granted) == Called(old(Now()), perSecond, now)
      ensures old(last) + 1.0 / perSecond <= now ==> granted
    {
      CalledIsOk(Now(), perSecond, now);
      if last + 1.0 / perSecond <= now { SpacedCallIsServed(Now(), perSecond, now); }
      var elapsed := if last <= now then now - last else 0.0;
      last := now;
      tokens := tokens + Earned(perSecond, elapsed);
      if tokens > burst { tokens := burst; }
      granted := tokens >= 1.0;
      if granted { tokens := tokens - 1.0; }
    }
  }

  /** A run of calls on one bucket: as many grants as the run says, and
      never more than the burst and the rate together allow. */
  method Serve(b: Bucket, times: seq<real>) returns (granted: nat)
    requires b.Valid() && InOrder(b.last, times)
    modifies b
    ensures b.Valid() && b.Now() == After(old(b.Now()), b.perSecond, times)
    ensures granted == Grants(old(b.Now()), b.perSecond, times)
    ensures times != [] ==> granted as real <= 2.0 * b.perSecond + Earned(b.perSecond, times[|times| - 1] - times[0])
  {
    granted := 0;
    ghost var start := b.Now();
    hide Earned, Called, LevelOk, InOrder;
    for i := 0 to |times|
      invariant b.Valid() && b.Now() == After(start, b.perSecond, times[..i])
      invariant granted == Grants(start, b.perSecond, times[..i])
    {
      assert times[..i + 1][..i] == times[..i];
      var ok := b.Take(times[i]);
      if ok { granted := granted + 1; }
    }
    assert times[..|times|] == times;
    if times != [] {
      RunStaysOk(start, b.perSecond, times);
      NoDebt(After(start, b.perSecond, times), b.perSecond);
      GrantsArePaid(start, b.perSecond, times);
    }
  }
}
