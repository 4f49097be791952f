/** The token bucket and the two-bucket throttle: what they allow in every time window. */
module Bucket {
  import opened Reals
  import Watchdog

  datatype State = State(rate: real, capacity: real, tokens: real, updated: real) {
    predicate Valid() { rate > 0.0 && 0.0 <= tokens <= capacity }
  }

  /** Tokens on hand at an instant, without consuming any. */
  function Available(s: State, now: real): real {
    var elapsed := if now > s.updated then now - s.updated else 0.0;
    var grown := s.tokens + Mul(elapsed, s.rate);
    if grown < s.capacity then grown else s.capacity
  }

  function Refilled(s: State, now: real): State {
    s.(tokens := Available(s, now), updated := now)
  }

  function Taken(s: State, now: real, n: real): State {
    s.(tokens := Available(s, now) - n, updated := now)
  }

  class TokenBucket {
    const rate: real
    const capacity: real
    const clock: Watchdog.ManualClock
    var tokens: real
    var updated: real
    var waits: nat

    ghost predicate Valid()
      reads this
    {
      Abs().Valid()
    }

    ghost function Abs(): State
      reads this
    {
      State(rate, capacity, tokens, updated)
    }

    /** Full on the first day: one second of allowance unless told otherwise. */
    constructor (rate: real, capacity: real, clock: Watchdog.ManualClock)
      requires rate > 0.0 && capacity >= 0.0
      ensures Valid() && this.clock == clock && waits == 0
      ensures Abs() == State(rate, capacity, capacity, clock.mono)
    {
      this.rate, this.capacity, this.clock := rate, capacity, clock;
      tokens, updated, waits := capacity, clock.mono, 0;
    }

    method Refill()
      requires Valid()
      modifies this`tokens, this`updated
      ensures Valid() && Abs() == Refilled(old(Abs()), clock.mono)
    {
      AvailableBounds(Abs(), clock.mono);
      var now := clock.mono;
      var elapsed := if now > updated then now - updated else 0.0;
      var grown := tokens + Mul(elapsed, rate);
      tokens := if grown < capacity then grown else capacity;
      updated := now;
    }

    method TryAcquire(n: real) returns (ok: bool)
      requires Valid() && n >= 0.0
      modifies this`tokens, this`updated
      ensures Valid() && ok == (Available(old(Abs()), clock.mono) >= n)
      ensures Abs() == if ok then Taken(old(Abs()), clock.mono, n) else Refilled(old(Abs()), clock.mono)
    {
      Refill();
      if tokens < n {
        return false;
      }
      tokens := tokens - n;
      ok := true;
    }

    method DelayFor(n: real) returns (delay: real)
      requires Valid()
      modifies this`tokens, this`updated
      ensures Valid() && Abs() == Refilled(old(Abs()), clock.mono)
      ensures delay == if n <= tokens then 0.0 else (n - tokens) / rate
    {
      Refill();
      var deficit := n - tokens;
      delay := if deficit <= 0.0 then 0.0 else deficit / rate;
    }

    /** Undisturbed, a request for no more than the capacity ends after at most one exact sleep. */
    method Acquire(n: real) returns (waited: real)
      requires Valid() && 0.0 <= n <= capacity && updated <= clock.mono
      modifies this, clock
      ensures Valid() && clock.mono == old(clock.mono) + waited
      ensures waited == WaitFor(old(Abs()), old(clock.mono), n) >= 0.0
      ensures waits == old(waits) + if waited > 0.0 then 1 else 0
      ensures Abs() == Taken(old(Abs()), clock.mono, n)
    {
      hide Mul;
      waited := 0.0;
      ghost var start := Abs();
      AvailableBounds(start, clock.mono);
      while true
        invariant Valid() && clock.mono == old(clock.mono) + waited && updated <= clock.mono
        invariant Abs() == if waited == 0.0 then start else Refilled(start, old(clock.mono))
        invariant waited == 0.0 ==> waits == old(waits)
        invariant waited != 0.0 ==>
          waited == WaitFor(start, old(clock.mono), n) > 0.0 && waits == old(waits) + 1 && Available(start, clock.mono) == n
        decreases waited == 0.0
      {
        RefillIsInvisible(start, old(clock.mono), clock.mono);
        var delay := DelayFor(n);
        if delay <= 0.0 {
          EnoughWhenNoDelay(Abs(), n);
          tokens := tokens - n;
          return;
        }
        waits := waits + 1;
        waited := waited + delay;
        SleepFills(Abs(), n);
        RefillIsInvisible(start, clock.mono, clock.mono + delay);
        clock.Advance(delay);
      }
    }
  }

  /** Seconds until `n` tokens are there. */
  function WaitFor(s: State, now: real, n: real): real
    requires s.rate > 0.0
  {
    if n <= Available(s, now) then 0.0 else (n - Available(s, now)) / s.rate
  }

  /** One token from the endpoint's bucket, then one from the global bucket; the request leaves when the
      second is granted. */
  method Throttle(endpoint: TokenBucket, global: TokenBucket) returns (waited: real, taken: real)
    requires endpoint.Valid() && global.Valid() && endpoint != global && endpoint.clock == global.clock
    requires endpoint.capacity >= 1.0 && global.capacity >= 1.0
    requires endpoint.updated <= endpoint.clock.mono && global.updated <= global.clock.mono
    modifies endpoint, global, endpoint.clock
    ensures endpoint.Valid() && global.Valid() && endpoint.clock.mono == old(endpoint.clock.mono) + waited
    ensures taken == old(endpoint.clock.mono) + WaitFor(old(endpoint.Abs()), old(endpoint.clock.mono), 1.0)
    ensures
      && endpoint.Abs() == Taken(old(endpoint.Abs()), taken, 1.0)
      && endpoint.clock.mono == taken + WaitFor(old(global.Abs()), taken, 1.0)
      && global.Abs() == Taken(old(global.Abs()), endpoint.clock.mono, 1.0)
  {
    hide Mul, WaitFor, Taken;
    var first := endpoint.Acquire(1.0);
    taken := endpoint.clock.mono;
    var second := global.Acquire(1.0);
    waited := first + second;
  }

  lemma EnoughWhenNoDelay(s: State, n: real)
    requires s.Valid()
    ensures n > s.tokens ==> (n - s.tokens) / s.rate > 0.0
  {
  }

  lemma AvailableBounds(s: State, now: real)
    requires s.Valid()
    ensures s.tokens <= Available(s, now) <= s.capacity
  {
    hide Mul;
    if now > s.updated {
      MulSign(now - s.updated, s.rate);
    } else {
      MulUnits(s.rate);
    }
  }

  /** An exact sleep of the announced delay leaves exactly the tokens asked for. */
  lemma SleepFills(s: State, n: real)
    requires s.Valid() && s.tokens < n <= s.capacity
    ensures Available(s, s.updated + (n - s.tokens) / s.rate) == n
  {
    hide Mul;
    MulDiv(n - s.tokens, s.rate);
    EnoughWhenNoDelay(s, n);
  }

  /** Refilling early changes nothing that can be seen later. */
  lemma RefillIsInvisible(s: State, now: real, later: real)
    requires s.Valid() && s.updated <= now <= later
    ensures Refilled(s, now).Valid() && Available(Refilled(s, now), later) == Available(s, later)
  {
    hide Mul;
    AvailableBounds(s, now);
    AvailableBounds(Refilled(s, now), later);
    MulAdds(now - s.updated, later - now, s.rate);
    MulUnits(s.rate);
    MulSign(now - s.updated, s.rate);
    MulSign(later - now, s.rate);
  }

  /** A request for more than the capacity can never be granted, however long it waits. */
  lemma AcquireEndsIff(s: State, n: real)
    requires s.Valid()
    ensures (exists later :: later >= s.updated && Available(s, later) >= n) <==> n <= s.capacity
  {
    if n <= s.capacity {
      if n <= s.tokens {
        AvailableBounds(s, s.updated);
        assert Available(s, s.updated) >= n;
      } else {
        SleepFills(s, n);
        EnoughWhenNoDelay(s, n);
      }
    } else {
      forall later ensures Available(s, later) < n {
        AvailableBounds(s, later);
      }
    }
  }

  // ---------- what a window allows ----------

  /** One use of a bucket: look at it, or take `n` tokens that are there. */
  datatype Use = Peek(now: real) | Grant(now: real, n: real)

  ghost predicate Allowed(s: State, u: Use) {
    && s.updated <= u.now
    && (u.Grant? ==> 0.0 <= u.n <= Available(s, u.now))
  }

  function Apply(s: State, u: Use): State {
    match u
    case Peek(now) => Refilled(s, now)
    case Grant(now, n) => Taken(s, now, n)
  }

  /** A history: uses in time order, each allowed where it happens. */
  ghost predicate History(s: State, us: seq<Use>)
    decreases |us|
  {
    us == [] || (Allowed(s, us[0]) && History(Apply(s, us[0]), us[1..]))
  }

  function Granted(us: seq<Use>): real {
    if us == [] then 0.0 else (if us[0].Grant? then us[0].n else 0.0) + Granted(us[1..])
  }

  function After(s: State, us: seq<Use>): State
    decreases |us|
  {
    if us == [] then s else After(Apply(s, us[0]), us[1..])
  }

  lemma ApplyKeepsValid(s: State, u: Use)
    requires s.Valid() && Allowed(s, u)
    ensures Apply(s, u).Valid() && Apply(s, u).rate == s.rate && Apply(s, u).capacity == s.capacity
  {
    AvailableBounds(s, u.now);
  }

  /** What was granted and what is left is at most what was there and what has flowed in. */
  lemma {:induction false} TokensConserved(s: State, us: seq<Use>)
    requires s.Valid() && History(s, us)
    ensures After(s, us).Valid() && After(s, us).updated >= s.updated
    ensures Granted(us) + After(s, us).tokens <= s.tokens + Mul(After(s, us).updated - s.updated, s.rate)
    ensures After(s, us).capacity == s.capacity
    decreases |us|
  {
    hide Mul;
    MulUnits(s.rate);
    if us != [] {
      var t := Apply(s, us[0]);
      ApplyKeepsValid(s, us[0]);
      TokensConserved(t, us[1..]);
      MulAdds(After(s, us).updated - t.updated, t.updated - s.updated, s.rate);
      MulUnits(s.rate);
    }
  }

  lemma NoneBefore(s: State)
    ensures After(s, []) == s && History(s, [])
  {
  }

  lemma {:induction false} HistorySplits(s: State, us: seq<Use>, i: nat)
    requires s.Valid() && History(s, us) && i <= |us|
    ensures After(s, us[..i]).Valid() && History(After(s, us[..i]), us[i..]) && History(s, us[..i])
    ensures After(s, us[..i]).rate == s.rate && After(s, us[..i]).capacity == s.capacity
    ensures After(s, us) == After(After(s, us[..i]), us[i..])
    decreases i
  {
    hide Apply, Allowed;
    if i == 0 {
      NoneBefore(s);
      assert us[0..] == us;
    } else {
      ApplyKeepsValid(s, us[0]);
      HistorySplits(Apply(s, us[0]), us[1..], i - 1);
      assert us[1..][..i - 1] == us[..i][1..] && us[1..][i - 1..] == us[i..] && us[..i][0] == us[0];
    }
  }

  lemma AfterUpdated(s: State, us: seq<Use>)
    requires us != []
    ensures After(s, us).updated == us[|us| - 1].now
    decreases |us|
  {
    if |us| > 1 {
      AfterUpdated(Apply(s, us[0]), us[1..]);
    }
  }

  /** In every window the bucket grants at most its capacity plus what flows in during the window. */
  lemma WindowBound(s: State, us: seq<Use>, i: nat, j: nat)
    requires s.Valid() && History(s, us) && i < j <= |us|
    ensures us[i].now <= us[j - 1].now
    ensures Granted(us[i..j]) <= s.capacity + Mul(us[j - 1].now - us[i].now, s.rate)
    ensures 0.0 <= After(s, us[..j]).tokens <= s.capacity
  {
    hide Mul;
    HistorySplits(s, us, j);
    HistorySplits(s, us[..j], i);
    assert us[..j][..i] == us[..i] && us[..j][i..] == us[i..j];
    var t, window := After(s, us[..i]), us[i..j];
    var first := window[0];
    // Bring the bucket up to the first instant of the window, then conserve from there.
    ApplyKeepsValid(t, first);
    TokensConserved(Apply(t, first), window[1..]);
    AvailableBounds(t, first.now);
    AfterUpdated(s, us[..j]);
    AfterUpdated(t, window);
    assert After(t, window) == After(Apply(t, first), window[1..]);
  }

  // ---------- two buckets in a row ----------

  /** Unit grants at these times fit the bound in every window. */
  ghost predicate Obeys(times: seq<real>, capacity: real, rate: real) {
    forall i, j :: 0 <= i <= j < |times| ==> (j - i + 1) as real <= capacity + Mul(times[j] - times[i], rate)
  }

  /** One bucket is another, looked at later. */
  ghost predicate Fresher(s: State, t: State) {
    t.Valid() && t.updated <= s.updated && s == Refilled(t, s.updated)
  }

  function GrantsOnly(us: seq<Use>): seq<Use> {
    if us == [] then [] else (if us[0].Grant? then [us[0]] else []) + GrantsOnly(us[1..])
  }

  /** Looking at a bucket never changes what it will grant: a history with its peeks left out is still
      a history. */
  lemma {:induction false} PeeksDoNotMatter(s: State, t: State, us: seq<Use>)
    requires Fresher(s, t) && History(s, us)
    ensures History(t, GrantsOnly(us)) && Granted(GrantsOnly(us)) == Granted(us)
    decreases |us|
  {
    hide Mul;
    if us != [] {
      var u, rest := us[0], GrantsOnly(us[1..]);
      RefillIsInvisible(t, s.updated, u.now);
      ApplyKeepsValid(t, u);
      match u
      case Peek(now) =>
        RefillIsInvisible(t, now, now);
        PeeksDoNotMatter(Refilled(s, now), t, us[1..]);
        assert GrantsOnly(us) == rest;
      case Grant(now, n) =>
        AvailableNow(Taken(t, now, n));
        PeeksDoNotMatter(Taken(s, now, n), Taken(t, now, n), us[1..]);
        assert GrantsOnly(us)[1..] == rest;
    }
  }

  lemma AvailableNow(s: State)
    requires s.Valid()
    ensures Refilled(s, s.updated) == s
  {
    hide Mul;
    MulUnits(s.rate);
  }

  function UnitGrants(times: seq<real>): seq<Use> {
    seq(|times|, i requires 0 <= i < |times| => Grant(times[i], 1.0))
  }

  lemma {:induction false} UnitsAddUp(us: seq<Use>)
    requires forall i :: 0 <= i < |us| ==> us[i].Grant? && us[i].n == 1.0
    ensures Granted(us) == |us| as real
  {
    if us != [] {
      UnitsAddUp(us[1..]);
    }
  }

  lemma UnitGrantsObey(s: State, times: seq<real>)
    requires s.Valid() && History(s, UnitGrants(times))
    ensures Obeys(times, s.capacity, s.rate)
  {
    hide Mul;
    forall i, j | 0 <= i <= j < |times|
      ensures (j - i + 1) as real <= s.capacity + Mul(times[j] - times[i], s.rate)
    {
      WindowBound(s, UnitGrants(times), i, j + 1);
      UnitsAddUp(UnitGrants(times)[i..j + 1]);
    }
  }

  lemma ObeysAt(times: seq<real>, capacity: real, rate: real, i: nat, j: nat)
    requires Obeys(times, capacity, rate) && i <= j < |times|
    ensures j as real - i as real + 1.0 <= capacity + Mul(times[j] - times[i], rate)
  {
    hide Mul;
    assert (j - i + 1) as real <= capacity + Mul(times[j] - times[i], rate);
  }
}
