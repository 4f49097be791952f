/** `_throttle` with calls that overlap: any number of requests may hold their endpoint's token and wait
    for a global one at the same time. */
module Overlapping {
  import opened Reals
  import opened Bucket
  import opened Throttling

  /** `waiting` are the endpoints of the requests that wait for a global token, longest first; `gone`
      counts the requests that have left. */
  datatype Crowd = Crowd(world: World, waiting: seq<string>, gone: multiset<string>)

  datatype Step =
    | Pause(seconds: real)
    | Take(ep: string)        // some call gets its endpoint's token
    | Leave(k: nat)           // one of those waiting gets a global token and leaves
    | Abandon(k: nat)         // one of those waiting is cancelled

  ghost predicate Enabled(limits: string -> real, c: Crowd, step: Step) {
    match step
    case Pause(seconds) => seconds >= 0.0
    case Take(ep) => OnHand(limits, c.world, ep) >= 1.0
    case Leave(k) => k < |c.waiting| && Available(c.world.global, c.world.now) >= 1.0
    case Abandon(k) => k < |c.waiting|
  }

  /** The tokens an endpoint's bucket holds; one that is yet to be made is full. */
  function OnHand(limits: string -> real, w: World, ep: string): real {
    Available(BucketOf(limits, w, ep, w.now), w.now)
  }

  function Without(waiting: seq<string>, k: nat): seq<string>
    requires k < |waiting|
  {
    waiting[..k] + waiting[k + 1..]
  }

  function Do(limits: string -> real, c: Crowd, step: Step): Crowd
    requires Enabled(limits, c, step)
  {
    var w := c.world;
    match step
    case Pause(seconds) => c.(world := w.(now := w.now + seconds))
    case Take(ep) =>
      var taken := Taken(BucketOf(limits, w, ep, w.now), w.now, 1.0);
      c.(world := w.(buckets := w.buckets[ep := taken]), waiting := c.waiting + [ep])
    case Leave(k) =>
      Crowd(w.(global := Taken(w.global, w.now, 1.0)), Without(c.waiting, k), c.gone + multiset{c.waiting[k]})
    case Abandon(k) => c.(waiting := Without(c.waiting, k))
  }

  /** Any overlap of calls: steps in any order, each possible where it happens. */
  ghost predicate Reaches(limits: string -> real, c: Crowd, steps: seq<Step>, t: Crowd)
    decreases |steps|
  {
    if steps == [] then c == t
    else Enabled(limits, c, steps[0]) && Reaches(limits, Do(limits, c, steps[0]), steps[1..], t)
  }

  // ---------- what a step conserves ----------

  lemma StepIsReady(limits: string -> real, c: Crowd, step: Step)
    requires Sane(limits) && WellFormed(c.world) && Enabled(limits, c, step)
    ensures WellFormed(Do(limits, c, step).world) && Do(limits, c, step).world.now >= c.world.now
  {
    var w := c.world;
    match step
    case Pause(_) =>
    case Take(ep) =>
      BucketIsReady(limits, w, ep, w.now);
      TakenIsReady(BucketOf(limits, w, ep, w.now), w.now);
      hide Available, Taken;
    case Leave(_) =>
      TakenIsReady(w.global, w.now);
      hide Available, Taken;
    case Abandon(_) =>
  }

  lemma GrowsAtMost(s: State, now: real, step: real)
    requires Ready(s, now) && step >= 0.0
    ensures Available(s, now + step) <= Available(s, now) + Mul(step, s.rate)
  {
    hide Mul, Available;
    MulUnits(s.rate);
    if step > 0.0 {
      Grows(s, now, step);
    }
  }

  lemma WithoutCounts(waiting: seq<string>, k: nat, ep: string)
    requires k < |waiting|
    ensures multiset(Without(waiting, k)) == multiset(waiting) - multiset{waiting[k]} && waiting[k] in multiset(waiting)
  {
    assert waiting == waiting[..k] + [waiting[k]] + waiting[k + 1..];
  }

  /** Requests gone and tokens left in the global bucket, against what flowed in. */
  lemma GlobalStep(limits: string -> real, c: Crowd, step: Step)
    requires Sane(limits) && WellFormed(c.world) && Enabled(limits, c, step)
    ensures var t, g := Do(limits, c, step), c.world.global;
      && t.world.global.rate == g.rate && t.world.global.capacity == g.capacity
      && |t.gone| as real + Available(t.world.global, t.world.now)
         <= |c.gone| as real + Available(g, c.world.now) + Mul(t.world.now - c.world.now, g.rate)
  {
    var w := c.world;
    MulUnits(w.global.rate);
    match step
    case Pause(seconds) =>
      GrowsAtMost(w.global, w.now, seconds);
      hide Available, Mul;
    case Take(_) => hide Available, Mul;
    case Leave(_) =>
      JustTaken(w.global, w.now);
      TakenKeeps(w.global, w.now);
      hide Available, Mul, Taken;
    case Abandon(_) => hide Available, Mul;
  }

  /** An endpoint's requests that have its token: gone or waiting. */
  function Held(c: Crowd, ep: string): nat { c.gone[ep] + multiset(c.waiting)[ep] }

  /** The same for one endpoint and its own bucket. */
  lemma OwnStep(limits: string -> real, c: Crowd, step: Step, ep: string)
    requires Sane(limits) && WellFormed(c.world) && Enabled(limits, c, step)
    ensures var t, rate := Do(limits, c, step), RateOf(limits, c.world, ep);
      && RateOf(limits, t.world, ep) == rate && BurstOf(limits, t.world, ep) == BurstOf(limits, c.world, ep)
      && Held(t, ep) as real + OnHand(limits, t.world, ep)
         <= Held(c, ep) as real + OnHand(limits, c.world, ep) + Mul(t.world.now - c.world.now, rate)
  {
    hide Mul, OnHand, RateOf, BurstOf, Held, Taken, Without, WellFormed, Sane;
    MulUnits(RateOf(limits, c.world, ep));
    match step
    case Pause(seconds) => OwnPause(limits, c, seconds, ep);
    case Take(other) => OwnTake(limits, c, other, ep);
    case Leave(k) => OwnGone(limits, c, k, Taken(c.world.global, c.world.now, 1.0), ep);
    case Abandon(k) => OwnGone(limits, c, k, c.world.global, ep);
  }

  lemma OwnGone(limits: string -> real, c: Crowd, k: nat, global: State, ep: string)
    requires k < |c.waiting|
    ensures var left := Crowd(c.world.(global := global), Without(c.waiting, k), c.gone + multiset{c.waiting[k]});
      SameOwn(limits, c, left, ep) && Held(left, ep) == Held(c, ep)
    ensures var kept := c.(waiting := Without(c.waiting, k)); SameOwn(limits, c, kept, ep) && Held(kept, ep) <= Held(c, ep)
  {
    WithoutCounts(c.waiting, k, ep);
    hide Available, Without;
  }

  /** Nothing happened to this endpoint's bucket. */
  ghost predicate SameOwn(limits: string -> real, c: Crowd, t: Crowd, ep: string) {
    && RateOf(limits, t.world, ep) == RateOf(limits, c.world, ep) && BurstOf(limits, t.world, ep) == BurstOf(limits, c.world, ep)
    && t.world.now == c.world.now && OnHand(limits, t.world, ep) == OnHand(limits, c.world, ep)
  }

  lemma OwnPause(limits: string -> real, c: Crowd, seconds: real, ep: string)
    requires Sane(limits) && WellFormed(c.world) && seconds >= 0.0
    ensures var t := Do(limits, c, Pause(seconds));
      && RateOf(limits, t.world, ep) == RateOf(limits, c.world, ep) && BurstOf(limits, t.world, ep) == BurstOf(limits, c.world, ep)
      && Held(t, ep) == Held(c, ep)
      && OnHand(limits, t.world, ep) <= OnHand(limits, c.world, ep) + Mul(seconds, RateOf(limits, c.world, ep))
  {
    hide Available, Mul;
    var w := c.world;
    BucketIsReady(limits, w, ep, w.now);
    GrowsAtMost(BucketOf(limits, w, ep, w.now), w.now, seconds);
    if ep !in w.buckets {
      FullIsFull(limits(ep), w.now);
      FullIsFull(limits(ep), w.now + seconds);
      MulOrder(0.0, seconds, limits(ep));
      MulUnits(limits(ep));
    }
  }

  lemma OwnTake(limits: string -> real, c: Crowd, other: string, ep: string)
    requires Sane(limits) && WellFormed(c.world) && Enabled(limits, c, Take(other))
    ensures var t := Do(limits, c, Take(other));
      && RateOf(limits, t.world, ep) == RateOf(limits, c.world, ep) && BurstOf(limits, t.world, ep) == BurstOf(limits, c.world, ep)
      && Held(t, ep) as real + OnHand(limits, t.world, ep) == Held(c, ep) as real + OnHand(limits, c.world, ep)
  {
    hide Available, Mul, Taken;
    var e := BucketOf(limits, c.world, other, c.world.now);
    BucketIsReady(limits, c.world, other, c.world.now);
    JustTaken(e, c.world.now);
    TakenKeeps(e, c.world.now);
  }

  lemma FullIsFull(rate: real, now: real)
    requires rate > 0.0
    ensures Available(Full(rate, now), now) == rate
  {
    MulUnits(rate);
    hide Mul;
  }

  // ---------- what every run obeys ----------

  /** Between any two moments of any run no more requests leave, of all endpoints together, than the
      global bucket held and what flowed into it: capacity plus rate times the time between. */
  lemma {:induction false} GlobalBoundOverlapping(limits: string -> real, c: Crowd, steps: seq<Step>, t: Crowd)
    requires Sane(limits) && WellFormed(c.world) && Reaches(limits, c, steps, t)
    ensures WellFormed(t.world) && t.world.now >= c.world.now && t.world.global.rate == c.world.global.rate
    ensures |t.gone| as real + Available(t.world.global, t.world.now)
         <= |c.gone| as real + Available(c.world.global, c.world.now) + Mul(t.world.now - c.world.now, c.world.global.rate)
    ensures |t.gone| as real - |c.gone| as real
         <= c.world.global.capacity + Mul(t.world.now - c.world.now, c.world.global.rate)
    decreases |steps|
  {
    hide Available, Mul, Do, Enabled, WellFormed, Sane;
    var rate := c.world.global.rate;
    MulUnits(rate);
    if steps != [] {
      var next := Do(limits, c, steps[0]);
      StepIsReady(limits, c, steps[0]);
      GlobalStep(limits, c, steps[0]);
      GlobalBoundOverlapping(limits, next, steps[1..], t);
      MulAdds(next.world.now - c.world.now, t.world.now - next.world.now, rate);
    }
    GlobalIsReady(c.world);
    GlobalIsReady(t.world);
    AvailableBounds(c.world.global, c.world.now);
    AvailableBounds(t.world.global, t.world.now);
  }

  lemma {:induction false} OwnFlow(limits: string -> real, c: Crowd, steps: seq<Step>, t: Crowd, ep: string)
    requires Sane(limits) && WellFormed(c.world) && Reaches(limits, c, steps, t)
    ensures WellFormed(t.world) && t.world.now >= c.world.now
    ensures Held(t, ep) as real + OnHand(limits, t.world, ep)
         <= Held(c, ep) as real + OnHand(limits, c.world, ep) + Mul(t.world.now - c.world.now, RateOf(limits, c.world, ep))
    decreases |steps|
  {
    hide Available, Mul, Do, Enabled, WellFormed, Sane, OnHand, Held, RateOf;
    var rate := RateOf(limits, c.world, ep);
    MulUnits(rate);
    if steps != [] {
      var next := Do(limits, c, steps[0]);
      StepIsReady(limits, c, steps[0]);
      OwnStep(limits, c, steps[0], ep);
      OwnFlow(limits, next, steps[1..], t, ep);
      MulAdds(next.world.now - c.world.now, t.world.now - next.world.now, rate);
    }
  }

  /** Between any two moments of any run an endpoint exceeds its own bound by no more than the number of
      its requests that were waiting for a global token at the first of them. */
  lemma EndpointBoundOverlapping(limits: string -> real, c: Crowd, steps: seq<Step>, t: Crowd, ep: string)
    requires Sane(limits) && WellFormed(c.world) && Reaches(limits, c, steps, t)
    ensures t.gone[ep] as real - c.gone[ep] as real
         <= BurstOf(limits, c.world, ep) + Mul(t.world.now - c.world.now, RateOf(limits, c.world, ep))
            + multiset(c.waiting)[ep] as real
  {
    OwnFlow(limits, c, steps, t, ep);
    BucketIsReady(limits, c.world, ep, c.world.now);
    BucketIsReady(limits, t.world, ep, t.world.now);
    AvailableBounds(BucketOf(limits, c.world, ep, c.world.now), c.world.now);
    AvailableBounds(BucketOf(limits, t.world, ep, t.world.now), t.world.now);
    hide Available, Mul, Reaches;
  }

  // ---------- calls one after another ----------

  lemma Reach(limits: string -> real, c: Crowd, step: Step, steps: seq<Step>, t: Crowd)
    requires Enabled(limits, c, step) && Reaches(limits, Do(limits, c, step), steps, t)
    ensures Reaches(limits, c, [step] + steps, t)
  {
    hide Enabled, Do;
    assert ([step] + steps)[1..] == steps;
  }

  /** A call of `_throttle` on its own is such a run: it pauses until its endpoint's token is there, takes
      it, pauses for a global one, and leaves. */
  lemma ServedIsARun(limits: string -> real, w: World, call: Call, gone: multiset<string>) returns (steps: seq<Step>)
    requires Sane(limits) && WellFormed(w) && call.idle >= 0.0
    ensures Reaches(limits, Crowd(w, [], gone), steps, Crowd(Served(limits, w, call), [], gone + multiset{call.ep}))
  {
    ServedFacts(limits, w, call);
    var r, ep := TimesOf(limits, w, call), call.ep;
    var taking := BucketOf(limits, w, ep, w.now + call.idle);
    TakesThere(limits, w, call);
    hide Taken, Available, WaitFor, TimesOf, Ready, Reaches;
    var c0 := Crowd(w, [], gone);
    var c1 := c0.(world := w.(now := r.taken));
    var c2 := Crowd(c1.world.(buckets := w.buckets[ep := Taken(taking, r.taken, 1.0)]), [ep], gone);
    var c3 := c2.(world := c2.world.(now := r.at));
    var c4 := Crowd(Served(limits, w, call), [], gone + multiset{ep});
    assert Do(limits, c0, Pause(r.taken - w.now)) == c1;
    assert Do(limits, c1, Take(ep)) == c2;
    assert Do(limits, c2, Pause(r.at - r.taken)) == c3;
    assert Without([ep], 0) == [];
    assert Do(limits, c3, Leave(0)) == c4;
    ReachHere(limits, c4);
    Reach(limits, c3, Leave(0), [], c4);
    Reach(limits, c2, Pause(r.at - r.taken), [Leave(0)] + [], c4);
    Reach(limits, c1, Take(ep), [Pause(r.at - r.taken)] + ([Leave(0)] + []), c4);
    steps := [Pause(r.taken - w.now)] + ([Take(ep)] + ([Pause(r.at - r.taken)] + ([Leave(0)] + [])));
    Reach(limits, c0, Pause(r.taken - w.now), [Take(ep)] + ([Pause(r.at - r.taken)] + ([Leave(0)] + [])), c4);
  }

  lemma ReachHere(limits: string -> real, c: Crowd)
    ensures Reaches(limits, c, [], c)
  {
  }

  /** A bucket made by this call is full, so there is no wait for its first token. */
  lemma TakesThere(limits: string -> real, w: World, call: Call)
    requires Sane(limits) && WellFormed(w) && call.idle >= 0.0
    ensures var r := TimesOf(limits, w, call);
      && BucketOf(limits, w, call.ep, w.now + call.idle) == BucketOf(limits, w, call.ep, r.taken)
      && Available(BucketOf(limits, w, call.ep, r.taken), r.taken) >= 1.0 && Available(w.global, r.at) >= 1.0
  {
    var now := w.now + call.idle;
    BucketIsReady(limits, w, call.ep, now);
    WaitSuffices(BucketOf(limits, w, call.ep, now), now);
    WaitSuffices(w.global, TimesOf(limits, w, call).taken);
    if call.ep !in w.buckets {
      FullIsFull(limits(call.ep), now);
    }
    hide Available, Mul;
  }

  // ---------- three requests at once ----------

  lemma {:induction false} ReachOn(limits: string -> real, c: Crowd, steps: seq<Step>, t: Crowd, step: Step)
    requires Reaches(limits, c, steps, t) && Enabled(limits, t, step)
    ensures Reaches(limits, c, steps + [step], Do(limits, t, step))
    decreases |steps|
  {
    hide Enabled, Do;
    if steps == [] {
      assert [] + [step] == [step];
      ReachHere(limits, Do(limits, t, step));
      Reach(limits, t, step, [], Do(limits, t, step));
      assert [step] + [] == [step];
    } else {
      assert (steps + [step])[0] == steps[0] && (steps + [step])[1..] == steps[1..] + [step];
      ReachOn(limits, Do(limits, c, steps[0]), steps[1..], t, step);
    }
  }

  function Thirds(k: nat): real { k as real / 3.0 }

  function Orders(n: nat): seq<string> { seq(n, _ => "place_order") }

  /** A ceiling of three: `taken` orders hold their token at the first instant, and `left` have left. */
  ghost predicate Opening(c: Crowd, taken: nat, left: nat) {
    && left <= taken <= 6 && left <= 3 && WellFormed(c.world) && c.world.now == 0.0
    && c.world.global == State(3.0, 3.0, 3.0 - left as real, 0.0)
    && "positions" !in c.world.buckets && c.gone["positions"] == 0 && c.waiting == Orders(taken - left)
    && BucketOf(TwoLimits, c.world, "place_order", 0.0) == State(10.0, 10.0, 10.0 - taken as real, 0.0)
  }

  lemma OrderTaken(c: Crowd, taken: nat, left: nat)
    requires Opening(c, taken, left) && taken < 6
    ensures Enabled(TwoLimits, c, Take("place_order")) && Opening(Do(TwoLimits, c, Take("place_order")), taken + 1, left)
  {
    var e := BucketOf(TwoLimits, c.world, "place_order", 0.0);
    BucketIsReady(TwoLimits, c.world, "place_order", 0.0);
    AvailableNow(e);
    TakenIsReady(e, 0.0);
    hide Available;
    assert Orders(taken + 1 - left) == Orders(taken - left) + ["place_order"];
  }

  lemma OrderLeft(c: Crowd, taken: nat, left: nat)
    requires Opening(c, taken, left) && left < taken && left < 3
    ensures Enabled(TwoLimits, c, Leave(0)) && Opening(Do(TwoLimits, c, Leave(0)), taken, left + 1)
  {
    AvailableNow(c.world.global);
    TakenIsReady(c.world.global, 0.0);
    hide Available;
    assert Without(c.waiting, 0) == Orders(taken - left - 1);
  }

  /** After `k` thirds of a second: the global bucket empty since `g`, the positions' bucket since `p`, and
      `n` position requests gone. */
  ghost predicate Scene(c: Crowd, k: nat, g: nat, p: nat, waiting: seq<string>, n: nat) {
    && g <= k && p <= k && WellFormed(c.world) && c.world.now == Thirds(k) && c.waiting == waiting && c.gone["positions"] == n
    && c.world.global == State(3.0, 3.0, 0.0, Thirds(g))
    && "positions" in c.world.buckets && c.world.buckets["positions"] == State(1.0, 1.0, 0.0, Thirds(p))
  }

  lemma FirstPosition(c: Crowd)
    requires Opening(c, 6, 3)
    ensures Enabled(TwoLimits, c, Take("positions"))
    ensures Scene(Do(TwoLimits, c, Take("positions")), 0, 0, 0, Orders(3) + ["positions"], 0)
  {
    var e := BucketOf(TwoLimits, c.world, "positions", 0.0);
    AvailableNow(e);
    TakenIsReady(e, 0.0);
    hide Available;
  }

  /** A second after the last one the positions' bucket has its next token. */
  lemma NextPosition(c: Crowd, k: nat, g: nat, p: nat, waiting: seq<string>, n: nat)
    requires Scene(c, k, g, p, waiting, n) && k == p + 3
    ensures Enabled(TwoLimits, c, Take("positions"))
    ensures Scene(Do(TwoLimits, c, Take("positions")), k, g, k, waiting + ["positions"], n)
  {
    var e := c.world.buckets["positions"];
    assert Thirds(k) - Thirds(p) == 1.0;
    assert Available(e, Thirds(k)) == 1.0;
    TakenIsReady(e, Thirds(k));
    hide Available;
  }

  lemma ThirdPasses(c: Crowd, k: nat, p: nat, waiting: seq<string>, n: nat)
    requires Scene(c, k, k, p, waiting, n)
    ensures Enabled(TwoLimits, c, Pause(Thirds(1)))
    ensures Scene(Do(TwoLimits, c, Pause(Thirds(1))), k + 1, k, p, waiting, n)
  {
    assert Thirds(k) + Thirds(1) == Thirds(k + 1);
  }

  /** A third of a second after the last one the global bucket has its next token. */
  lemma FirstLeaves(c: Crowd, k: nat, p: nat, waiting: seq<string>, n: nat)
    requires waiting != [] && Scene(c, k + 1, k, p, waiting, n)
    ensures Enabled(TwoLimits, c, Leave(0))
    ensures Scene(Do(TwoLimits, c, Leave(0)), k + 1, k + 1, p, waiting[1..], n + if waiting[0] == "positions" then 1 else 0)
  {
    var g := c.world.global;
    assert Thirds(k + 1) - Thirds(k) == Thirds(1) && Mul(Thirds(1), 3.0) == 1.0;
    assert Available(g, Thirds(k + 1)) == 1.0;
    TakenIsReady(g, Thirds(k + 1));
    hide Available;
    assert Without(waiting, 0) == waiting[1..];
  }

  /** One third of a second: it passes, and the one that waited longest leaves. */
  lemma ThirdAndLeave(c: Crowd, k: nat, p: nat, waiting: seq<string>, n: nat, from: Crowd, steps: seq<Step>)
    returns (next: Crowd, more: seq<Step>)
    requires waiting != [] && Scene(c, k, k, p, waiting, n) && Reaches(TwoLimits, from, steps, c)
    ensures Reaches(TwoLimits, from, more, next)
    ensures Scene(next, k + 1, k + 1, p, waiting[1..], n + if waiting[0] == "positions" then 1 else 0)
  {
    hide Scene, Enabled, Do, Reaches;
    ThirdPasses(c, k, p, waiting, n);
    ReachOn(TwoLimits, from, steps, c, Pause(Thirds(1)));
    var late := Do(TwoLimits, c, Pause(Thirds(1)));
    FirstLeaves(late, k, p, waiting, n);
    ReachOn(TwoLimits, from, steps + [Pause(Thirds(1))], late, Leave(0));
    next, more := Do(TwoLimits, late, Leave(0)), steps + [Pause(Thirds(1))] + [Leave(0)];
  }

  function Start(): Crowd { Crowd(World(0.0, Full(3.0, 0.0), map[]), [], multiset{}) }

  lemma Opens() returns (c: Crowd, steps: seq<Step>)
    ensures Reaches(TwoLimits, Start(), steps, c) && Opening(c, 6, 3)
  {
    c, steps := Start(), [];
    ReachHere(TwoLimits, c);
    assert Orders(0) == [];
    hide Opening, Enabled, Do, Reaches;
    StartIsOpening();
    var n := 0;
    while n < 6
      invariant n <= 6 && Opening(c, n, 0) && Reaches(TwoLimits, Start(), steps, c)
    {
      OrderTaken(c, n, 0);
      ReachOn(TwoLimits, Start(), steps, c, Take("place_order"));
      c, steps, n := Do(TwoLimits, c, Take("place_order")), steps + [Take("place_order")], n + 1;
    }
    n := 0;
    while n < 3
      invariant n <= 3 && Opening(c, 6, n) && Reaches(TwoLimits, Start(), steps, c)
    {
      OrderLeft(c, 6, n);
      ReachOn(TwoLimits, Start(), steps, c, Leave(0));
      c, steps, n := Do(TwoLimits, c, Leave(0)), steps + [Leave(0)], n + 1;
    }
  }

  lemma StartIsOpening()
    ensures Opening(Start(), 0, 0)
  {
  }

  /** Overlapping calls can exceed by more than one.  Under a ceiling of three, six orders are followed at
      once by a position call, and by two more a second apart: served in the order they came, the three
      leave within two thirds of a second, although their bucket allows one and two thirds. */
  lemma ThreePositionsInTwoThirds() returns (c: Crowd, t: Crowd, before: seq<Step>, steps: seq<Step>)
    ensures Reaches(TwoLimits, Start(), before, c) && Reaches(TwoLimits, c, steps, t)
    ensures t.world.now - c.world.now == 2.0 / 3.0 && t.gone["positions"] == c.gone["positions"] + 3
    ensures 3.0 > BurstOf(TwoLimits, c.world, "positions")
                  + Mul(t.world.now - c.world.now, RateOf(TwoLimits, c.world, "positions")) + 1.0
  {
    hide Scene, Opening, Enabled, Do, Reaches, Orders;
    var a, own := "place_order", "positions";
    c, before := Opens();
    FirstPosition(c);
    ReachOn(TwoLimits, Start(), before, c, Take(own));
    c, before := Do(TwoLimits, c, Take(own)), before + [Take(own)];
    FourWait();
    c, before := ThirdAndLeave(c, 0, 0, [a, a, a, own], 0, Start(), before);
    c, before := ThirdAndLeave(c, 1, 0, [a, a, own], 0, Start(), before);
    ThirdPasses(c, 2, 0, [a, own], 0);
    ReachOn(TwoLimits, Start(), before, c, Pause(Thirds(1)));
    c, before := Do(TwoLimits, c, Pause(Thirds(1))), before + [Pause(Thirds(1))];
    NextPosition(c, 3, 2, 0, [a, own], 0);
    ReachOn(TwoLimits, Start(), before, c, Take(own));
    c, before := Do(TwoLimits, c, Take(own)), before + [Take(own)];
    FirstLeaves(c, 2, 3, [a, own] + [own], 0);
    ReachOn(TwoLimits, Start(), before, c, Leave(0));
    c, before := Do(TwoLimits, c, Leave(0)), before + [Leave(0)];
    assert ([a, own] + [own])[1..] == [own, own];
    ThirdPasses(c, 3, 3, [own, own], 0);
    ReachOn(TwoLimits, Start(), before, c, Pause(Thirds(1)));
    c, before := Do(TwoLimits, c, Pause(Thirds(1))), before + [Pause(Thirds(1))];
    t, steps := LastThree(c);
    ScenesApart(c, t);
  }

  lemma FourWait()
    ensures Orders(3) + ["positions"] == ["place_order", "place_order", "place_order", "positions"]
  {
  }

  lemma LastThree(c: Crowd) returns (t: Crowd, steps: seq<Step>)
    requires Scene(c, 4, 3, 3, ["positions", "positions"], 0)
    ensures Reaches(TwoLimits, c, steps, t) && Scene(t, 6, 6, 6, [], 3)
  {
    hide Scene, Enabled, Do, Reaches;
    var own := "positions";
    t, steps := c, [];
    ReachHere(TwoLimits, c);
    FirstLeaves(t, 3, 3, [own, own], 0);
    ReachOn(TwoLimits, c, steps, t, Leave(0));
    t, steps := Do(TwoLimits, t, Leave(0)), steps + [Leave(0)];
    t, steps := ThirdAndLeave(t, 4, 3, [own], 1, c, steps);
    ThirdPasses(t, 5, 3, [], 2);
    ReachOn(TwoLimits, c, steps, t, Pause(Thirds(1)));
    t, steps := Do(TwoLimits, t, Pause(Thirds(1))), steps + [Pause(Thirds(1))];
    NextPosition(t, 6, 5, 3, [], 2);
    ReachOn(TwoLimits, c, steps, t, Take(own));
    t, steps := Do(TwoLimits, t, Take(own)), steps + [Take(own)];
    assert [] + [own] == [own];
    FirstLeaves(t, 5, 6, [own], 2);
    ReachOn(TwoLimits, c, steps, t, Leave(0));
    t, steps := Do(TwoLimits, t, Leave(0)), steps + [Leave(0)];
  }

  lemma ScenesApart(c: Crowd, t: Crowd)
    requires Scene(c, 4, 3, 3, ["positions", "positions"], 0) && Scene(t, 6, 6, 6, [], 3)
    ensures t.world.now - c.world.now == 2.0 / 3.0 && t.gone["positions"] == c.gone["positions"] + 3
    ensures 3.0 > BurstOf(TwoLimits, c.world, "positions")
                  + Mul(t.world.now - c.world.now, RateOf(TwoLimits, c.world, "positions")) + 1.0
  {
  }
}
