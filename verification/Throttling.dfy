/** One bucket an endpoint and one for all of them: what leaves through `_throttle` when calls to any
    endpoints follow one another. */
module Throttling {
  import opened Reals
  import opened Bucket
  import Watchdog
  import Lists

  /** Endpoint buckets come into being, full, at their first use. */
  datatype World = World(now: real, global: State, buckets: map<string, State>)

  datatype Call = Call(idle: real, ep: string)

  /** A request: when its endpoint's token was taken, and when it left. */
  datatype Request = Request(ep: string, taken: real, at: real)

  ghost predicate Ready(s: State, now: real) {
    s.Valid() && s.capacity >= 1.0 && s.updated <= now
  }

  /** Every bucket holds at least one token when full, and none has been used in the future. */
  ghost predicate WellFormed(w: World) {
    Ready(w.global, w.now) && forall ep :: ep in w.buckets ==> Ready(w.buckets[ep], w.now)
  }

  /** Every endpoint is allowed at least one request a second, and calls come one after another. */
  ghost predicate Sane(limits: string -> real) { forall ep :: limits(ep) >= 1.0 }

  ghost predicate Forward(calls: seq<Call>) { forall k :: 0 <= k < |calls| ==> calls[k].idle >= 0.0 }

  /** One second of allowance, all of it there. */
  function Full(rate: real, now: real): State { State(rate, rate, rate, now) }

  function BucketOf(limits: string -> real, w: World, ep: string, now: real): State {
    if ep in w.buckets then w.buckets[ep] else Full(limits(ep), now)
  }

  lemma BucketIsReady(limits: string -> real, w: World, ep: string, now: real)
    requires Sane(limits) && WellFormed(w) && w.now <= now
    ensures Ready(BucketOf(limits, w, ep, now), now)
  {
  }

  /** After the announced wait a token is there; exactly one, if there was a wait at all. */
  lemma WaitSuffices(s: State, now: real)
    requires Ready(s, now)
    ensures var wait := WaitFor(s, now, 1.0);
      && wait >= 0.0 && Available(s, now + wait) >= 1.0 && Ready(s, now + wait)
      && (wait > 0.0 ==> Available(s, now + wait) == 1.0)
      && (wait > 0.0 <==> Available(s, now) < 1.0)
  {
    AvailableBounds(s, now);
    if Available(s, now) < 1.0 {
      SleepFills(Refilled(s, now), 1.0);
      EnoughWhenNoDelay(Refilled(s, now), 1.0);
      RefillIsInvisible(s, now, now + WaitFor(s, now, 1.0));
    }
    hide Available;
  }

  /** A token taken when there is one leaves the bucket ready. */
  lemma TakenIsReady(s: State, now: real)
    requires Ready(s, now) && Available(s, now) >= 1.0
    ensures Ready(Taken(s, now, 1.0), now) && Allowed(s, Grant(now, 1.0))
    ensures Taken(s, now, 1.0).rate == s.rate && Taken(s, now, 1.0).capacity == s.capacity
  {
    AvailableBounds(s, now);
    hide Available;
  }

  /** When the endpoint's token is taken, and when the request leaves. */
  function TimesOf(limits: string -> real, w: World, c: Call): Request
    requires Sane(limits) && WellFormed(w) && c.idle >= 0.0
  {
    BucketIsReady(limits, w, c.ep, w.now + c.idle);
    var taken := w.now + c.idle + WaitFor(BucketOf(limits, w, c.ep, w.now + c.idle), w.now + c.idle, 1.0);
    Request(c.ep, taken, taken + WaitFor(w.global, taken, 1.0))
  }

  /** The world after one call. */
  function Served(limits: string -> real, w: World, c: Call): (next: World)
    requires Sane(limits) && WellFormed(w) && c.idle >= 0.0
    ensures WellFormed(next)
  {
    ServedFacts(limits, w, c);
    var r := TimesOf(limits, w, c);
    World(r.at, Taken(w.global, r.at, 1.0),
          w.buckets[c.ep := Taken(BucketOf(limits, w, c.ep, w.now + c.idle), r.taken, 1.0)])
  }

  lemma ServedFacts(limits: string -> real, w: World, c: Call)
    requires Sane(limits) && WellFormed(w) && c.idle >= 0.0
    ensures var r, e := TimesOf(limits, w, c), BucketOf(limits, w, c.ep, w.now + c.idle);
      && w.now + c.idle <= r.taken <= r.at
      && Ready(Taken(w.global, r.at, 1.0), r.at) && Allowed(w.global, Grant(r.at, 1.0))
      && Ready(Taken(e, r.taken, 1.0), r.taken) && Allowed(e, Grant(r.taken, 1.0))
      && (r.taken < r.at ==> Taken(w.global, r.at, 1.0).tokens == 0.0)
  {
    hide WaitFor, Taken, Available, Allowed;
    var e, r := BucketOf(limits, w, c.ep, w.now + c.idle), TimesOf(limits, w, c);
    BucketIsReady(limits, w, c.ep, w.now + c.idle);
    WaitSuffices(e, w.now + c.idle);
    TakenIsReady(e, r.taken);
    WaitSuffices(w.global, r.taken);
    TakenIsReady(w.global, r.at);
    if r.taken < r.at {
      TakenLeaves(w.global, r.at);
    }
  }

  lemma TakenLeaves(s: State, now: real)
    ensures Taken(s, now, 1.0).tokens == Available(s, now) - 1.0
  {
  }

  /** The requests of a sequence of calls, and the world it leaves. */
  function Requests(limits: string -> real, w: World, calls: seq<Call>): seq<Request>
    requires Sane(limits) && WellFormed(w) && Forward(calls)
    decreases |calls|
  {
    if calls == [] then []
    else [TimesOf(limits, w, calls[0])] + Requests(limits, Served(limits, w, calls[0]), calls[1..])
  }

  function Left(limits: string -> real, w: World, calls: seq<Call>): World
    requires Sane(limits) && WellFormed(w) && Forward(calls)
    decreases |calls|
  {
    if calls == [] then w else Left(limits, Served(limits, w, calls[0]), calls[1..])
  }

  function OwnOf(rs: seq<Request>, ep: string): seq<Request> {
    if rs == [] then [] else (if rs[0].ep == ep then [rs[0]] else []) + OwnOf(rs[1..], ep)
  }

  /** The first call, then the rest from the world it leaves. */
  lemma RequestsUnfold(limits: string -> real, w: World, calls: seq<Call>, ep: string)
    requires Sane(limits) && WellFormed(w) && Forward(calls) && calls != []
    ensures Forward(calls[1..])
    ensures var r, rest := TimesOf(limits, w, calls[0]), Requests(limits, Served(limits, w, calls[0]), calls[1..]);
      && Requests(limits, w, calls) == [r] + rest
      && OwnOf(Requests(limits, w, calls), ep) == if r.ep == ep then [r] + OwnOf(rest, ep) else OwnOf(rest, ep)
  {
    hide TimesOf, Served, WellFormed, Sane;
    var r, rest := TimesOf(limits, w, calls[0]), Requests(limits, Served(limits, w, calls[0]), calls[1..]);
    assert ([r] + rest)[1..] == rest;
    assert [] + OwnOf(rest, ep) == OwnOf(rest, ep);
  }

  /** One call changes its own endpoint's bucket and the global one. */
  lemma ServedBuckets(limits: string -> real, w: World, c: Call)
    requires Sane(limits) && WellFormed(w) && c.idle >= 0.0
    ensures var r, e, next := TimesOf(limits, w, c), BucketOf(limits, w, c.ep, w.now + c.idle), Served(limits, w, c);
      && r.ep == c.ep && next.now == r.at
      && next.global == Taken(w.global, r.at, 1.0) && Allowed(w.global, Grant(r.at, 1.0))
      && c.ep in next.buckets && next.buckets[c.ep] == Taken(e, r.taken, 1.0) && Allowed(e, Grant(r.taken, 1.0))
      && (forall ep :: ep in w.buckets ==> ep in next.buckets)
      && (forall ep :: ep in next.buckets && ep != c.ep ==> ep in w.buckets && next.buckets[ep] == w.buckets[ep])
  {
    ServedFacts(limits, w, c);
    hide WaitFor, Taken, Available, Allowed, Ready;
  }

  function Ats(rs: seq<Request>): seq<real> { seq(|rs|, k requires 0 <= k < |rs| => rs[k].at) }

  function Takens(rs: seq<Request>): seq<real> { seq(|rs|, k requires 0 <= k < |rs| => rs[k].taken) }

  /** In order, and after `now`. */
  ghost predicate InTime(now: real, rs: seq<Request>)
    decreases |rs|
  {
    rs == [] || (now <= rs[0].taken <= rs[0].at && InTime(rs[0].at, rs[1..]))
  }

  lemma {:induction false} AllInTime(limits: string -> real, w: World, calls: seq<Call>)
    requires Sane(limits) && WellFormed(w) && Forward(calls)
    ensures InTime(w.now, Requests(limits, w, calls))
    decreases |calls|
  {
    if calls != [] {
      ServedFacts(limits, w, calls[0]);
      AllInTime(limits, Served(limits, w, calls[0]), calls[1..]);
      hide TimesOf, Ready, Allowed, Taken;
      var rest := Requests(limits, Served(limits, w, calls[0]), calls[1..]);
      assert ([TimesOf(limits, w, calls[0])] + rest)[1..] == rest;
    }
  }

  lemma {:induction false} InTimeLater(now: real, later: real, rs: seq<Request>)
    requires InTime(later, rs) && now <= later
    ensures InTime(now, rs)
  {
  }

  lemma {:induction false} OwnInTime(now: real, rs: seq<Request>, ep: string)
    requires InTime(now, rs)
    ensures InTime(now, OwnOf(rs, ep))
    decreases |rs|
  {
    if rs != [] {
      var rest := OwnOf(rs[1..], ep);
      OwnInTime(rs[0].at, rs[1..], ep);
      InTimeLater(now, rs[0].at, rest);
      assert ([rs[0]] + rest)[1..] == rest && [] + rest == rest;
    }
  }

  /** The grants of the global bucket are the requests themselves, of whatever endpoint. */
  lemma {:induction false} GlobalHistory(limits: string -> real, w: World, calls: seq<Call>)
    requires Sane(limits) && WellFormed(w) && Forward(calls)
    ensures History(w.global, UnitGrants(Ats(Requests(limits, w, calls))))
    decreases |calls|
  {
    hide TimesOf, Served, Taken, Allowed, History, WellFormed, Sane;
    if calls == [] {
      NoGrants(w.global);
    } else {
      RequestsUnfold(limits, w, calls, "");
      ServedBuckets(limits, w, calls[0]);
      var r, rest := TimesOf(limits, w, calls[0]), Requests(limits, Served(limits, w, calls[0]), calls[1..]);
      GlobalHistory(limits, Served(limits, w, calls[0]), calls[1..]);
      ConsGrant(w.global, r.at, Ats(rest));
      assert Ats([r] + rest) == [r.at] + Ats(rest);
    }
  }

  lemma NoGrants(s: State)
    ensures History(s, UnitGrants([]))
  {
  }

  lemma ConsGrant(s: State, now: real, times: seq<real>)
    requires Allowed(s, Grant(now, 1.0)) && History(Taken(s, now, 1.0), UnitGrants(times))
    ensures History(s, UnitGrants([now] + times))
  {
    hide Taken, Available;
    var us := UnitGrants([now] + times);
    assert us[1..] == UnitGrants(times);
  }

  /** The grants of an endpoint's bucket are that endpoint's requests, at the times their tokens were
      taken.  The bucket is the one at hand, or the full one of its first use. */
  lemma {:induction false} OwnHistory(limits: string -> real, w: World, calls: seq<Call>, ep: string) returns (s: State)
    requires Sane(limits) && WellFormed(w) && Forward(calls)
    ensures s.Valid() && History(s, UnitGrants(Takens(OwnOf(Requests(limits, w, calls), ep))))
    ensures if ep in w.buckets then s == w.buckets[ep] else s.rate == limits(ep) && s.capacity == limits(ep)
    decreases |calls|
  {
    hide TimesOf, Served, Taken, Available, Allowed, History, WellFormed, Sane, Requests, OwnOf;
    if calls == [] {
      s := BucketOf(limits, w, ep, w.now);
      BucketIsReady(limits, w, ep, w.now);
      NoGrants(s);
      NoRequests(limits, w, ep);
    } else {
      var c := calls[0];
      var next := Served(limits, w, c);
      RequestsUnfold(limits, w, calls, ep);
      ServedBuckets(limits, w, c);
      BucketIsReady(limits, w, ep, w.now + c.idle);
      var r, rest := TimesOf(limits, w, c), Requests(limits, next, calls[1..]);
      s := OwnHistory(limits, next, calls[1..], ep);
      if c.ep == ep {
        s := BucketOf(limits, w, ep, w.now + c.idle);
        ConsGrant(s, r.taken, Takens(OwnOf(rest, ep)));
        TakensCons(r, OwnOf(rest, ep));
      }
    }
  }

  lemma NoRequests(limits: string -> real, w: World, ep: string)
    requires Sane(limits) && WellFormed(w)
    ensures Takens(OwnOf(Requests(limits, w, []), ep)) == []
  {
  }

  lemma TakensCons(r: Request, rest: seq<Request>)
    ensures Takens([r] + rest) == [r.taken] + Takens(rest)
  {
  }

  // ---------- what every run obeys ----------

  /** The rate and the burst that an endpoint is held to. */
  function RateOf(limits: string -> real, w: World, ep: string): real {
    if ep in w.buckets then w.buckets[ep].rate else limits(ep)
  }

  function BurstOf(limits: string -> real, w: World, ep: string): real {
    if ep in w.buckets then w.buckets[ep].capacity else limits(ep)
  }

  /** All requests together, of whatever endpoints, obey the global bound in every window. */
  lemma GlobalBound(limits: string -> real, w: World, calls: seq<Call>)
    requires Sane(limits) && WellFormed(w) && Forward(calls)
    ensures Obeys(Ats(Requests(limits, w, calls)), w.global.capacity, w.global.rate)
  {
    GlobalHistory(limits, w, calls);
    UnitGrantsObey(w.global, Ats(Requests(limits, w, calls)));
  }

  lemma {:induction false} InTimeAt(now: real, rs: seq<Request>, i: nat, j: nat)
    requires InTime(now, rs) && i <= j < |rs|
    ensures now <= rs[i].taken <= rs[i].at <= rs[j].at && rs[i].taken <= rs[j].taken <= rs[j].at
    ensures i < j ==> rs[i].at <= rs[j].taken
    decreases |rs|
  {
    if i > 0 {
      InTimeAt(rs[0].at, rs[1..], i - 1, j - 1);
    } else if j > 0 {
      InTimeAt(rs[0].at, rs[1..], j - 1, j - 1);
    }
  }

  /** One endpoint's requests, between those of any others: a window exceeds the endpoint's bound by no
      more than what flows in while its first request waits for the global token, and by no more than
      one request; so it obeys the bound if that request did not wait. */
  lemma EndpointBound(limits: string -> real, w: World, calls: seq<Call>, ep: string, i: nat, j: nat)
    requires Sane(limits) && WellFormed(w) && Forward(calls) && i <= j < |OwnOf(Requests(limits, w, calls), ep)|
    ensures var own, rate, burst := OwnOf(Requests(limits, w, calls), ep), RateOf(limits, w, ep), BurstOf(limits, w, ep);
      var n, bound := j as real - i as real + 1.0, burst + Mul(own[j].at - own[i].at, rate);
      && n <= bound + Mul(own[i].at - own[i].taken, rate)
      && n <= bound + 1.0
      && (own[i].taken == own[i].at ==> n <= bound)
  {
    hide Requests, OwnOf, History, Mul, Obeys, WellFormed, Sane, InTime;
    var own := OwnOf(Requests(limits, w, calls), ep);
    AllInTime(limits, w, calls);
    OwnInTime(w.now, Requests(limits, w, calls), ep);
    var s := OwnHistory(limits, w, calls, ep);
    UnitGrantsObey(s, Takens(own));
    WindowOf(s, w.now, own, i, j);
  }

  lemma WindowOf(s: State, now: real, own: seq<Request>, i: nat, j: nat)
    requires s.rate > 0.0 && InTime(now, own) && Obeys(Takens(own), s.capacity, s.rate) && i <= j < |own|
    ensures var n, bound := j as real - i as real + 1.0, s.capacity + Mul(own[j].at - own[i].at, s.rate);
      && n <= bound + Mul(own[i].at - own[i].taken, s.rate)
      && n <= bound + 1.0
      && (own[i].taken == own[i].at ==> n <= bound)
  {
    hide Mul, Obeys, InTime;
    InTimeAt(now, own, i, j);
    FromToken(s, own, i, j);
    MulUnits(s.rate);
    if i < j {
      InTimeAt(now, own, i + 1, j);
      InTimeAt(now, own, i, i + 1);
      ObeysAt(Takens(own), s.capacity, s.rate, i + 1, j);
      MulOrder(own[j].taken - own[i + 1].taken, own[j].at - own[i].at, s.rate);
    } else {
      ObeysAt(Takens(own), s.capacity, s.rate, i, i);
    }
  }

  lemma FromToken(s: State, own: seq<Request>, i: nat, j: nat)
    requires s.rate > 0.0 && Obeys(Takens(own), s.capacity, s.rate) && i <= j < |own| && own[j].taken <= own[j].at
    ensures j as real - i as real + 1.0 <= s.capacity + Mul(own[j].at - own[i].at, s.rate) + Mul(own[i].at - own[i].taken, s.rate)
  {
    hide Mul, Obeys;
    ObeysAt(Takens(own), s.capacity, s.rate, i, j);
    MulAdds(own[j].at - own[i].at, own[i].at - own[i].taken, s.rate);
    MulOrder(own[j].taken - own[i].taken, own[j].at - own[i].taken, s.rate);
  }

  // ---------- when a window can exceed ----------

  /** Some window that starts with the request just made exceeds the endpoint's bound: its last request is
      the last that these further calls make of the endpoint. */
  ghost predicate Exceeds(limits: string -> real, w: World, ep: string, calls: seq<Call>)
    requires Sane(limits) && WellFormed(w) && ep in w.buckets
  {
    Forward(calls) && ExceedsBy(w.buckets[ep], w.now, OwnOf(Requests(limits, w, calls), ep), 0)
  }

  ghost predicate ExceedsBy(e: State, start: real, own: seq<Request>, before: nat) {
    own != [] && before as real + |own| as real + 1.0 > e.capacity + Mul(own[|own| - 1].at - start, e.rate)
  }

  /** The endpoint's bucket is slower than the global one and less than a token down. */
  predicate Ahead(w: World, ep: string) {
    ep in w.buckets && w.buckets[ep].rate < w.global.rate
    && Available(w.buckets[ep], w.now) > w.buckets[ep].capacity - 1.0
  }

  /** A bucket refreshed before its next grant has the same history ahead. */
  lemma RefreshKeepsHistory(s: State, now: real, us: seq<Use>)
    requires s.Valid() && s.updated <= now && History(s, us) && us != [] && us[0].Grant? && now <= us[0].now
    ensures History(Refilled(s, now), us) && Refilled(s, now).Valid()
  {
    RefillIsInvisible(s, now, us[0].now);
    hide Available;
    assert Apply(Refilled(s, now), us[0]) == Apply(s, us[0]);
  }

  /** From any instant before them, these grants use what is there and what flows in. */
  lemma GrantsFrom(s: State, now: real, times: seq<real>)
    requires s.Valid() && s.updated <= now && times != [] && now <= times[0] && History(s, UnitGrants(times))
    ensures |times| as real <= Available(s, now) + Mul(times[|times| - 1] - now, s.rate)
  {
    var us, t := UnitGrants(times), Refilled(s, now);
    RefreshKeepsHistory(s, now, us);
    TokensConserved(t, us);
    AfterUpdated(t, us);
    UnitsAddUp(us);
    hide Available, History, Mul;
  }

  lemma {:induction false} LastOwn(rs: seq<Request>, ep: string) returns (m: nat)
    requires OwnOf(rs, ep) != []
    ensures m < |rs| && rs[m] == OwnOf(rs, ep)[|OwnOf(rs, ep)| - 1] && |OwnOf(rs, ep)| <= m + 1
  {
    if OwnOf(rs[1..], ep) == [] {
      m := 0;
    } else {
      m := LastOwn(rs[1..], ep);
      m := m + 1;
    }
  }

  /** If the bucket is a whole token down when the request leaves, no window from it exceeds. */
  lemma TokenDownObeys(limits: string -> real, w: World, ep: string, calls: seq<Call>)
    requires Sane(limits) && WellFormed(w) && ep in w.buckets && Forward(calls)
    requires Available(w.buckets[ep], w.now) <= w.buckets[ep].capacity - 1.0
    ensures !Exceeds(limits, w, ep, calls)
  {
    hide Requests, OwnOf, History, Mul, Available, InTime, WellFormed, Sane, ExceedsBy;
    var own := OwnOf(Requests(limits, w, calls), ep);
    AllInTime(limits, w, calls);
    OwnInTime(w.now, Requests(limits, w, calls), ep);
    var s := OwnHistory(limits, w, calls, ep);
    BucketIsReady(limits, w, ep, w.now);
    OwnWithin(w.buckets[ep], w.now, own);
  }

  lemma OwnWithin(e: State, now: real, own: seq<Request>)
    requires Ready(e, now) && Available(e, now) <= e.capacity - 1.0
    requires InTime(now, own) && History(e, UnitGrants(Takens(own)))
    ensures !ExceedsBy(e, now, own, 0)
  {
    hide History, Mul, Available, InTime;
    if own != [] {
      InTimeAt(now, own, 0, |own| - 1);
      GrantsFrom(e, now, Takens(own));
      MulOrder(own[|own| - 1].taken - now, own[|own| - 1].at - now, e.rate);
    }
  }

  /** If the global bucket is empty and no faster than the endpoint's, no window from here exceeds. */
  lemma SlowGlobalObeys(limits: string -> real, w: World, ep: string, calls: seq<Call>)
    requires Sane(limits) && WellFormed(w) && ep in w.buckets && Forward(calls)
    requires Available(w.global, w.now) == 0.0 && w.global.rate <= w.buckets[ep].rate
    ensures !Exceeds(limits, w, ep, calls)
  {
    hide Requests, OwnOf, History, Mul, Available, InTime, WellFormed, Sane, ExceedsBy;
    var rs, e := Requests(limits, w, calls), w.buckets[ep];
    AllInTime(limits, w, calls);
    GlobalHistory(limits, w, calls);
    BucketIsReady(limits, w, ep, w.now);
    GlobalIsReady(w);
    SlowWithin(e, w.global, w.now, rs, ep);
  }

  lemma GlobalIsReady(w: World)
    requires WellFormed(w)
    ensures Ready(w.global, w.now)
  {
  }

  lemma SlowWithin(e: State, g: State, now: real, rs: seq<Request>, ep: string)
    requires Ready(e, now) && Ready(g, now) && Available(g, now) == 0.0 && g.rate <= e.rate
    requires InTime(now, rs) && History(g, UnitGrants(Ats(rs)))
    ensures !ExceedsBy(e, now, OwnOf(rs, ep), 0)
  {
    hide OwnOf, History, Mul, Available, InTime;
    if OwnOf(rs, ep) != [] {
      var m := LastOwn(rs, ep);
      var times := Ats(rs)[..m + 1];
      assert UnitGrants(Ats(rs))[..m + 1] == UnitGrants(times);
      HistorySplits(g, UnitGrants(Ats(rs)), m + 1);
      InTimeAt(now, rs, 0, m);
      GrantsFrom(g, now, times);
      MulOrder(g.rate, e.rate, rs[m].at - now);
      MulUnits(rs[m].at - now);
    }
  }

  /** One more call, a global token's time after `w`: neither wait for the global token, and the endpoint's
      bucket has grown by `grown`, what flows into it in that time. */
  lemma NextCall(limits: string -> real, w: World, ep: string, step: real, grown: real) returns (c: Call)
    requires Sane(limits) && WellFormed(w) && ep in w.buckets && w.global.updated == w.now
    requires step > 0.0 && Mul(step, w.global.rate) == 1.0 && grown == Mul(step, w.buckets[ep].rate) > 0.0
    ensures c == Call(step, ep)
    ensures var e, r, next := w.buckets[ep], TimesOf(limits, w, c), Served(limits, w, c);
      var there := if Available(e, w.now) + grown < e.capacity then Available(e, w.now) + grown else e.capacity;
      && r.ep == ep && next.now == r.at && next.global.updated == r.at && next.global.rate == w.global.rate
      && ep in next.buckets && next.buckets[ep].rate == e.rate && next.buckets[ep].capacity == e.capacity
      && (there >= 1.0 ==> r.at == w.now + step && Available(next.buckets[ep], r.at) == there - 1.0)
      && (there < 1.0 ==> Mul(r.at - w.now - step, e.rate) == 1.0 - there)
  {
    c := Call(step, ep);
    ServedBuckets(limits, w, c);
    var e, now := w.buckets[ep], w.now + step;
    BucketIsReady(limits, w, ep, w.now);
    Grows(e, w.now, step);
    GlobalThere(w.global, w.now, step);
    hide Mul, Available, Allowed, Taken, WellFormed, Sane;
    WaitSuffices(e, now);
    var r := TimesOf(limits, w, c);
    StillThere(w.global, now, r.taken);
    if Available(e, now) < 1.0 {
      MulDiv(1.0 - Available(e, now), e.rate);
    } else {
      JustTaken(e, now);
    }
    TakenKeeps(e, r.taken);
    TakenKeeps(w.global, r.at);
  }

  lemma Grows(s: State, now: real, step: real)
    requires Ready(s, now) && step > 0.0
    ensures var sum := Available(s, now) + Mul(step, s.rate);
      Available(s, now + step) == if sum < s.capacity then sum else s.capacity
  {
    hide Mul;
    AvailableBounds(s, now);
    RefillIsInvisible(s, now, now + step);
  }

  lemma GlobalThere(s: State, now: real, step: real)
    requires Ready(s, now) && step > 0.0 && Mul(step, s.rate) == 1.0
    ensures Available(s, now + step) >= 1.0
  {
    AvailableBounds(s, now);
    Grows(s, now, step);
    hide Mul, Available;
  }

  lemma StillThere(s: State, now: real, later: real)
    requires Ready(s, now) && now <= later && Available(s, now) >= 1.0
    ensures Available(s, later) >= 1.0 && WaitFor(s, later, 1.0) == 0.0
  {
    RefillIsInvisible(s, now, later);
    AvailableBounds(Refilled(s, now), later);
    AvailableBounds(s, now);
    hide Mul, Available;
  }

  lemma JustTaken(s: State, now: real)
    requires Ready(s, now) && Available(s, now) >= 1.0
    ensures Available(Taken(s, now, 1.0), now) == Available(s, now) - 1.0
  {
    TakenIsReady(s, now);
    AvailableNow(Taken(s, now, 1.0));
    hide Available, Mul;
    assert Refilled(Taken(s, now, 1.0), now).tokens == Taken(s, now, 1.0).tokens;
  }

  lemma TakenKeeps(s: State, now: real)
    ensures var t := Taken(s, now, 1.0); t.rate == s.rate && t.capacity == s.capacity && t.updated == now
  {
    hide Available;
  }

  /** `ahead` is how many more requests have left than flowed into the bucket meanwhile. */
  lemma StillAhead(capacity: real, there: real, now: real, ahead: real, grown: real)
    requires capacity >= 1.0 && 0.0 < grown < 1.0 && ahead >= 0.0 && now > capacity - 1.0 - ahead
    requires there == if now + grown < capacity then now + grown else capacity
    ensures there - 1.0 > capacity - 1.0 - (ahead + 1.0 - grown)
    ensures there < 1.0 ==> ahead + 1.0 - grown - (1.0 - there) > capacity - 1.0
  {
  }

  lemma ExceedsByOne(e: State, start: real, r: Request, before: nat)
    requires before as real - Mul(r.at - start, e.rate) + 1.0 > e.capacity - 1.0
    ensures ExceedsBy(e, start, [r], before)
  {
  }

  lemma ExceedsByMore(e: State, next: State, start: real, r: Request, rest: seq<Request>, before: nat)
    requires next.rate == e.rate && next.capacity == e.capacity && ExceedsBy(next, start, rest, before + 1)
    ensures ExceedsBy(e, start, [r] + rest, before)
  {
  }

  /** Further calls, each a global token's time after the last, end in a window that exceeds.  `before`
      requests have left since `start`, and the bucket is less than a token behind them. */
  lemma {:induction false} Burst(limits: string -> real, w: World, ep: string, start: real, before: nat, step: real,
                                 grown: real, left: nat) returns (calls: seq<Call>)
    requires Sane(limits) && WellFormed(w) && ep in w.buckets && w.global.updated == w.now
    requires step > 0.0 && Mul(step, w.global.rate) == 1.0 && 0.0 < grown == Mul(step, w.buckets[ep].rate) < 1.0
    requires var e := w.buckets[ep]; var ahead := before as real - Mul(w.now - start, e.rate);
      && ahead >= 0.0 && Available(e, w.now) > e.capacity - 1.0 - ahead
      && Mul(left as real, 1.0 - grown) > e.capacity - 1.0 - ahead
    ensures Forward(calls) && ExceedsBy(w.buckets[ep], start, OwnOf(Requests(limits, w, calls), ep), before)
    decreases left
  {
    hide Mul, Available, Requests, OwnOf, TimesOf, Served, WellFormed, Sane, ExceedsBy;
    var c := NextCall(limits, w, ep, step, grown);
    var e, r, next := w.buckets[ep], TimesOf(limits, w, c), Served(limits, w, c);
    BucketIsReady(limits, w, ep, w.now);
    var sum := Available(e, w.now) + grown;
    var there := if sum < e.capacity then sum else e.capacity;
    var ahead := before as real - Mul(w.now - start, e.rate);
    StillAhead(e.capacity, there, Available(e, w.now), ahead, grown);
    MulAdds(w.now - start, step, e.rate);
    MulAdds(w.now + step - start, r.at - w.now - step, e.rate);
    MulUnits(e.rate);
    LessLeft(left, grown);
    if there >= 1.0 && ahead + 1.0 - grown <= e.capacity - 1.0 {
      var more := Burst(limits, next, ep, start, before + 1, step, grown, left - 1);
      calls := [c] + more;
      assert calls[1..] == more;
      RequestsUnfold(limits, w, calls, ep);
      ExceedsByMore(e, next.buckets[ep], start, r, OwnOf(Requests(limits, next, more), ep), before);
    } else {
      calls := [c];
      OneOwn(limits, w, c, ep);
      ExceedsByOne(e, start, r, before);
    }
  }

  lemma OneOwn(limits: string -> real, w: World, c: Call, ep: string)
    requires Sane(limits) && WellFormed(w) && c.idle >= 0.0 && c.ep == ep
    ensures Forward([c]) && OwnOf(Requests(limits, w, [c]), ep) == [TimesOf(limits, w, c)]
  {
    RequestsUnfold(limits, w, [c], ep);
    NoRequests(limits, Served(limits, w, c), ep);
    hide TimesOf, Served, WellFormed, Sane;
    assert [c][1..] == [];
    assert Requests(limits, Served(limits, w, c), []) == [];
  }

  lemma LessLeft(left: nat, grown: real)
    ensures left == 0 ==> Mul(left as real, 1.0 - grown) == 0.0
    ensures left > 0 ==> Mul((left - 1) as real, 1.0 - grown) == Mul(left as real, 1.0 - grown) - (1.0 - grown)
  {
    hide Mul;
    MulUnits(1.0 - grown);
    if left > 0 {
      MulAdds(left as real, 1.0, 1.0 - grown);
      assert (left - 1) as real == left as real - 1.0;
    }
  }

  /** The request just made can start a window that exceeds its endpoint's bound, under some further
      calls, exactly when the endpoint is slower than the global bucket and, as the request leaves, its
      bucket is less than one token down: that is, when what flowed in while the request waited for the
      global token made up for more than the bucket lacked. */
  lemma ExceedsIff(limits: string -> real, before: World, c: Call)
    requires Sane(limits) && WellFormed(before) && c.idle >= 0.0
    ensures var w, ep := Served(limits, before, c), c.ep;
      && ep in w.buckets
      && ((exists calls :: Exceeds(limits, w, ep, calls)) <==> Ahead(w, ep))
  {
    var w, ep := Served(limits, before, c), c.ep;
    ServedBuckets(limits, before, c);
    ServedFacts(limits, before, c);
    LeavesEmpty(limits, before, c);
    hide Mul, Available, Requests, OwnOf, TimesOf, Served, Taken, Allowed, Exceeds, WellFormed, Sane;
    if Ahead(w, ep) {
      var calls := SomeBurst(limits, w, ep);
    } else if Available(w.buckets[ep], w.now) <= w.buckets[ep].capacity - 1.0 {
      forall calls
        ensures !Exceeds(limits, w, ep, calls)
      {
        if Forward(calls) {
          TokenDownObeys(limits, w, ep, calls);
        } else {
          NotForward(limits, w, ep, calls);
        }
      }
    } else {
      forall calls
        ensures !Exceeds(limits, w, ep, calls)
      {
        if Forward(calls) {
          SlowGlobalObeys(limits, w, ep, calls);
        } else {
          NotForward(limits, w, ep, calls);
        }
      }
    }
  }

  lemma NotForward(limits: string -> real, w: World, ep: string, calls: seq<Call>)
    requires Sane(limits) && WellFormed(w) && ep in w.buckets && !Forward(calls)
    ensures !Exceeds(limits, w, ep, calls)
  {
  }

  /** A request that leaves with its bucket less than a token down has waited for the global token, and
      has left the global bucket empty. */
  lemma LeavesEmpty(limits: string -> real, before: World, c: Call)
    requires Sane(limits) && WellFormed(before) && c.idle >= 0.0
    ensures var w, ep := Served(limits, before, c), c.ep;
      && ep in w.buckets && w.global.updated == w.now
      && (Available(w.buckets[ep], w.now) > w.buckets[ep].capacity - 1.0 ==> Available(w.global, w.now) == 0.0)
  {
    ServedBuckets(limits, before, c);
    ServedFacts(limits, before, c);
    var r, e := TimesOf(limits, before, c), BucketOf(limits, before, c.ep, before.now + c.idle);
    BucketIsReady(limits, before, c.ep, before.now + c.idle);
    TakenKeeps(before.global, r.at);
    hide TimesOf, Served, WaitFor, WellFormed, Sane, Mul;
    if r.taken == r.at {
      AvailableBounds(e, r.taken);
      AvailableNow(Taken(e, r.taken, 1.0));
    } else {
      AvailableNow(Taken(before.global, r.at, 1.0));
    }
  }

  lemma SomeBurst(limits: string -> real, w: World, ep: string) returns (calls: seq<Call>)
    requires Sane(limits) && WellFormed(w) && ep in w.buckets && w.global.updated == w.now
    requires w.buckets[ep].rate < w.global.rate && Available(w.buckets[ep], w.now) > w.buckets[ep].capacity - 1.0
    ensures Exceeds(limits, w, ep, calls)
  {
    var e := w.buckets[ep];
    BucketIsReady(limits, w, ep, w.now);
    var step := 1.0 / w.global.rate;
    hide Mul, Available, Requests, OwnOf, WellFormed, Sane;
    MulDiv(1.0, w.global.rate);
    MulUnits(step);
    MulOrder(0.0, e.rate, step);
    MulOrder(e.rate, w.global.rate, step);
    MulUnits(e.rate);
    var grown := Mul(step, e.rate);
    var left := Enough(e.capacity - 1.0, 1.0 - grown);
    calls := Burst(limits, w, ep, w.now, 0, step, grown, left);
  }

  lemma Enough(x: real, q: real) returns (n: nat)
    requires q > 0.0 && x >= 0.0
    ensures Mul(n as real, q) > x
  {
    hide Mul;
    n := (x / q).Floor + 1;
    MulDiv(x, q);
    MulOrder(x / q, n as real, q);
  }

  // ---------- the client's buckets ----------

  lemma RequestsLeft(limits: string -> real, w: World, calls: seq<Call>)
    requires Sane(limits) && WellFormed(w) && Forward(calls)
    ensures calls == [] ==> Requests(limits, w, calls) == [] && Left(limits, w, calls) == w
    ensures calls != [] ==>
      (&& Forward(calls[1..])
       && Requests(limits, w, calls)
          == [TimesOf(limits, w, calls[0])] + Requests(limits, Served(limits, w, calls[0]), calls[1..])
       && Left(limits, w, calls) == Left(limits, Served(limits, w, calls[0]), calls[1..]))
  {
    hide TimesOf, Served, WellFormed, Sane;
  }

  lemma IdleIsReady(limits: string -> real, w: World, c: Call)
    requires Sane(limits) && WellFormed(w) && c.idle >= 0.0
    ensures Ready(w.global, w.now + c.idle)
    ensures Ready(BucketOf(limits, w.(now := w.now + c.idle), c.ep, w.now + c.idle), w.now + c.idle)
  {
    BucketIsReady(limits, w, c.ep, w.now + c.idle);
  }

  lemma ServedIs(limits: string -> real, w: World, c: Call, r: Request, made: State, next: World)
    requires Sane(limits) && WellFormed(w) && c.idle >= 0.0
    requires made == BucketOf(limits, w.(now := w.now + c.idle), c.ep, w.now + c.idle) && r == Request(c.ep, r.taken, r.at)
    requires r.taken == w.now + c.idle + WaitFor(made, w.now + c.idle, 1.0) && r.at == r.taken + WaitFor(w.global, r.taken, 1.0)
    requires next == World(r.at, Taken(w.global, r.at, 1.0),
                           w.buckets[c.ep := made][c.ep := Taken(made, r.taken, 1.0)])
    ensures r == TimesOf(limits, w, c) && next == Served(limits, w, c) && WellFormed(next)
  {
    hide WaitFor, Taken, Available, Ready;
    UpdatedTwice(w.buckets, c.ep, made, Taken(made, r.taken, 1.0));
  }

  lemma UpdatedTwice<K, V>(m: map<K, V>, k: K, v: V, w: V)
    ensures m[k := v][k := w] == m[k := w]
  {
  }

  /** The rate limiter of one client: every bucket on one clock. */
  class Limiter {
    const limits: string -> real
    const clock: Watchdog.ManualClock
    const global: TokenBucket
    var buckets: map<string, TokenBucket>

    ghost predicate Valid()
      reads this, clock, global, buckets.Values
    {
      Linked() && Sane(limits) && WellFormed(View())
    }

    /** One clock, and no bucket shared. */
    ghost predicate Linked()
      reads this, global, buckets.Values
    {
      && global.clock == clock
      && (forall ep <- buckets :: buckets[ep] != global && buckets[ep].clock == clock)
      && (forall ep <- buckets, other <- buckets :: buckets[ep] == buckets[other] ==> ep == other)
    }

    ghost function View(): World
      reads this, clock, global, buckets.Values
    {
      World(clock.mono, global.Abs(), map ep <- buckets :: buckets[ep].Abs())
    }

    /** The global bucket starts full, and no endpoint has one yet. */
    constructor (limits: string -> real, ceiling: real, clock: Watchdog.ManualClock)
      requires Sane(limits) && ceiling >= 1.0
      ensures Valid() && fresh(global) && this.limits == limits && this.clock == clock && buckets == map[]
      ensures View() == World(clock.mono, Full(ceiling, clock.mono), map[])
    {
      this.limits, this.clock, buckets := limits, clock, map[];
      global := new TokenBucket(ceiling, ceiling, clock);
    }

    /** The endpoint's bucket, made full at its first use. */
    method BucketFor(ep: string) returns (bucket: TokenBucket)
      requires Linked() && Sane(limits)
      modifies this`buckets
      ensures Linked() && ep in buckets && buckets[ep] == bucket
      ensures if ep in old(buckets) then buckets == old(buckets) else fresh(bucket) && buckets == old(buckets)[ep := bucket]
      ensures fresh(buckets.Values - old(buckets.Values))
      ensures bucket.Abs() == BucketOf(limits, old(View()), ep, clock.mono)
      ensures View() == old(View()).(buckets := old(View()).buckets[ep := bucket.Abs()])
    {
      if ep in buckets {
        bucket := buckets[ep];
      } else {
        bucket := new TokenBucket(limits(ep), limits(ep), clock);
        buckets := buckets[ep := bucket];
      }
    }

    /** The endpoint's token, then the global one. */
    method Pass(ep: string) returns (r: Request)
      requires Linked() && ep in buckets && Ready(buckets[ep].Abs(), clock.mono) && Ready(global.Abs(), clock.mono)
      modifies buckets[ep], global, clock
      ensures Linked() && r == Request(ep, r.taken, clock.mono)
      ensures r.taken == old(clock.mono) + WaitFor(old(buckets[ep].Abs()), old(clock.mono), 1.0)
      ensures r.at == r.taken + WaitFor(old(global.Abs()), r.taken, 1.0)
      ensures View() == World(r.at, Taken(old(global.Abs()), r.at, 1.0),
                              old(View()).buckets[ep := Taken(old(buckets[ep].Abs()), r.taken, 1.0)])
    {
      hide WaitFor, Taken, Available;
      var waited, taken := Throttle(buckets[ep], global);
      r := Request(ep, taken, clock.mono);
      assert View().buckets == old(View()).buckets[ep := buckets[ep].Abs()];
    }

    /** One call, some time after the last. */
    method Serve(c: Call) returns (r: Request)
      requires Valid() && c.idle >= 0.0
      modifies this, clock, global, buckets.Values
      ensures Valid() && fresh(buckets.Values - old(buckets.Values))
      ensures r == TimesOf(limits, old(View()), c) && View() == Served(limits, old(View()), c)
    {
      hide WaitFor, Taken, Available, Ready, WellFormed, TimesOf, Served, BucketOf, Sane;
      ghost var was := View();
      IdleIsReady(limits, was, c);
      clock.Advance(c.idle);
      assert View() == was.(now := was.now + c.idle);
      var bucket := BucketFor(c.ep);
      ghost var made := bucket.Abs();
      r := Pass(c.ep);
      ServedIs(limits, was, c, r, made, View());
    }

    /** Calls one after another, to any endpoints. */
    method ServeAll(calls: seq<Call>) returns (rs: seq<Request>)
      requires Valid() && Forward(calls)
      modifies this, clock, global, buckets.Values
      ensures Valid() && fresh(buckets.Values - old(buckets.Values))
      ensures rs == Requests(limits, old(View()), calls) && View() == Left(limits, old(View()), calls)
    {
      hide TimesOf, Served, Requests, Left, WellFormed;
      ghost var was := View();
      rs := [];
      for k := 0 to |calls|
        invariant Valid() && fresh(buckets.Values - old(buckets.Values)) && Forward(calls[k..])
        invariant rs + Requests(limits, View(), calls[k..]) == Requests(limits, was, calls)
        invariant Left(limits, View(), calls[k..]) == Left(limits, was, calls)
      {
        RequestsLeft(limits, View(), calls[k..]);
        ghost var rest := Requests(limits, Served(limits, View(), calls[k]), calls[k + 1..]);
        var r := Serve(calls[k]);
        Lists.Associates(rs, [r], rest);
        rs := rs + [r];
      }
      RequestsLeft(limits, View(), calls[|calls|..]);
    }
  }

  // ---------- whole runs that obey ----------

  /** None of the endpoint's requests leaves ahead of its bucket. */
  ghost predicate NoneAhead(limits: string -> real, w: World, calls: seq<Call>, ep: string)
    requires Sane(limits) && WellFormed(w) && Forward(calls)
    decreases |calls|
  {
    calls == [] ||
    (&& (calls[0].ep == ep ==> !Ahead(Served(limits, w, calls[0]), ep))
     && NoneAhead(limits, Served(limits, w, calls[0]), calls[1..], ep))
  }

  lemma {:induction false} PrefixOfRun(limits: string -> real, w: World, calls: seq<Call>, m: nat)
    requires Sane(limits) && WellFormed(w) && Forward(calls) && m <= |calls|
    ensures Forward(calls[..m]) && |Requests(limits, w, calls)| == |calls|
    ensures Requests(limits, w, calls[..m]) == Requests(limits, w, calls)[..m]
    decreases |calls|
  {
    hide TimesOf, Served, WellFormed, Sane, Requests;
    RequestsLeft(limits, w, calls);
    RequestsLeft(limits, w, calls[..m]);
    if calls != [] {
      var next := Served(limits, w, calls[0]);
      var r, rest := TimesOf(limits, w, calls[0]), Requests(limits, next, calls[1..]);
      if m > 0 {
        PrefixOfRun(limits, next, calls[1..], m - 1);
        assert calls[..m][1..] == calls[1..][..m - 1] && calls[..m][0] == calls[0];
        assert ([r] + rest)[..m] == [r] + rest[..m - 1];
      } else {
        PrefixOfRun(limits, next, calls[1..], 0);
      }
    }
  }

  /** The first `j` own requests are those of some prefix. */
  lemma {:induction false} PrefixWith(rs: seq<Request>, ep: string, j: nat) returns (m: nat)
    requires j <= |OwnOf(rs, ep)|
    ensures m <= |rs| && OwnOf(rs[..m], ep) == OwnOf(rs, ep)[..j]
    decreases |rs|
  {
    if j == 0 {
      m := 0;
    } else {
      var own := if rs[0].ep == ep then 1 else 0;
      m := PrefixWith(rs[1..], ep, j - own);
      m := m + 1;
      assert rs[..m][1..] == rs[1..][..m - 1] && rs[..m][0] == rs[0];
      assert own == 1 ==> ([rs[0]] + OwnOf(rs[1..], ep))[..j] == [rs[0]] + OwnOf(rs[1..], ep)[..j - 1];
      assert own == 0 ==> [] + OwnOf(rs[1..], ep) == OwnOf(rs[1..], ep);
    }
  }

  lemma NeverExceeds(limits: string -> real, before: World, c: Call, calls: seq<Call>)
    requires Sane(limits) && WellFormed(before) && c.idle >= 0.0
    requires !Ahead(Served(limits, before, c), c.ep)
    ensures var w, ep := Served(limits, before, c), c.ep; ep in w.buckets && !Exceeds(limits, w, ep, calls)
  {
    hide Served, WellFormed, Sane, Available, Exceeds;
    ExceedsIff(limits, before, c);
  }

  /** The window from an earlier request to the `j`-th of these fits the bound. */
  ghost predicate Fits(own: seq<Request>, i: nat, j: nat, burst: real, rate: real)
    requires i <= j < |own|
  {
    j as real - i as real + 1.0 <= burst + Mul(own[j].at - own[i].at, rate)
  }

  lemma FitsFromFirst(e: State, r: Request, own: seq<Request>, j: nat)
    requires j < |own| && !ExceedsBy(e, r.at, own[..j + 1], 0)
    ensures Fits([r] + own, 0, j + 1, e.capacity, e.rate)
  {
    hide Mul;
    assert own[..j + 1][j] == own[j] == ([r] + own)[j + 1];
  }

  lemma FitsOneLater(r: Request, own: seq<Request>, i: nat, j: nat, burst: real, rate: real)
    requires i <= j < |own| && Fits(own, i, j, burst, rate)
    ensures Fits([r] + own, i + 1, j + 1, burst, rate)
  {
    hide Mul;
    assert ([r] + own)[j + 1] == own[j] && ([r] + own)[i + 1] == own[i];
  }

  lemma FitsAlone(own: seq<Request>, burst: real, rate: real)
    requires own != [] && burst >= 1.0
    ensures Fits(own, 0, 0, burst, rate)
  {
    hide Mul;
    MulUnits(rate);
  }

  /** A window from the request just made to a later one of its endpoint. */
  lemma FromHere(limits: string -> real, before: World, c: Call, calls: seq<Call>, r: Request, j: nat)
    requires Sane(limits) && WellFormed(before) && c.idle >= 0.0 && Forward(calls)
    requires !Ahead(Served(limits, before, c), c.ep) && r.at == Served(limits, before, c).now
    requires j < |OwnOf(Requests(limits, Served(limits, before, c), calls), c.ep)|
    ensures var w, ep := Served(limits, before, c), c.ep;
      Fits([r] + OwnOf(Requests(limits, w, calls), ep), 0, j + 1, BurstOf(limits, w, ep), RateOf(limits, w, ep))
  {
    hide Requests, OwnOf, Served, WellFormed, Sane, Mul, Available, Ahead, Fits, ExceedsBy;
    var w, ep := Served(limits, before, c), c.ep;
    var rs := Requests(limits, w, calls);
    var m := PrefixWith(rs, ep, j + 1);
    PrefixOfRun(limits, w, calls, 0);
    PrefixOfRun(limits, w, calls, m);
    NeverExceeds(limits, before, c, calls[..m]);
    FitsFromFirst(w.buckets[ep], r, OwnOf(rs, ep), j);
  }

  /** If none leaves ahead, every window of the endpoint's requests obeys its bound, with the requests of
      any other endpoints in between. */
  lemma {:induction false} RunObeys(limits: string -> real, w: World, calls: seq<Call>, ep: string, i: nat, j: nat)
    requires Sane(limits) && WellFormed(w) && Forward(calls) && NoneAhead(limits, w, calls, ep)
    requires i <= j < |OwnOf(Requests(limits, w, calls), ep)|
    ensures Fits(OwnOf(Requests(limits, w, calls), ep), i, j, BurstOf(limits, w, ep), RateOf(limits, w, ep))
    decreases |calls|
  {
    hide Requests, OwnOf, Served, TimesOf, WellFormed, Sane, Mul, Ahead, Taken, Allowed, Fits, BurstOf, RateOf;
    if calls == [] {
      NoRequests(limits, w, ep);
    } else {
      var c := calls[0];
      var next := Served(limits, w, c);
      RequestsUnfold(limits, w, calls, ep);
      ServedBuckets(limits, w, c);
      SameLimits(limits, w, c, ep);
      var r, own := TimesOf(limits, w, c), OwnOf(Requests(limits, next, calls[1..]), ep);
      if c.ep != ep {
        RunObeys(limits, next, calls[1..], ep, i, j);
      } else if i > 0 {
        RunObeys(limits, next, calls[1..], ep, i - 1, j - 1);
        FitsOneLater(r, own, i - 1, j - 1, BurstOf(limits, w, ep), RateOf(limits, w, ep));
      } else if j > 0 {
        FromHere(limits, w, c, calls[1..], r, j - 1);
      } else {
        FitsAlone([r] + own, BurstOf(limits, w, ep), RateOf(limits, w, ep));
      }
    }
  }

  /** A call changes no endpoint's rate or burst. */
  lemma SameLimits(limits: string -> real, w: World, c: Call, ep: string)
    requires Sane(limits) && WellFormed(w) && c.idle >= 0.0
    ensures var next := Served(limits, w, c);
      RateOf(limits, next, ep) == RateOf(limits, w, ep) && BurstOf(limits, next, ep) == BurstOf(limits, w, ep) >= 1.0
  {
    ServedBuckets(limits, w, c);
    hide Served, TimesOf, Available;
  }

  /** So an endpoint at least as fast as the global ceiling never exceeds its bound, however much it waits. */
  lemma FastEndpointObeys(limits: string -> real, w: World, calls: seq<Call>, ep: string)
    requires Sane(limits) && WellFormed(w) && Forward(calls) && RateOf(limits, w, ep) >= w.global.rate
    ensures NoneAhead(limits, w, calls, ep)
    ensures Obeys(Ats(OwnOf(Requests(limits, w, calls), ep)), BurstOf(limits, w, ep), RateOf(limits, w, ep))
  {
    hide Requests, OwnOf, WellFormed, Sane, NoneAhead, Fits, Obeys, BurstOf;
    FastIsNeverAhead(limits, w, calls, ep);
    var own := OwnOf(Requests(limits, w, calls), ep);
    forall i, j | 0 <= i <= j < |own|
      ensures Fits(own, i, j, BurstOf(limits, w, ep), RateOf(limits, w, ep))
    {
      RunObeys(limits, w, calls, ep, i, j);
    }
    AllFit(own, BurstOf(limits, w, ep), RateOf(limits, w, ep));
  }

  lemma AllFit(own: seq<Request>, burst: real, rate: real)
    requires forall i, j :: 0 <= i <= j < |own| ==> Fits(own, i, j, burst, rate)
    ensures Obeys(Ats(own), burst, rate)
  {
    hide Mul;
    forall i, j | 0 <= i <= j < |own|
      ensures (j - i + 1) as real <= burst + Mul(Ats(own)[j] - Ats(own)[i], rate)
    {
      assert Fits(own, i, j, burst, rate);
      assert (j - i + 1) as real == j as real - i as real + 1.0;
    }
  }

  lemma {:induction false} FastIsNeverAhead(limits: string -> real, w: World, calls: seq<Call>, ep: string)
    requires Sane(limits) && WellFormed(w) && Forward(calls) && RateOf(limits, w, ep) >= w.global.rate
    ensures NoneAhead(limits, w, calls, ep)
    decreases |calls|
  {
    if calls != [] {
      SameLimits(limits, w, calls[0], ep);
      ServedBuckets(limits, w, calls[0]);
      hide Served, TimesOf, Available, WellFormed, Sane;
      FastIsNeverAhead(limits, Served(limits, w, calls[0]), calls[1..], ep);
    }
  }

  // ---------- a run that exceeds ----------

  /** Ten a second for orders and one a second for positions. */
  function TwoLimits(ep: string): real { if ep == "positions" then 1.0 else 10.0 }

  /** A call that finds a token in both buckets leaves at once. */
  lemma LeavesAtOnce(limits: string -> real, w: World, c: Call)
    requires Sane(limits) && WellFormed(w) && c.idle == 0.0
    requires BucketOf(limits, w, c.ep, w.now).updated == w.now == w.global.updated
    requires BucketOf(limits, w, c.ep, w.now).tokens >= 1.0 && w.global.tokens >= 1.0
    ensures var e := BucketOf(limits, w, c.ep, w.now);
      && TimesOf(limits, w, c) == Request(c.ep, w.now, w.now)
      && Served(limits, w, c)
         == World(w.now, w.global.(tokens := w.global.tokens - 1.0), w.buckets[c.ep := e.(tokens := e.tokens - 1.0)])
  {
    AvailableNow(BucketOf(limits, w, c.ep, w.now));
    AvailableNow(w.global);
    BucketIsReady(limits, w, c.ep, w.now);
    hide Available;
  }

  /** A ceiling of eight, after `k` orders at the first instant. */
  ghost predicate Emptying(w: World, k: nat) {
    && k <= 8 && WellFormed(w) && w.now == 0.0 && w.global == State(8.0, 8.0, 8.0 - k as real, 0.0)
    && "positions" !in w.buckets
    && BucketOf(TwoLimits, w, "place_order", 0.0) == State(10.0, 10.0, 10.0 - k as real, 0.0)
  }

  lemma OneOrderLess(w: World, k: nat)
    requires k < 8 && Emptying(w, k)
    ensures Sane(TwoLimits) && Emptying(Served(TwoLimits, w, Call(0.0, "place_order")), k + 1)
  {
    LeavesAtOnce(TwoLimits, w, Call(0.0, "place_order"));
    hide TimesOf, Served, Ready;
  }

  lemma TwoPositions(w: World)
    requires Emptying(w, 8)
    ensures Sane(TwoLimits)
    ensures var c := Call(0.0, "positions"); var next := Served(TwoLimits, w, c);
      && TimesOf(TwoLimits, w, c) == Request("positions", 0.0, 0.125)
      && TimesOf(TwoLimits, next, c) == Request("positions", 1.0, 1.0)
  {
    var c := Call(0.0, "positions");
    var next := Served(TwoLimits, w, c);
    assert Available(State(1.0, 1.0, 1.0, 0.0), 0.0) == 1.0 && Available(State(8.0, 8.0, 0.0, 0.0), 0.0) == 0.0;
    assert Available(State(8.0, 8.0, 0.0, 0.0), 0.125) == 1.0;
    assert next.now == 0.125 && next.global == State(8.0, 8.0, 0.0, 0.125);
    assert next.buckets["positions"] == State(1.0, 1.0, 0.0, 0.0);
    assert Available(State(1.0, 1.0, 0.0, 0.0), 0.125) == 0.125;
    assert Available(State(8.0, 8.0, 0.0, 0.125), 1.0) == 7.0;
  }

  /** With a ceiling of eight, eight orders at one instant empty the global bucket.  A first position
      call then waits an eighth of a second for a token of it; the next leaves when its own bucket has
      the next token, seven eighths later: two in less than a second from a bucket of one. */
  method TwoPositionsInLessThanASecond() returns (first: Request, second: Request)
    ensures first == Request("positions", 0.0, 0.125) && second == Request("positions", 1.0, 1.0)
    ensures !Obeys([first.at, second.at], 1.0, 1.0)
  {
    hide TimesOf, Served, Emptying, WellFormed, Sane, Limiter.Linked, Mul;
    var clock := new Watchdog.ManualClock(0.0, 0.0);
    FullIsEmptying();
    var limiter := new Limiter(TwoLimits, 8.0, clock);
    for k := 0 to 8
      invariant limiter.Valid() && limiter.limits == TwoLimits
      invariant fresh(limiter) && fresh(limiter.clock) && fresh(limiter.global) && fresh(limiter.buckets.Values)
      invariant Emptying(limiter.View(), k)
    {
      OneOrderLess(limiter.View(), k);
      var order := limiter.Serve(Call(0.0, "place_order"));
    }
    TwoPositions(limiter.View());
    first := limiter.Serve(Call(0.0, "positions"));
    second := limiter.Serve(Call(0.0, "positions"));
    TwoInSevenEighths();
  }

  lemma FullIsEmptying()
    ensures Sane(TwoLimits) && Emptying(World(0.0, Full(8.0, 0.0), map[]), 0)
  {
  }

  lemma TwoInSevenEighths()
    ensures !Obeys([0.125, 1.0], 1.0, 1.0)
  {
    var times := [0.125, 1.0];
    assert (1 - 0 + 1) as real > 1.0 + Mul(times[1] - times[0], 1.0);
  }
}
