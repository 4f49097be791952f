/** What holds whatever a fair broker answers, and the condition on the call under which it does. */
module AnyBroker {
  import opened Options
  import opened Wire
  import opened Client
  import opened Executor
  import opened SquareOffPass
  import opened EntryOrders
  import Builder

  /** The same office, its broker answering request number i with `network(i)`. */
  function WithNetwork(o: Office, network: nat -> Exchange): Office { o.(setup := o.setup.(network := network)) }

  // ---------- a refused exit ----------

  ghost predicate RefusedStaysFree(o: Office, d: Desk, payload: Payload)
    requires payload.Market?
  {
    var exit := ExitPlaced(o, d, payload);
    o.setup.Fair() && RefusedLast(Own(exit.sent, PlaceOrder)) ==> payload.key !in exit.desk.attempted
  }

  /** Request number n is refused as token-expired; nothing else is ever answered. */
  function SilentAfterExpiry(n: nat): nat -> Exchange {
    (i: nat) => Exchange(if i == n then Json(false, true, 401, Null) else Lost, false)
  }

  lemma RefreshUnanswered(b: Setup, s: Session)
    requires b.network(s.requests) == Exchange(Lost, false)
    ensures Renewed(b, s) == Ran(Counted(s), [Request(b, s, Refresh, Credentials)], Err(UnknownOutcome))
  {
  }

  /** An expired refusal, then a refresh without an answer, whatever the retry budget. */
  lemma ExpiredThenLost(b: Setup, s: Session, payload: Payload)
    requires s.refresh && b.network == SilentAfterExpiry(s.requests)
    ensures FullCall(b, s, PlaceOrder, payload)
         == Ran(Counted(Counted(s)),
                [Sent(PlaceOrder, payload, Exchange(Json(false, true, 401, Null), false)),
                 Sent(Refresh, Credentials, Exchange(Lost, false))], Err(UnknownOutcome))
  {
    RefreshUnanswered(b, Counted(s));
    hide Renewed;
    var first := PlainCall(b, s, PlaceOrder, payload, 0);
    assert first.sent == [Request(b, s, PlaceOrder, payload)];
  }

  lemma OwnOfTwo(e: Event, f: Event, ep: Endpoint)
    requires e.Sent? && e.ep == ep && f.Sent? && f.ep != ep
    ensures Own([e, f], ep) == [e.exchange]
  {
    assert [e, f][..1] == [e] && [e][..0] == [];
    assert Own([e], ep) == Own([], ep) + [e.exchange];
  }

  /** Every fair LIVE broker leaves a refused exit free for another try exactly when no refresh token is
      held as it is placed. */
  lemma RefusedExitStaysFreeIff(o: Office, d: Desk, payload: Payload)
    requires o.setup.live && payload.Market? && payload.key !in d.attempted
    ensures !d.session.refresh <==> forall network :: RefusedStaysFree(WithNetwork(o, network), d, payload)
  {
    hide ExitPlaced, FullCall, Own;
    if d.session.refresh {
      RefusedAndLatched(o, d, payload);
      assert !RefusedStaysFree(WithNetwork(o, SilentAfterExpiry(d.session.requests)), d, payload);
    } else {
      forall network
        ensures RefusedStaysFree(WithNetwork(o, network), d, payload)
      {
        var at := WithNetwork(o, network);
        if at.setup.Fair() && RefusedLast(Own(ExitPlaced(at, d, payload).sent, PlaceOrder)) {
          RefusedExitIsFreeWithoutToken(at, d, payload);
        }
      }
    }
  }

  lemma RefusedAndLatched(o: Office, d: Desk, payload: Payload)
    requires o.setup.live && payload.Market? && payload.key !in d.attempted && d.session.refresh
    ensures !RefusedStaysFree(WithNetwork(o, SilentAfterExpiry(d.session.requests)), d, payload)
  {
    var at := WithNetwork(o, SilentAfterExpiry(d.session.requests));
    ExpiredThenLost(at.setup, d.session, payload);
    hide FullCall, Own;
    var sent := ExitPlaced(at, d, payload).sent;
    OwnOfTwo(sent[0], sent[1], PlaceOrder);
  }

  // ---------- the report of an exit ----------

  /** No answer of the broker is reported as rejected; only a symbol that is not on the watchlist is. */
  lemma RejectedIff(o: Office, d: Desk, symbol: string, long: bool)
    ensures ExitExecuted(o, d, symbol, long).value.Rejected()
       <==> symbol in d.registry && KeyFor(o.watchlist, symbol) !in d.attempted && FindItem(o.watchlist, symbol).None?
  {
    hide ExitPlaced;
  }

  /** A LIVE exit that the broker refused: raised as an error if it stays free, suppressed if it is latched. */
  lemma RefusedExitIsRaised(o: Office, d: Desk, symbol: string, long: bool)
    requires o.setup.Fair() && o.setup.live && o.live && symbol in d.registry
    requires KeyFor(o.watchlist, symbol) !in d.attempted && FindItem(o.watchlist, symbol).Some?
    requires RefusedLast(Own(ExitExecuted(o, d, symbol, long).sent, PlaceOrder))
    ensures var done := ExitExecuted(o, d, symbol, long);
      if KeyFor(o.watchlist, symbol) in done.desk.attempted then done.value == Suppressed
      else done.value.Raised? && !done.value.kind.UnknownOutcome?
  {
    var item := FindItem(o.watchlist, symbol).value;
    var payload := ProtectiveExit(item, d.registry[symbol], long);
    RefusedIsUnknownIff(o.setup, d.session, PlaceOrder, payload);
    hide FullCall, Own, Acted, EndsInDoubt, FirstExpired, Renews, Renewal;
  }

  // ---------- what an entry records ----------

  ghost predicate RecordsAccepted(o: Office, d: Desk, symbol: string, instrument: string, legs: seq<Builder.LegPlan>)
    requires legs != []
  {
    var results, after := LegsSent(o, d, instrument, legs).value, Opened(o, d, symbol, instrument, legs, true, symbol).desk;
    o.setup.Fair() && AnyAccepted(results) ==>
      symbol in after.registry && after.registry[symbol].quantity == AcceptedQuantity(results)
  }

  /** Request number n is accepted and every other one refused. */
  function AcceptsOnly(n: nat): nat -> Exchange {
    (i: nat) => if i == n then Exchange(Json(true, false, 200, OtherData), true)
                else Exchange(Json(false, false, 400, Null), false)
  }

  ghost predicate NoneSane(legs: seq<Builder.LegPlan>) { forall leg <- legs :: !Builder.PayloadSane(leg) }

  /** All legs were tried, and just the first sane one, if there is one, was accepted. */
  ghost predicate OneAccepted(d: Desk, legs: seq<Builder.LegPlan>, done: Done<seq<LegResult>>) {
    && |done.value| == |legs| && (forall r <- done.value :: !r.unknown)
    && (NoneSane(legs) ==> Accepted(done.value) == 0 && done.desk.session == d.session)
    && (!NoneSane(legs) ==> Accepted(done.value) == 1 && done.desk.session.requests > d.session.requests)
  }

  lemma {:induction false} OnlyOneAccepted(o: Office, d: Desk, instrument: string, legs: seq<Builder.LegPlan>)
    requires o.setup.live && o.setup.network == AcceptsOnly(d.session.requests)
    ensures OneAccepted(d, legs, LegsSent(o, d, instrument, legs))
  {
    hide LegSent, Builder.PayloadSane, OneAccepted;
    if legs == [] {
      NoneTried(d);
    } else {
      var init, leg := legs[..|legs| - 1], legs[|legs| - 1];
      OnlyOneAccepted(o, d, instrument, init);
      assert legs == init + [leg];
      OneLegMore(o, d, instrument, init, leg, LegsSent(o, d, instrument, init));
      hide LegsSent;
    }
  }

  lemma NoneTried(d: Desk)
    ensures OneAccepted(d, [], Done(d, [], []))
  {
  }

  lemma NoneSaneSnoc(init: seq<Builder.LegPlan>, leg: Builder.LegPlan)
    ensures NoneSane(init + [leg]) <==> NoneSane(init) && !Builder.PayloadSane(leg)
  {
    hide Builder.PayloadSane;
    assert (init + [leg])[|init|] == leg;
    assert forall x <- init :: x in init + [leg];
  }

  lemma OneLegMore(o: Office, d: Desk, instrument: string, init: seq<Builder.LegPlan>, leg: Builder.LegPlan,
                   most: Done<seq<LegResult>>)
    requires o.setup.live && o.setup.network == AcceptsOnly(d.session.requests) && OneAccepted(d, init, most)
    ensures !StopsAfter(most.value)
    ensures var last := LegSent(o, most.desk, instrument, leg);
      OneAccepted(d, init + [leg], Done(last.desk, most.sent + last.sent, most.value + [last.value]))
  {
    hide Builder.PayloadSane, FullCall, NoneSane;
    NoneSaneSnoc(init, leg);
    var payload := BracketFor(instrument, leg);
    if NoneSane(init) {
      OneRequest(o.setup, most.desk.session, PlaceOrder, payload);
    } else {
      OneRefusal(o.setup, most.desk.session, PlaceOrder, payload);
    }
    CountsSnoc(most.value, LegSent(o, most.desk, instrument, leg).value);
  }

  lemma {:induction false} AcceptedCounts(results: seq<LegResult>)
    ensures Accepted(results) <= |results|
    ensures Accepted(results) > 0 <==> AnyAccepted(results)
    ensures Accepted(results) == |results| <==> forall r <- results :: r.accepted
  {
    if results != [] {
      var init, last := results[..|results| - 1], results[|results| - 1];
      assert results == init + [last] && last in results;
      AcceptedCounts(init);
      assert forall r <- init :: r in results;
    }
  }

  /** Every fair LIVE broker leaves an entry recorded with exactly the quantity it accepted, if and only if
      the plan has one leg or the payload guard refuses all of them. */
  lemma EntryRecordsAcceptedOnEveryBrokerIff(o: Office, d: Desk, symbol: string, instrument: string,
                                             legs: seq<Builder.LegPlan>)
    requires o.setup.live && o.live && legs != [] && forall leg <- legs :: leg.quantity > 0
    ensures |legs| == 1 || NoneSane(legs)
       <==> forall network :: RecordsAccepted(WithNetwork(o, network), d, symbol, instrument, legs)
  {
    hide LegsSent, Opened, NoneSane, RecordsAccepted, Builder.PayloadSane;
    if |legs| == 1 || NoneSane(legs) {
      forall network
        ensures RecordsAccepted(WithNetwork(o, network), d, symbol, instrument, legs)
      {
        RecordedOnOne(WithNetwork(o, network), d, symbol, instrument, legs);
      }
    } else {
      RecordedBeyond(WithNetwork(o, AcceptsOnly(d.session.requests)), d, symbol, instrument, legs);
    }
  }

  lemma RecordedOnOne(o: Office, d: Desk, symbol: string, instrument: string, legs: seq<Builder.LegPlan>)
    requires o.setup.live && o.live && legs != [] && forall leg <- legs :: leg.quantity > 0
    requires |legs| == 1 || NoneSane(legs)
    ensures RecordsAccepted(o, d, symbol, instrument, legs)
  {
    hide LegsSent, Opened, Builder.PayloadSane;
    if o.setup.Fair() {
      EntryRecordsAcceptedIff(o, d, symbol, instrument, legs);
      var at := LegsGoOutInOrder(o, d, instrument, legs);
      var results := LegsSent(o, d, instrument, legs).value;
      assert forall i :: 0 <= i < |results| ==> ResultFits(legs[i], results[i]);
    }
  }

  lemma RecordedBeyond(o: Office, d: Desk, symbol: string, instrument: string, legs: seq<Builder.LegPlan>)
    requires o.setup.live && o.live && |legs| > 1 && !NoneSane(legs) && forall leg <- legs :: leg.quantity > 0
    requires o.setup.network == AcceptsOnly(d.session.requests)
    ensures !RecordsAccepted(o, d, symbol, instrument, legs)
  {
    hide LegsSent, Opened, NoneSane, Accepted;
    OnlyOneAccepted(o, d, instrument, legs);
    AcceptedCounts(LegsSent(o, d, instrument, legs).value);
    EntryRecordsAcceptedIff(o, d, symbol, instrument, legs);
  }

  // ---------- a PAPER entry that raises ----------

  /** The largest target distance of a built plan's legs. */
  function Farthest(p: Builder.Plan): real {
    if |p.legs| > 1 then p.geometry.t2Offset else p.geometry.t1Offset
  }

  /** Some leg of a built plan is refused by the payload guard exactly when its farthest target or its
      trailing step lies more than two fifths of the entry away. */
  lemma BuiltPlanIsInsaneIff(cfg: Builder.Config, i: Builder.Intent, headroom: real)
    requires Builder.BuildPlan(cfg, i, headroom).Ok?
    ensures var p := Builder.BuildPlan(cfg, i, headroom).value;
      p.legs != [] && ((exists leg <- p.legs :: !Builder.PayloadSane(leg))
                       <==> Farthest(p) > 0.4 * p.geometry.entry || p.geometry.trailStep > 0.4 * p.geometry.entry)
  {
    var p := Builder.BuildPlan(cfg, i, headroom).value;
    var item := Builder.FindSymbol(cfg.watchlist, i.symbol).value;
    Builder.PlanIsSound(cfg, i, headroom);
    Builder.GeometryHolds(i.side, i.entry, i.atr, item.tick, cfg.trail);
    hide Builder.Geometrise, Builder.Size, Builder.Budget, Builder.TotalQuantity, Builder.TotalRisk;
    var (lotsA, lotsB) := Builder.SplitLots(p.sizing.lots);
    Builder.SizeIsLargestAffordable(p.geometry.risk, p.sizing.budget, item.lotSize);
    Builder.SplitConserves(p.sizing.lots);
    Builder.LotProduct(lotsA, lotsB, item.lotSize);
    hide Builder.SplitLots;
    LegsInsaneIff(p.geometry, lotsA * item.lotSize, lotsB * item.lotSize);
  }

  lemma LegsInsaneIff(g: Builder.Geometry, a: int, b: int)
    requires a > 0 && g.risk > 0.0 && g.trailStep > 0.0 && g.t1Offset >= 1.5 * g.risk && g.t2Offset == g.t1Offset + g.risk
    ensures var legs := Builder.LegsOf(g, a, b); var far := if |legs| > 1 then g.t2Offset else g.t1Offset;
      (exists leg <- legs :: !Builder.PayloadSane(leg)) <==> far > 0.4 * g.entry || g.trailStep > 0.4 * g.entry
  {
    var legs := Builder.LegsOf(g, a, b);
    var last := legs[|legs| - 1];
    assert last in legs && legs[0] in legs;
  }

  /** A PAPER entry raises exactly when it is authorised and the guard refuses one of its legs; then
      nothing is recorded.  In LIVE it never does. */
  lemma PaperRaisesIff(o: Office, d: Desk, symbol: string, instrument: string, legs: seq<Builder.LegPlan>,
                       allowed: bool, authorised: string)
    ensures var done := Opened(o, d, symbol, instrument, legs, allowed, authorised);
      && (done.value.OffsetsInsane? <==>
            !o.live && allowed && authorised == symbol && exists leg <- legs :: !Builder.PayloadSane(leg))
      && (done.value.OffsetsInsane? ==> done.desk == d && done.sent == [])
  {
    hide Builder.PayloadSane, LegsSent;
  }

  /** So for a built plan: the farthest target or the trailing step decides. */
  lemma BuiltPlanRaisesIff(o: Office, d: Desk, instrument: string, cfg: Builder.Config, i: Builder.Intent, headroom: real)
    requires !o.live && Builder.BuildPlan(cfg, i, headroom).Ok?
    ensures var p := Builder.BuildPlan(cfg, i, headroom).value;
      Opened(o, d, i.symbol, instrument, p.legs, true, i.symbol).value.OffsetsInsane?
      <==> Farthest(p) > 0.4 * p.geometry.entry || p.geometry.trailStep > 0.4 * p.geometry.entry
  {
    BuiltPlanIsInsaneIff(cfg, i, headroom);
    hide Builder.BuildPlan, Opened, Builder.PayloadSane;
    PaperRaisesIff(o, d, i.symbol, instrument, Builder.BuildPlan(cfg, i, headroom).value.legs, true, i.symbol);
  }
}
