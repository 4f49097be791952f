/** What sending a bracket does: which orders go out, in which order, and what the registry then says. */
module EntryOrders {
  import opened Options
  import opened Wire
  import opened Client
  import opened Executor
  import opened SquareOffPass
  import Builder

  function Accepted(results: seq<LegResult>): nat {
    if results == [] then 0 else Accepted(results[..|results| - 1]) + if results[|results| - 1].accepted then 1 else 0
  }

  function Unknown(results: seq<LegResult>): nat {
    if results == [] then 0 else Unknown(results[..|results| - 1]) + if results[|results| - 1].unknown then 1 else 0
  }

  lemma CountsSnoc(results: seq<LegResult>, r: LegResult)
    ensures Accepted(results + [r]) == Accepted(results) + if r.accepted then 1 else 0
    ensures Unknown(results + [r]) == Unknown(results) + if r.unknown then 1 else 0
  {
    assert (results + [r])[..|results + [r]| - 1] == results;
  }

  /** One result per leg tried, in order; a leg the payload guard refuses is neither accepted nor
      unknown; and only an unknown outcome leaves later legs untried. */
  ghost predicate LegResults(legs: seq<Builder.LegPlan>, results: seq<LegResult>) {
    && |results| <= |legs|
    && (forall i :: 0 <= i < |results| ==> ResultFits(legs[i], results[i]))
    && (forall i :: 0 <= i < |results| - 1 ==> !results[i].unknown)
    && (|results| < |legs| ==> StopsAfter(results))
  }

  ghost predicate ResultFits(leg: Builder.LegPlan, r: LegResult) {
    && r.quantity == leg.quantity && !(r.accepted && r.unknown)
    && (!Builder.PayloadSane(leg) ==> !r.accepted && !r.unknown)
  }

  predicate PlacesBracket(e: Event, payload: Payload) { e.Sent? && e.ep.PlaceOrder? && e.payload == payload }

  /** Every sane leg tried went out as its own bracket, `at[i]` says where; in the order of the legs. */
  ghost predicate InOrder(instrument: string, legs: seq<Builder.LegPlan>, sent: seq<Event>, at: seq<nat>) {
    && |at| <= |legs|
    && (forall i :: 0 <= i < |at| && Builder.PayloadSane(legs[i]) ==>
          at[i] < |sent| && PlacesBracket(sent[at[i]], BracketFor(instrument, legs[i])))
    && (forall i, j :: 0 <= i < j < |at| && Builder.PayloadSane(legs[i]) && Builder.PayloadSane(legs[j]) ==> at[i] < at[j])
  }

  /** And nothing else was ordered. */
  ghost predicate OnlyBracketsOf(instrument: string, legs: seq<Builder.LegPlan>, sent: seq<Event>) {
    forall e <- sent :: e.Sent? && (e.ep.PlaceOrder? ==> IsLegOf(instrument, legs, e.payload))
  }

  ghost predicate IsLegOf(instrument: string, legs: seq<Builder.LegPlan>, payload: Payload) {
    exists leg <- legs :: Builder.PayloadSane(leg) && payload == BracketFor(instrument, leg)
  }

  ghost predicate LegsOut(instrument: string, legs: seq<Builder.LegPlan>, sent: seq<Event>, results: seq<LegResult>, at: seq<nat>) {
    && |at| == |results| && LegResults(legs, results)
    && InOrder(instrument, legs, sent, at) && OnlyBracketsOf(instrument, legs, sent)
    && Accepted(results) <= Orders(sent) <= Accepted(results) + Unknown(results)
  }

  /** In LIVE the sane legs go out in order, each as one bracket with its side, price and distances, until
      an outcome is unknown; the effects at the broker lie between the accepted legs and those plus the
      unknown one. */
  lemma {:induction false} LegsGoOutInOrder(o: Office, d: Desk, instrument: string, legs: seq<Builder.LegPlan>)
    returns (at: seq<nat>)
    requires o.setup.Fair() && o.setup.live
    ensures var done := LegsSent(o, d, instrument, legs); LegsOut(instrument, legs, done.sent, done.value, at)
  {
    hide LegSent, LegsOut;
    if legs == [] {
      at := [];
      NoLegsOut(instrument);
    } else {
      var init, leg := legs[..|legs| - 1], legs[|legs| - 1];
      at := LegsGoOutInOrder(o, d, instrument, init);
      var most := LegsSent(o, d, instrument, init);
      assert legs == init + [leg];
      if StopsAfter(most.value) {
        OneUntried(instrument, init, leg, most.sent, most.value, at);
      } else {
        OneMoreLeg(o, most.desk, instrument, init, leg, most.sent, most.value, at);
        at := at + [|most.sent|];
      }
    }
  }

  lemma NoLegsOut(instrument: string)
    ensures LegsOut(instrument, [], [], [], [])
  {
  }

  lemma OneUntried(instrument: string, init: seq<Builder.LegPlan>, leg: Builder.LegPlan, sent: seq<Event>,
                   results: seq<LegResult>, at: seq<nat>)
    requires LegsOut(instrument, init, sent, results, at) && StopsAfter(results)
    ensures LegsOut(instrument, init + [leg], sent, results, at)
  {
    hide Builder.PayloadSane, Orders;
    OnlyMoreBrackets(instrument, init, leg, sent);
    var legs := init + [leg];
    assert forall i :: 0 <= i < |init| ==> legs[i] == init[i];
  }

  lemma OnlyMoreBrackets(instrument: string, init: seq<Builder.LegPlan>, leg: Builder.LegPlan, sent: seq<Event>)
    requires OnlyBracketsOf(instrument, init, sent)
    ensures OnlyBracketsOf(instrument, init + [leg], sent)
  {
    hide Builder.PayloadSane;
    forall e <- sent | e.ep.PlaceOrder?
      ensures IsLegOf(instrument, init + [leg], e.payload)
    {
      var l :| l in init && Builder.PayloadSane(l) && e.payload == BracketFor(instrument, l);
      assert l in init + [leg];
    }
  }

  /** What one leg sends: nothing, or its bracket first and nothing else ordered. */
  ghost predicate LegOut(instrument: string, leg: Builder.LegPlan, sent: seq<Event>, r: LegResult) {
    && ResultFits(leg, r)
    && (if Builder.PayloadSane(leg) then Routed(sent, PlaceOrder, BracketFor(instrument, leg)) else sent == [])
    && (if r.accepted then 1 else 0) <= Orders(sent) <= if r.accepted || r.unknown then 1 else 0
  }

  lemma OneLegOut(o: Office, d: Desk, instrument: string, leg: Builder.LegPlan)
    requires o.setup.Fair() && o.setup.live
    ensures var done := LegSent(o, d, instrument, leg); LegOut(instrument, leg, done.sent, done.value)
  {
    OrderedIsCarried(o.setup, d.session, PlaceOrder, BracketFor(instrument, leg));
    hide Ordered, Builder.PayloadSane, Routed;
    NoOrders([]);
  }

  lemma OneMoreLeg(o: Office, d: Desk, instrument: string, init: seq<Builder.LegPlan>, leg: Builder.LegPlan, sent: seq<Event>,
                   results: seq<LegResult>, at: seq<nat>)
    requires o.setup.Fair() && o.setup.live && LegsOut(instrument, init, sent, results, at) && !StopsAfter(results)
    ensures var last := LegSent(o, d, instrument, leg);
      LegsOut(instrument, init + [leg], sent + last.sent, results + [last.value], at + [|sent|])
  {
    var last := LegSent(o, d, instrument, leg);
    OneLegOut(o, d, instrument, leg);
    OneMoreInOrder(instrument, init, leg, sent, last.sent, last.value, at);
    OneMoreResult(init, leg, results, last.value);
    hide LegSent, InOrder, LegResults, OnlyBracketsOf, Orders, Routed, Builder.PayloadSane, ResultFits;
    CountsSnoc(results, last.value);
    OrdersConcat(sent, last.sent);
  }

  lemma OneMoreResult(init: seq<Builder.LegPlan>, leg: Builder.LegPlan, results: seq<LegResult>, r: LegResult)
    requires LegResults(init, results) && !StopsAfter(results) && ResultFits(leg, r)
    ensures LegResults(init + [leg], results + [r])
  {
    hide ResultFits;
  }

  lemma OneMoreInOrder(instrument: string, init: seq<Builder.LegPlan>, leg: Builder.LegPlan, sent: seq<Event>,
                       more: seq<Event>, r: LegResult, at: seq<nat>)
    requires InOrder(instrument, init, sent, at) && OnlyBracketsOf(instrument, init, sent) && |at| == |init|
    requires LegOut(instrument, leg, more, r)
    ensures InOrder(instrument, init + [leg], sent + more, at + [|sent|]) && OnlyBracketsOf(instrument, init + [leg], sent + more)
  {
    hide Builder.PayloadSane, Orders, ResultFits;
    OnlyMoreBrackets(instrument, init, leg, sent);
    assert leg in init + [leg];
    if more != [] {
      assert PlacesBracket((sent + more)[|sent|], BracketFor(instrument, leg));
    }
  }

  // ---------- what is recorded ----------

  function AcceptedQuantity(results: seq<LegResult>): int {
    if results == [] then 0
    else AcceptedQuantity(results[1..]) + if results[0].accepted then results[0].quantity else 0
  }

  /** The registry is given the whole plan's quantity.  That is what the broker accepted exactly when
      every leg was accepted. */
  lemma {:induction false} RecordedIsAcceptedIff(legs: seq<Builder.LegPlan>, results: seq<LegResult>)
    requires |results| <= |legs| && forall i :: 0 <= i < |results| ==> results[i].quantity == legs[i].quantity
    requires forall leg <- legs :: leg.quantity > 0
    ensures AcceptedQuantity(results) <= Builder.TotalQuantity(legs)
    ensures AcceptedQuantity(results) == Builder.TotalQuantity(legs)
       <==> |results| == |legs| && forall r <- results :: r.accepted
  {
    if results == [] {
      if legs != [] {
        RecordedIsAcceptedIff(legs[1..], []);
      }
    } else {
      RecordedIsAcceptedIff(legs[1..], results[1..]);
      assert results == [results[0]] + results[1..];
    }
  }

  /** So for an entry itself: the quantity it records equals the quantity accepted exactly when no leg was
      refused, unknown or left out. */
  lemma EntryRecordsAcceptedIff(o: Office, d: Desk, symbol: string, instrument: string, legs: seq<Builder.LegPlan>)
    requires o.setup.Fair() && o.setup.live && o.live && legs != [] && forall leg <- legs :: leg.quantity > 0
    ensures var results := LegsSent(o, d, instrument, legs).value; var done := Opened(o, d, symbol, instrument, legs, true, symbol);
      && done.value == Entered(results, false)
      && (AnyAccepted(results) ==> symbol in done.desk.registry)
      && (AnyAccepted(results) ==>
            (done.desk.registry[symbol].quantity == AcceptedQuantity(results)
             <==> |results| == |legs| && forall r <- results :: r.accepted))
      && (!AnyAccepted(results) ==> done.desk.registry == d.registry && done.desk.attempted == d.attempted)
  {
    var at := LegsGoOutInOrder(o, d, instrument, legs);
    var results := LegsSent(o, d, instrument, legs).value;
    RegistryKept(o, d, instrument, legs);
    assert forall i :: 0 <= i < |results| ==> ResultFits(legs[i], results[i]);
    hide LegsSent, LegsOut;
    RecordedIsAcceptedIff(legs, results);
  }

  lemma {:induction false} RegistryKept(o: Office, d: Desk, instrument: string, legs: seq<Builder.LegPlan>)
    ensures var done := LegsSent(o, d, instrument, legs); done.desk.attempted == d.attempted && done.desk.registry == d.registry
  {
    hide Ordered;
    if legs != [] {
      RegistryKept(o, d, instrument, legs[..|legs| - 1]);
    }
  }
}
