/** What stands between an entry and its exit: the bracket that goes out, the key that is freed, and the
    order that closes the position again. */
module Protection {
  import opened Options
  import opened Wire
  import opened Client
  import opened Executor
  import Builder

  // ---------- the watchlist ----------

  /** The first entry of the watchlist with this symbol, and what its exits are filed under. */
  ghost predicate Lists(watchlist: seq<WatchItem>, symbol: string, i: nat) {
    && i < |watchlist| && watchlist[i].symbol == symbol && forall j :: 0 <= j < i ==> watchlist[j].symbol != symbol
  }

  function KeyOfItem(item: WatchItem): string { if item.token == "" then item.symbol else item.token }

  lemma {:induction false} Found(watchlist: seq<WatchItem>, symbol: string, i: nat)
    requires Lists(watchlist, symbol, i)
    ensures FindItem(watchlist, symbol) == Some(watchlist[i]) && KeyFor(watchlist, symbol) == KeyOfItem(watchlist[i])
  {
    if i > 0 {
      Found(watchlist[1..], symbol, i - 1);
    }
  }

  lemma {:induction false} NotFound(watchlist: seq<WatchItem>, symbol: string)
    requires forall item <- watchlist :: item.symbol != symbol
    ensures FindItem(watchlist, symbol) == None && KeyFor(watchlist, symbol) == symbol
  {
    if watchlist != [] {
      NotFound(watchlist[1..], symbol);
    }
  }

  // ---------- the protective exit ----------

  /** The position of a record: positive if long, negative if short. */
  function Position(record: Record): int {
    var quantity := if record.quantity < 0 then -record.quantity else record.quantity;
    if record.long then quantity else -quantity
  }

  /** Requests of one market order, and session requests. */
  ghost predicate OneMarketOrder(sent: seq<Event>, instrument: string, key: string, delta: int) {
    && sent != [] && sent[0].Sent? && sent[0].ep == PlaceOrder
    && forall e <- sent :: e.Sent? &&
         if e.ep == PlaceOrder then e.payload == Market(instrument, key, delta) else e.ep == Login || e.ep == Refresh
  }

  /** A LIVE exit signal in the direction of a recorded, listed position whose key is free: every order that
      goes out is for the listed instrument, takes the position exactly to zero, and is filed under the
      instrument's key; a submitted exit reports the size of the position. */
  lemma ExitTakesToZero(o: Office, d: Desk, symbol: string, i: nat)
    requires o.live && o.setup.live && symbol in d.registry && Lists(o.watchlist, symbol, i)
    requires KeyOfItem(o.watchlist[i]) !in d.attempted
    ensures var item, p := o.watchlist[i], Position(d.registry[symbol]);
      var done := ExitExecuted(o, d, symbol, d.registry[symbol].long);
      && OneMarketOrder(done.sent, item.instrument, KeyOfItem(item), -p)
      && (done.value.Submitted? ==> !done.value.simulated && done.value.quantity == if p < 0 then -p else p)
  {
    ExitFollowsSignal(o, d, symbol, d.registry[symbol].long, i);
  }

  /** Whatever the record says, the side is that of the signal: a sale for a long, a purchase for a short. */
  lemma ExitFollowsSignal(o: Office, d: Desk, symbol: string, long: bool, i: nat)
    requires o.live && o.setup.live && symbol in d.registry && Lists(o.watchlist, symbol, i)
    requires KeyOfItem(o.watchlist[i]) !in d.attempted
    ensures var item := o.watchlist[i]; var p := Position(Record(d.registry[symbol].quantity, long));
      var done := ExitExecuted(o, d, symbol, long);
      && OneMarketOrder(done.sent, item.instrument, KeyOfItem(item), -p)
      && (done.value.Submitted? ==> !done.value.simulated && done.value.quantity == if p < 0 then -p else p)
  {
    Found(o.watchlist, symbol, i);
    FullIsRouted(o.setup, d.session, PlaceOrder, ProtectiveExit(o.watchlist[i], d.registry[symbol], long));
    hide FullCall, FindItem;
  }

  /** In PAPER the same signal is simulated with that size, and nothing is sent. */
  lemma PaperExit(o: Office, d: Desk, symbol: string, long: bool, i: nat)
    requires !o.live && symbol in d.registry && Lists(o.watchlist, symbol, i) && KeyOfItem(o.watchlist[i]) !in d.attempted
    ensures var p, done := Position(d.registry[symbol]), ExitExecuted(o, d, symbol, long);
      && done.sent == [] && done.value == Submitted(true, if p < 0 then -p else p)
      && done.desk == d.(attempted := d.attempted + {KeyOfItem(o.watchlist[i])})
  {
    Found(o.watchlist, symbol, i);
    hide FindItem;
  }

  /** Nothing is sent for a position that is not recorded or whose exit is latched, and nothing changes. */
  lemma SuppressedExit(o: Office, d: Desk, symbol: string, long: bool, i: nat)
    requires Lists(o.watchlist, symbol, i) && (symbol !in d.registry || KeyOfItem(o.watchlist[i]) in d.attempted)
    ensures ExitExecuted(o, d, symbol, long) == Done(d, [], Suppressed)
  {
    Found(o.watchlist, symbol, i);
    hide FindItem;
  }

  // ---------- the entry frees the exit ----------

  /** Some leg was accepted, or simulated as accepted. */
  ghost predicate Taken(outcome: EntryOutcome) { outcome.Entered? && exists r <- outcome.results :: r.accepted }

  /** What an entry leaves: if a leg was taken, the plan is recorded with its quantity and side, and just
      the symbol's exit key is free again; otherwise neither the registry nor any key has changed. */
  lemma EntryRearms(o: Office, d: Desk, symbol: string, instrument: string, legs: seq<Builder.LegPlan>, allowed: bool,
                    authorised: string, i: nat)
    requires Lists(o.watchlist, symbol, i)
    ensures var done := Opened(o, d, symbol, instrument, legs, allowed, authorised);
      if Taken(done.value) then
        && legs != []
        && done.desk.attempted == d.attempted - {KeyOfItem(o.watchlist[i])}
        && done.desk.registry == d.registry[symbol := Record(Builder.TotalQuantity(legs), legs[0].side == Builder.Buy)]
      else done.desk.attempted == d.attempted && done.desk.registry == d.registry
  {
    Found(o.watchlist, symbol, i);
    LegsLeaveAlone(o, d, instrument, legs);
    hide LegsSent, FindItem, KeyFor, Builder.TotalQuantity, Builder.PayloadSane;
    if legs != [] {
      assert AllAccepted(legs)[0].accepted;
    }
  }

  /** Which entries are refused before anything is sent, and how PAPER simulates the others: every leg
      accepted with its own quantity, nothing sent, and the report marked as simulated, as no LIVE one is. */
  lemma EntryEnds(o: Office, d: Desk, symbol: string, instrument: string, legs: seq<Builder.LegPlan>, allowed: bool,
                  authorised: string)
    ensures var done := Opened(o, d, symbol, instrument, legs, allowed, authorised);
      && (done.value == NotAuthorised <==> !allowed)
      && (done.value == AuthorisationMismatch <==> allowed && authorised != symbol)
      && (done.value == NoLegs <==> allowed && authorised == symbol && legs == [])
      && (!done.value.Entered? ==> done.sent == [] && done.desk == d)
      && (done.value.Entered? ==> (done.value.simulated <==> !o.live))
      && (done.value.Entered? && !o.live ==>
            && done.sent == [Rearmed(KeyFor(o.watchlist, symbol))] && |done.value.results| == |legs|
            && forall k :: 0 <= k < |legs| ==> done.value.results[k] == LegResult(legs[k].quantity, true, false))
  {
    hide LegsSent, Builder.PayloadSane, Recorded, KeyFor;
  }

  lemma {:induction false} LegsLeaveAlone(o: Office, d: Desk, instrument: string, legs: seq<Builder.LegPlan>)
    ensures var done := LegsSent(o, d, instrument, legs);
      done.desk.attempted == d.attempted && done.desk.registry == d.registry
  {
    hide Ordered, Builder.PayloadSane;
    if legs != [] {
      LegsLeaveAlone(o, d, instrument, legs[..|legs| - 1]);
    }
  }

  /** An entry and the exit after it, even if an earlier exit had latched the key: the next signal goes out,
      and in LIVE it takes exactly what the plan bought or sold back to zero. */
  lemma ExitAfterEntry(o: Office, d: Desk, symbol: string, instrument: string, legs: seq<Builder.LegPlan>,
                       authorised: string, i: nat)
    requires o.live == o.setup.live && Lists(o.watchlist, symbol, i)
    requires legs != [] && forall leg <- legs :: leg.quantity > 0
    requires Taken(Opened(o, d, symbol, instrument, legs, true, authorised).value)
    ensures var entered := Opened(o, d, symbol, instrument, legs, true, authorised).desk;
      var bought, total := legs[0].side == Builder.Buy, Builder.TotalQuantity(legs);
      var done := ExitExecuted(o, entered, symbol, bought);
      if o.live
      then OneMarketOrder(done.sent, o.watchlist[i].instrument, KeyOfItem(o.watchlist[i]), if bought then -total else total)
      else done.value == Submitted(true, total)
  {
    hide Opened, Taken, ExitExecuted, OneMarketOrder, Lists, Builder.TotalQuantity, KeyOfItem;
    EntryRearms(o, d, symbol, instrument, legs, true, authorised, i);
    TotalIsPositive(legs);
    var entered := Opened(o, d, symbol, instrument, legs, true, authorised).desk;
    ExitOfRecord(o, entered, symbol, i, Builder.TotalQuantity(legs), legs[0].side == Builder.Buy);
  }

  lemma ExitOfRecord(o: Office, d: Desk, symbol: string, i: nat, total: int, bought: bool)
    requires o.live == o.setup.live && Lists(o.watchlist, symbol, i) && total > 0
    requires symbol in d.registry && d.registry[symbol] == Record(total, bought) && KeyOfItem(o.watchlist[i]) !in d.attempted
    ensures var done := ExitExecuted(o, d, symbol, bought);
      if o.live
      then OneMarketOrder(done.sent, o.watchlist[i].instrument, KeyOfItem(o.watchlist[i]), if bought then -total else total)
      else done.value == Submitted(true, total)
  {
    hide ExitExecuted, OneMarketOrder, Lists, KeyOfItem;
    if o.live {
      ExitTakesToZero(o, d, symbol, i);
    } else {
      PaperExit(o, d, symbol, bought, i);
    }
  }

  lemma {:induction false} TotalIsPositive(legs: seq<Builder.LegPlan>)
    requires forall leg <- legs :: leg.quantity > 0
    ensures Builder.TotalQuantity(legs) >= 0 && (legs != [] ==> Builder.TotalQuantity(legs) > 0)
  {
    if legs != [] {
      TotalIsPositive(legs[1..]);
    }
  }

  // ---------- the bracket of a leg ----------

  /** The bracket that goes out for a leg of a built plan: its sign is the plan's side and its size the leg's
      quantity; its price and distances give back the leg's own stop and target; it trails by the plan's
      step. */
  lemma BracketIsTheLeg(cfg: Builder.Config, i: Builder.Intent, headroom: real, k: nat, instrument: string)
    requires Builder.BuildPlan(cfg, i, headroom).Ok? && k < |Builder.BuildPlan(cfg, i, headroom).value.legs|
    ensures var p := Builder.BuildPlan(cfg, i, headroom).value; var leg := p.legs[k];
      var b, buys := BracketFor(instrument, leg), i.side == Builder.Buy;
      && b.instrument == instrument && b.price == leg.entry == p.geometry.entry && b.trailing == p.geometry.trailStep
      && b.delta == (if buys then leg.quantity else -leg.quantity)
      && leg.target == (if buys then b.price + b.squareOff else b.price - b.squareOff)
      && leg.stop == (if buys then b.price - b.stopLoss else b.price + b.stopLoss)
  {
  }
}
