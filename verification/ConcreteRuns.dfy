/** Runs on concrete networks: what the exit protocol does not prevent.  Methods that call the executor
    are proved to end so. */
module ConcreteRuns {
  import opened Options
  import opened Wire
  import opened Client
  import opened Executor
  import opened ExitProtocol
  import opened SquareOffPass
  import opened EntryOrders
  import opened AnyBroker
  import Builder

  /** Every request is accepted; what a read shows depends on its number. */
  function Accepting(data: Data): Exchange { Exchange(Json(true, false, 200, data), true) }

  /** The order book is empty; the first reading of the positions shows `row` and every later one the row
      reversed. */
  function Shown(row: PositionRow, i: nat): Data {
    if i == 2 || i == 5 then OrderRows([])
    else if i == 3 then PositionRows([row])
    else if i == 6 then PositionRows([row.(net := -row.net)])
    else OtherData
  }

  /** One lot, held long; how the broker spells it. */
  function HeldRow(item: WatchItem, rowKey: string): PositionRow { PositionRow(item.instrument, rowKey, rowKey, 1) }

  function Broker(row: PositionRow): Setup {
    Setup(true, true, 0, 0, true, (i: nat) => Accepting(Shown(row, i)), (i: nat) => None, (i: nat) => false)
  }

  function Desk0(): Desk { Desk(Session(0, false, false, false), {}, map[]) }

  function OneLeg(): seq<Builder.LegPlan> {
    [Builder.LegPlan(Builder.LegA, Builder.Buy, 1, 100.0, 99.0, 102.0, 2.0, 1.0, 0.5)]
  }

  /** An entry, a protective exit, and a square-off attempt that still sees the position. */
  function Acts(item: WatchItem): seq<Act> {
    [Entry(item.symbol, item.instrument, OneLeg(), true, item.symbol), Signal(item.symbol, true), SquareOff]
  }

  function OfficeOf(item: WatchItem, rowKey: string): Office { Office(true, Broker(HeldRow(item, rowKey)), [item]) }

  lemma Answered(item: WatchItem, rowKey: string, n: nat, ep: Endpoint, payload: Payload)
    ensures var b, s := OfficeOf(item, rowKey).setup, Session(n, false, false, false);
      var e := Sent(ep, payload, Accepting(Shown(HeldRow(item, rowKey), n)));
      && FullCall(b, s, ep, payload) == Ran(Session(n + 1, false, false, false), [e], Ok(Shown(HeldRow(item, rowKey), n)))
      && Ordered(b, s, ep, payload) == FullCall(b, s, ep, payload)
  {
    OneRequest(OfficeOf(item, rowKey).setup, Session(n, false, false, false), ep, payload);
    hide FullCall;
  }

  /** After the entry: one lot registered, nothing latched. */
  function Day1(item: WatchItem, rowKey: string): Day {
    Day(Desk(Session(1, false, false, false), {}, map[item.symbol := Record(1, true)]),
        [Sent(PlaceOrder, BracketFor(item.instrument, OneLeg()[0]), Accepting(OtherData)), Rearmed(ItemKey(item))])
  }

  lemma EntryRuns(item: WatchItem, rowKey: string)
    ensures DoAct(OfficeOf(item, rowKey), Morning(Desk0()), Acts(item)[0]) == Day1(item, rowKey)
  {
    Answered(item, rowKey, 0, PlaceOrder, BracketFor(item.instrument, OneLeg()[0]));
    hide FullCall, Ordered;
    var o := OfficeOf(item, rowKey);
    assert OneLeg()[..0] == [];
    var sent := LegsSent(o, Desk0(), item.instrument, OneLeg());
    assert LegsSent(o, Desk0(), item.instrument, []) == Done(Desk0(), [], []);
    assert Builder.PayloadSane(OneLeg()[0]);
    assert sent.value == [LegResult(1, true, false)];
    assert sent.value[0].accepted;
    assert Builder.TotalQuantity(OneLeg()) == 1;
  }

  /** After the protective exit: filed under the watchlist's key. */
  function Day2(item: WatchItem, rowKey: string): Day {
    Day(Desk(Session(2, false, false, false), {ItemKey(item)}, map[item.symbol := Record(1, true)]),
        Day1(item, rowKey).log + [Sent(PlaceOrder, Market(item.instrument, ItemKey(item), -1), Accepting(OtherData))])
  }

  lemma SignalRuns(item: WatchItem, rowKey: string)
    ensures DoAct(OfficeOf(item, rowKey), Day1(item, rowKey), Acts(item)[1]) == Day2(item, rowKey)
  {
    Answered(item, rowKey, 1, PlaceOrder, Market(item.instrument, ItemKey(item), -1));
    hide FullCall, Ordered;
  }

  /** What the square-off pass sends before it re-reads: the row's own key is free, so it exits again. */
  function SecondExit(item: WatchItem, rowKey: string): seq<Event> {
    [Sent(OrderBook, Empty, Accepting(OrderRows([])))]
    + [Sent(Positions, Empty, Accepting(PositionRows([HeldRow(item, rowKey)]))),
       Sent(PlaceOrder, Market(item.instrument, rowKey, -1), Accepting(OtherData))]
  }

  lemma CancellingRuns(item: WatchItem, rowKey: string)
    ensures var d := Day2(item, rowKey).desk;
      WorkingCancelled(OfficeOf(item, rowKey), d)
      == Pass(d.(session := Session(3, false, false, false)), [SecondExit(item, rowKey)[0]], 0, 0, None)
  {
    Answered(item, rowKey, 2, OrderBook, Empty);
    hide FullCall, Ordered;
  }

  lemma ExitingRuns(item: WatchItem, rowKey: string)
    requires ItemKey(item) != rowKey
    ensures var d := Day2(item, rowKey).desk;
      OpenExited(OfficeOf(item, rowKey), d.(session := Session(3, false, false, false)))
      == Pass(d.(session := Session(5, false, false, false), attempted := {ItemKey(item), rowKey}),
              SecondExit(item, rowKey)[1..], 1, 0, None)
  {
    Answered(item, rowKey, 3, Positions, Empty);
    Answered(item, rowKey, 4, PlaceOrder, ExitFor(HeldRow(item, rowKey)));
    hide FullCall, Ordered;
    var o, row := OfficeOf(item, rowKey), HeldRow(item, rowKey);
    var d := Day2(item, rowKey).desk.(session := Session(3, false, false, false));
    var p := Began(d, PositionRead(o, d), None);
    assert [row][..0] == [];
    assert Exits(o, p, []) == p;
    assert Exits(o, p, [row]) == ExitStep(o, p, row);
    assert RowKey(row) == rowKey;
    assert SecondExit(item, rowKey)[1..] == [SecondExit(item, rowKey)[1]] + [SecondExit(item, rowKey)[2]];
  }

  /** All three acts: two exits of the one lot take effect, and nothing re-arms in between. */
  lemma DayRuns(item: WatchItem, rowKey: string)
    requires ItemKey(item) != rowKey
    ensures InstrumentExits(DoAll(OfficeOf(item, rowKey), Morning(Desk0()), Acts(item)).log, item.instrument, ItemKey(item)) == 2
  {
    var o, acts := OfficeOf(item, rowKey), Acts(item);
    EntryRuns(item, rowKey);
    SignalRuns(item, rowKey);
    DayUnfolds(o, Morning(Desk0()), acts);
    hide DoAct, DoAll, InstrumentExits, OfficeOf, Day1;
    SquareOffRuns(item, rowKey);
  }

  lemma DayUnfolds(o: Office, day: Day, acts: seq<Act>)
    requires |acts| == 3
    ensures DoAll(o, day, acts) == DoAct(o, DoAct(o, DoAct(o, day, acts[0]), acts[1]), acts[2])
  {
    hide DoAct;
    assert acts[..2][..1] == acts[..1] && acts[..1][..0] == [];
    assert DoAll(o, day, acts[..1]) == DoAct(o, day, acts[0]);
    assert DoAll(o, day, acts[..2]) == DoAct(o, DoAct(o, day, acts[0]), acts[1]);
  }

  lemma SquareOffRuns(item: WatchItem, rowKey: string)
    requires ItemKey(item) != rowKey
    ensures InstrumentExits(DoAct(OfficeOf(item, rowKey), Day2(item, rowKey), SquareOff).log, item.instrument, ItemKey(item)) == 2
  {
    var o, d, log := OfficeOf(item, rowKey), Day2(item, rowKey).desk, Day2(item, rowKey).log;
    CancellingRuns(item, rowKey);
    ExitingRuns(item, rowKey);
    var c := WorkingCancelled(o, d);
    var e := OpenExited(o, c.desk);
    var r := ReRead(o, e.desk, 0, 1, 0);
    ReReadIsQuiet(o, e.desk, 0, 1, 0);
    assert c.sent + e.sent == SecondExit(item, rowKey);
    ExitsCounted(item, rowKey, r.sent);
    hide WorkingCancelled, OpenExited, ReRead, Quiet, InstrumentExits, SecondExit, Day2, OfficeOf;
    assert Flattened(o, d).sent == SecondExit(item, rowKey) + r.sent;
  }

  lemma ExitsCounted(item: WatchItem, rowKey: string, last: seq<Event>)
    requires Quiet(last)
    ensures InstrumentExits(Day2(item, rowKey).log + (SecondExit(item, rowKey) + last), item.instrument, ItemKey(item)) == 2
  {
    var log, k := Day2(item, rowKey).log, ItemKey(item);
    var shown, exit := SecondExit(item, rowKey)[..2], SecondExit(item, rowKey)[2];
    hide InstrumentExits;
    FirstExitCounted(item, rowKey);
    QuietUncounted(log, shown, item.instrument, k);
    ExitCounted(log + shown, exit, item.instrument, k);
    QuietUncounted(log + shown + [exit], last, item.instrument, k);
    assert log + shown + [exit] + last == log + (SecondExit(item, rowKey) + last);
  }

  lemma FirstExitCounted(item: WatchItem, rowKey: string)
    ensures InstrumentExits(Day2(item, rowKey).log, item.instrument, ItemKey(item)) == 1
  {
    var log := Day1(item, rowKey).log;
    assert InstrumentExits(log, item.instrument, ItemKey(item)) == 0;
    hide InstrumentExits;
    ExitCounted(log, Day2(item, rowKey).log[|log|], item.instrument, ItemKey(item));
  }

  lemma ExitCounted(log: seq<Event>, e: Event, instrument: string, key: string)
    requires TookEffect(e) && e.payload.instrument == instrument
    ensures InstrumentExits(log + [e], instrument, key) == InstrumentExits(log, instrument, key) + 1
  {
    assert (log + [e])[..|log + [e]| - 1] == log;
  }

  lemma {:induction false} QuietUncounted(log: seq<Event>, sent: seq<Event>, instrument: string, key: string)
    requires Quiet(sent)
    ensures InstrumentExits(log + sent, instrument, key) == InstrumentExits(log, instrument, key)
    decreases |sent|
  {
    if sent == [] {
      assert log + sent == log;
    } else {
      var init := sent[..|sent| - 1];
      assert (log + sent)[..|log + sent| - 1] == log + init;
      assert sent[|sent| - 1] in sent;
      QuietUncounted(log, init, instrument, key);
    }
  }

  // ---------- when the keys must agree ----------

  /** A fair broker whose rows spell the item's instrument with `rowKey`, and a watchlist of that item. */
  ghost predicate Spelling(o: Office, item: WatchItem, rowKey: string) {
    o.setup.Fair() && o.watchlist == [item] && forall i: nat :: RowsSpell(RowsIn(o.setup.network(i).reply), item.instrument, rowKey)
  }

  ghost predicate NeverTwice(o: Office, d: Desk, acts: seq<Act>, item: WatchItem) {
    InstrumentExits(DoAll(o, Morning(d), acts).log, item.instrument, ItemKey(item)) <= 1
  }

  /** On every broker, from every desk and over every day, at most one exit of the instrument takes effect
      between re-armings: exactly when watchlist and rows give it one key.  With two keys an entry, a
      protective exit and one square-off attempt reverse the position. */
  lemma OneKeyPerInstrumentIff(item: WatchItem, rowKey: string)
    ensures ItemKey(item) == rowKey
       <==> forall o: Office, d: Desk, acts: seq<Act> :: Spelling(o, item, rowKey) ==> NeverTwice(o, d, acts, item)
  {
    hide DoAll, InstrumentExits;
    if ItemKey(item) == rowKey {
      forall o: Office, d: Desk, acts: seq<Act> | Spelling(o, item, rowKey)
        ensures NeverTwice(o, d, acts, item)
      {
        var log := DoAll(o, Morning(d), acts).log;
        AtMostOneExitPerInstrument(o, d, acts, item.instrument, rowKey, |log|);
        assert log[..|log|] == log;
      }
    } else {
      DayRuns(item, rowKey);
      BrokerSpells(item, rowKey);
      assert Spelling(OfficeOf(item, rowKey), item, rowKey);
      assert !NeverTwice(OfficeOf(item, rowKey), Desk0(), Acts(item), item);
    }
  }

  lemma BrokerSpells(item: WatchItem, rowKey: string)
    ensures Spelling(OfficeOf(item, rowKey), item, rowKey)
  {
  }

  /** The same by running the class. */
  method ReverseByTwoKeys(item: WatchItem, rowKey: string) returns (client: SmartApiClient)
    requires ItemKey(item) != rowKey
    ensures InstrumentExits(client.log, item.instrument, ItemKey(item)) == 2
  {
    hide DoAll, InstrumentExits, Opened, ExitExecuted, Flattened;
    DayRuns(item, rowKey);
    DayUnfolds(OfficeOf(item, rowKey), Morning(Desk0()), Acts(item));
    client := new SmartApiClient(Broker(HeldRow(item, rowKey)));
    var executor := new RoboExecutor(true, client, [item]);
    var entered := executor.PlaceRoboOrder(item.symbol, item.instrument, OneLeg(), true, item.symbol);
    var exited := executor.ExecuteExit(item.symbol, true);
    var flattened := executor.FlattenEverything();
  }

  // ---------- a refused exit that stays latched ----------

  /** A session is cached, with its refresh token. */
  function Expiring(): Setup {
    Setup(true, true, 0, 0, true, SilentAfterExpiry(0), (i: nat) => Some(true), (i: nat) => false)
  }

  lemma {:induction false} UnactedOwn(sent: seq<Event>, ep: Endpoint)
    requires forall e <- sent :: e.Sent? && !e.exchange.acted
    ensures forall x <- Own(sent, ep) :: !x.acted
  {
    if sent != [] {
      UnactedOwn(sent[..|sent| - 1], ep);
      assert sent[|sent| - 1] in sent;
    }
  }

  lemma NothingTookEffect(sent: seq<Event>)
    requires forall e <- sent :: e.Sent? && !e.exchange.acted
    ensures Orders(sent) == 0
  {
    UnactedOwn(sent, PlaceOrder);
    ActedNone(Own(sent, PlaceOrder));
  }

  /** Adopt the cached session, then place an exit: it is refused, nothing takes effect, and its key is
      latched all the same. */
  method LatchARefusedExit(payload: Payload) returns (executor: RoboExecutor, r: CallResult)
    requires payload.Market?
    ensures r == Err(UnknownOutcome) && payload.key in executor.attempted && Orders(executor.client.log) == 0
    ensures executor.client.log == [Sent(PlaceOrder, payload, Exchange(Json(false, true, 401, Null), false)),
                                    Sent(Refresh, Credentials, Exchange(Lost, false))]
  {
    ExpiredThenLost(Expiring(), Session(0, true, true, true), payload);
    hide FullCall, Orders;
    var client := new SmartApiClient(Expiring());
    var adopted := client.LogIn();
    assert client.log == [];
    executor := new RoboExecutor(true, client, []);
    r := executor.PlaceExit(payload);
    assert client.log == [Sent(PlaceOrder, payload, Exchange(Json(false, true, 401, Null), false)),
                          Sent(Refresh, Credentials, Exchange(Lost, false))];
    NothingTookEffect(client.log);
  }

  // ---------- an entry recorded beyond what was accepted ----------

  /** The first order is accepted and every later one refused. */
  function HalfAccepting(): Setup {
    Setup(true, true, 0, 0, true, AcceptsOnly(0), (i: nat) => None, (i: nat) => false)
  }

  function TwoLegs(): seq<Builder.LegPlan> {
    [Builder.LegPlan(Builder.LegA, Builder.Buy, 2, 100.0, 99.0, 101.5, 1.5, 1.0, 0.5),
     Builder.LegPlan(Builder.LegB, Builder.Buy, 1, 100.0, 99.0, 102.5, 2.5, 1.0, 0.5)]
  }

  lemma HalfSent(d: Desk, instrument: string)
    requires d.session.requests == 0
    ensures LegsSent(Office(true, HalfAccepting(), []), d, instrument, TwoLegs()).value
         == [LegResult(2, true, false), LegResult(1, false, false)]
  {
    var o, legs := Office(true, HalfAccepting(), []), TwoLegs();
    var next := d.session.(requests := 1);
    OneRequest(o.setup, d.session, PlaceOrder, BracketFor(instrument, legs[0]));
    OneRefusal(o.setup, next, PlaceOrder, BracketFor(instrument, legs[1]));
    hide FullCall;
    assert legs[..1][..0] == [] && legs[..1][0] == legs[0];
    assert LegsSent(o, d, instrument, []) == Done(d, [], []);
    var first := LegsSent(o, d, instrument, legs[..1]);
    assert first.value == [LegResult(2, true, false)] && first.desk.session == next;
  }

  /** One leg of two lots accepted, one of one lot refused; three lots are registered. */
  method RecordARefusedLeg(symbol: string, instrument: string) returns (executor: RoboExecutor, outcome: EntryOutcome)
    ensures outcome == Entered([LegResult(2, true, false), LegResult(1, false, false)], false)
    ensures AcceptedQuantity(outcome.results) == 2
    ensures symbol in executor.registry && executor.registry[symbol].quantity == 3
  {
    var client := new SmartApiClient(HalfAccepting());
    executor := new RoboExecutor(true, client, []);
    HalfSent(executor.GetDesk(), instrument);
    outcome := executor.PlaceRoboOrder(symbol, instrument, TwoLegs(), true, symbol);
    HalfRecorded();
    hide LegsSent, Builder.TotalQuantity;
  }

  lemma HalfRecorded()
    ensures Builder.TotalQuantity(TwoLegs()) == 3
    ensures AcceptedQuantity([LegResult(2, true, false), LegResult(1, false, false)]) == 2
    ensures AnyAccepted([LegResult(2, true, false), LegResult(1, false, false)])
  {
    var rs := [LegResult(2, true, false), LegResult(1, false, false)];
    assert rs[0].accepted && rs[1..] == [LegResult(1, false, false)] && rs[1..][1..] == [];
    assert TwoLegs()[1..] == [TwoLegs()[1]] && TwoLegs()[1..][1..] == [];
    assert AcceptedQuantity(rs[1..]) == 0;
    assert Builder.TotalQuantity(TwoLegs()[1..]) == 1;
  }

  // ---------- what an exit and a PAPER entry raise ----------

  lemma EntryThenRefusal(item: WatchItem)
    ensures var o := Office(true, HalfAccepting(), [item]);
      var done := Opened(o, Desk0(), item.symbol, item.instrument, OneLeg(), true, item.symbol);
      && done.desk == Desk(Session(1, false, false, false), {}, map[item.symbol := Record(1, true)])
      && ExitExecuted(o, done.desk, item.symbol, true).value == Raised(Plain)
      && ExitExecuted(o, done.desk, item.symbol, true).desk.attempted == {}
  {
    var o := Office(true, HalfAccepting(), [item]);
    OneRequest(o.setup, Desk0().session, PlaceOrder, BracketFor(item.instrument, OneLeg()[0]));
    OneRefusal(o.setup, Session(1, false, false, false), PlaceOrder, Market(item.instrument, ItemKey(item), -1));
    hide FullCall;
    assert OneLeg()[..0] == [];
    assert LegsSent(o, Desk0(), item.instrument, []) == Done(Desk0(), [], []);
    assert Builder.PayloadSane(OneLeg()[0]);
    var sent := LegsSent(o, Desk0(), item.instrument, OneLeg());
    assert sent.value == [LegResult(1, true, false)] && sent.value[0].accepted;
    assert Builder.TotalQuantity(OneLeg()) == 1;
  }

  /** One lot is bought; its protective exit is refused, and the executor raises instead of reporting it
      rejected.  The key stays free. */
  method RaiseARefusedExit(item: WatchItem) returns (executor: RoboExecutor, outcome: ExitOutcome)
    ensures outcome == Raised(Plain) && !outcome.Rejected() && executor.attempted == {}
  {
    EntryThenRefusal(item);
    hide Opened, ExitExecuted;
    var client := new SmartApiClient(HalfAccepting());
    executor := new RoboExecutor(true, client, [item]);
    var entered := executor.PlaceRoboOrder(item.symbol, item.instrument, OneLeg(), true, item.symbol);
    outcome := executor.ExecuteExit(item.symbol, true);
  }

  /** An entry at 10 with an ATR of 2: the risk is 3 and the first target 4.5 away, beyond two fifths of
      the entry. */
  function WideConfig(symbol: string): Builder.Config {
    Builder.Config([Builder.Instrument(symbol, 0.5, 1)], Builder.Trail(1.0, 1.0), 30.0)
  }

  function WideIntent(symbol: string): Builder.Intent {
    Builder.Intent(symbol, Builder.Buy, Builder.Finite(10.0), Builder.Finite(2.0), Builder.Finite(1.0))
  }

  lemma WideGeometry()
    ensures var r := Builder.Geometrise(Builder.Buy, Builder.Finite(10.0), Builder.Finite(2.0), 0.5, Builder.Trail(1.0, 1.0));
      r.Ok? && r.value.entry == 10.0 && r.value.risk == 3.0 && r.value.t1Offset == 4.5
  {
    assert Builder.Ticks(10.0, 0.5) == 20 && Builder.Times(20, 0.5) == 10.0;
    assert Builder.StopDistance(2.0) / 0.5 == 6.0 && Builder.Ticks(Builder.StopDistance(2.0), 0.5) == 6;
    assert Builder.Times(6, 0.5) == 3.0;
    assert Builder.T1Distance(3.0) / 0.5 == 9.0 && Builder.Ticks(Builder.T1Distance(3.0), 0.5) == 9;
    assert Builder.Times(9, 0.5) == 4.5;
  }

  lemma WidePlan(symbol: string)
    ensures var r := Builder.BuildPlan(WideConfig(symbol), WideIntent(symbol), 30.0);
      r.Ok? && r.value.legs != [] && exists leg <- r.value.legs :: !Builder.PayloadSane(leg)
  {
    var cfg, i := WideConfig(symbol), WideIntent(symbol);
    WideGeometry();
    assert Builder.FindSymbol(cfg.watchlist, symbol) == Builder.Ok(cfg.watchlist[0]);
    var budget := Builder.Budget(30.0, 30.0, i.multiplier);
    assert budget == 30.0;
    Builder.SizeRefusesOnlyUnaffordable(3.0, budget, 1);
    hide Builder.Geometrise, Builder.Size, Builder.FindSymbol;
    BuiltPlanIsInsaneIff(cfg, i, 30.0);
    hide Builder.PayloadSane;
    Builder.GeometryHolds(i.side, i.entry, i.atr, 0.5, cfg.trail);
  }

  /** The builder itself builds that plan, and the PAPER executor raises on it and records nothing. */
  method RaiseInPaper(symbol: string, instrument: string, today: int)
    returns (built: Builder.Result<Builder.Plan>, executor: RoboExecutor, outcome: EntryOutcome)
    ensures built.Ok? && outcome == OffsetsInsane && executor.registry == map[] && executor.client.log == []
  {
    WidePlan(symbol);
    var sequencer := new Builder.OrderTagSequencer(0);
    var builder := new Builder.OrderBuilder(WideConfig(symbol), sequencer);
    var tags;
    built, tags := builder.Build(WideIntent(symbol), 30.0, today);
    var client := new SmartApiClient(HalfAccepting());
    executor := new RoboExecutor(false, client, []);
    hide Builder.BuildPlan, Builder.PayloadSane, LegsSent;
    outcome := executor.PlaceRoboOrder(symbol, instrument, built.value.legs, true, symbol);
  }
}
