/** The exit protocol over whole days: at most one exit per instrument can take effect between two
    re-arming entries, whatever the broker answers, provided rows and watchlist spell it one way. */
module ExitProtocol {
  import opened Options
  import opened Wire
  import opened Client
  import opened Executor
  import Builder

  // ---------- one call at a time ----------

  /** The protocol invariant: a key whose exit took effect since its last re-arm is latched, and no key
      ever had two. */
  ghost predicate ExitsLatched(log: seq<Event>, attempted: set<string>) {
    && (forall key :: LiveExits(log, key) <= if key in attempted then 1 else 0)
    && AtMostOneExit(log)
  }

  /** One exit for a free key, latched unless it was definitively refused, keeps the invariant. */
  lemma ExitKeepsLatch(o: Office, d: Desk, log: seq<Event>, payload: Payload)
    requires o.setup.Fair() && payload.Market? && payload.key !in d.attempted && ExitsLatched(log, d.attempted)
    ensures var done := ExitPlaced(o, d, payload); ExitsLatched(log + done.sent, done.desk.attempted)
  {
    OrderedIsCarried(o.setup, d.session, PlaceOrder, payload);
    hide Ordered;
    var done := ExitPlaced(o, d, payload);
    if o.setup.live {
      CarriedKeepsLatch(log, d.attempted, payload, done.sent, done.value);
    } else {
      assert log + [] == log;
    }
  }

  lemma CarriedKeepsLatch(log: seq<Event>, attempted: set<string>, payload: Payload, sent: seq<Event>, r: CallResult)
    requires payload.Market? && payload.key !in attempted && ExitsLatched(log, attempted)
    requires Carried(sent, PlaceOrder, payload, r)
    ensures ExitsLatched(log + sent, AfterExit(attempted, payload.key, r))
  {
    hide AtMostOneExit, Own, Acted;
    forall key
      ensures LiveExits(log + sent, key) <= if key in AfterExit(attempted, payload.key, r) then 1 else 0
    {
      LiveExitsOfOrder(log, sent, payload, key);
    }
    AtMostOneExitExtends(log, sent);
  }

  /** Requests of which none is an effective market exit. */
  ghost predicate Quiet(sent: seq<Event>) {
    forall e <- sent :: e.Sent? && !TookEffect(e)
  }

  lemma QuietKeepsLatch(log: seq<Event>, sent: seq<Event>, attempted: set<string>)
    requires ExitsLatched(log, attempted) && Quiet(sent)
    ensures ExitsLatched(log + sent, attempted)
  {
    forall key
      ensures LiveExits(log + sent, key) <= if key in attempted then 1 else 0
    {
      LiveExitsOfOthers(log, sent, key);
    }
    AtMostOneExitExtends(log, sent);
  }

  lemma RearmKeepsLatch(log: seq<Event>, attempted: set<string>, key: string)
    requires ExitsLatched(log, attempted)
    ensures ExitsLatched(log + [Rearmed(key)], attempted - {key})
  {
    AtMostOneExitRearm(log, key);
    assert (log + [Rearmed(key)])[..|log|] == log;
  }

  /** Every effective exit of the instrument was filed under this one key. */
  ghost predicate SpelledOneWay(log: seq<Event>, instrument: string, key: string) {
    forall e <- log :: TookEffect(e) && e.payload.instrument == instrument ==> e.payload.key == key
  }

  /** Both at once. */
  ghost predicate Protected(log: seq<Event>, attempted: set<string>, instrument: string, key: string) {
    ExitsLatched(log, attempted) && SpelledOneWay(log, instrument, key)
  }

  ghost predicate Spells(payload: Payload, instrument: string, key: string) {
    payload.Market? && (payload.instrument == instrument ==> payload.key == key)
  }

  lemma ExitKeepsProtected(o: Office, d: Desk, log: seq<Event>, payload: Payload, instrument: string, key: string)
    requires o.setup.Fair() && Spells(payload, instrument, key) && payload.key !in d.attempted
    requires Protected(log, d.attempted, instrument, key)
    ensures var done := ExitPlaced(o, d, payload); Protected(log + done.sent, done.desk.attempted, instrument, key)
  {
    ExitKeepsLatch(o, d, log, payload);
    OrderedIsCarried(o.setup, d.session, PlaceOrder, payload);
    hide Ordered, ExitsLatched;
  }

  lemma QuietKeepsProtected(log: seq<Event>, sent: seq<Event>, attempted: set<string>, instrument: string, key: string)
    requires Protected(log, attempted, instrument, key) && Quiet(sent)
    ensures Protected(log + sent, attempted, instrument, key)
  {
    QuietKeepsLatch(log, sent, attempted);
    hide ExitsLatched;
  }

  lemma RoutedIsQuiet(sent: seq<Event>, ep: Endpoint, payload: Payload)
    requires Routed(sent, ep, payload) && (!ep.PlaceOrder? || payload.Bracket?)
    ensures Quiet(sent)
  {
  }

  lemma ReadIsQuiet(b: Setup, s: Session, ep: Endpoint)
    requires ep.ReadOnly()
    ensures Quiet(FullCall(b, s, ep, Empty).sent)
  {
    FullIsRouted(b, s, ep, Empty);
    RoutedIsQuiet(FullCall(b, s, ep, Empty).sent, ep, Empty);
    hide FullCall;
  }

  lemma OrderedIsQuiet(b: Setup, s: Session, ep: Endpoint, payload: Payload)
    requires b.Fair() && ep.MovesMoney() && (!ep.PlaceOrder? || payload.Bracket?)
    ensures Quiet(Ordered(b, s, ep, payload).sent)
  {
    OrderedIsCarried(b, s, ep, payload);
    hide Ordered;
    if b.live {
      RoutedIsQuiet(Ordered(b, s, ep, payload).sent, ep, payload);
    }
  }

  lemma QuietConcat(a: seq<Event>, b: seq<Event>)
    requires Quiet(a) && Quiet(b)
    ensures Quiet(a + b)
  {
  }

  // ---------- passes over a book ----------

  lemma {:induction false} CancelsAreQuiet(o: Office, p: Pass, rows: seq<OrderRow>)
    requires o.setup.Fair() && Quiet(p.sent)
    ensures var q := Cancels(o, p, rows); Quiet(q.sent) && q.desk.attempted == p.desk.attempted
  {
    if rows != [] {
      CancelsAreQuiet(o, p, rows[..|rows| - 1]);
      var q, row := Cancels(o, p, rows[..|rows| - 1]), rows[|rows| - 1];
      OrderedIsQuiet(o.setup, q.desk.session, CancelOrder, OrderRef(row.id));
      QuietConcat(q.sent, Ordered(o.setup, q.desk.session, CancelOrder, OrderRef(row.id)).sent);
      hide Ordered, Cancels, Quiet;
    }
  }

  ghost predicate RowsSpell(rows: seq<PositionRow>, instrument: string, key: string) {
    forall row <- rows :: row.instrument == instrument ==> RowKey(row) == key
  }

  lemma {:induction false} ExitsKeepProtected(o: Office, p: Pass, rows: seq<PositionRow>, log: seq<Event>, instrument: string,
                                              key: string)
    requires o.setup.Fair() && RowsSpell(rows, instrument, key) && Protected(log + p.sent, p.desk.attempted, instrument, key)
    ensures var q := Exits(o, p, rows); Protected(log + q.sent, q.desk.attempted, instrument, key)
  {
    if rows != [] {
      var init, row := rows[..|rows| - 1], rows[|rows| - 1];
      ExitsKeepProtected(o, p, init, log, instrument, key);
      ExitStepKeeps(o, Exits(o, p, init), row, log, instrument, key);
      hide ExitStep, Protected;
    }
  }

  lemma ExitStepKeeps(o: Office, p: Pass, row: PositionRow, log: seq<Event>, instrument: string, key: string)
    requires o.setup.Fair() && (row.instrument == instrument ==> RowKey(row) == key)
    requires Protected(log + p.sent, p.desk.attempted, instrument, key)
    ensures var q := ExitStep(o, p, row); Protected(log + q.sent, q.desk.attempted, instrument, key)
  {
    hide ExitPlaced, Protected;
    if p.raised.None? && row.IsOpen() && RowKey(row) !in p.desk.attempted {
      ExitKeepsProtected(o, p.desk, log + p.sent, ExitFor(row), instrument, key);
      assert log + p.sent + ExitPlaced(o, p.desk, ExitFor(row)).sent == log + (p.sent + ExitPlaced(o, p.desk, ExitFor(row)).sent);
    }
  }

  // ---------- whole days ----------

  /** Watchlist and broker spell the instrument one way. */
  ghost predicate OneSpelling(o: Office, instrument: string, key: string) {
    && (forall item <- o.watchlist :: item.instrument == instrument ==> ItemKey(item) == key)
    && (forall i: nat :: RowsSpell(RowsIn(o.setup.network(i).reply), instrument, key))
  }

  ghost function RowsIn(reply: Reply): seq<PositionRow> {
    if reply.Json? && reply.data.PositionRows? then reply.data.positions else []
  }

  lemma ReadRowsSpell(o: Office, d: Desk, instrument: string, key: string)
    requires OneSpelling(o, instrument, key) && PositionsIn(PositionRead(o, d).answer).Rows?
    ensures RowsSpell(PositionsIn(PositionRead(o, d).answer).rows, instrument, key)
  {
    var i := AnswerIsFromNetwork(o.setup, d.session, Positions, Empty);
    assert RowsSpell(RowsIn(o.setup.network(i).reply), instrument, key);
    hide FullCall;
  }

  /** One event of the day: a call of the executor, another call of its client on any route that places no
      order, or a change of the registry and the session by others (fills are booked, tokens replaced). */
  datatype Act =
    | Signal(symbol: string, long: bool)
    | SquareOff
    | Entry(symbol: string, instrument: string, legs: seq<Builder.LegPlan>, allowed: bool, authorised: string)
    | Asked(ep: Endpoint, payload: Payload)
    | Outside(registry: map<string, Record>, session: Session)

  datatype Day = Day(desk: Desk, log: seq<Event>)

  function DoAct(o: Office, day: Day, act: Act): Day {
    match act
    case Signal(symbol, long) => var done := ExitExecuted(o, day.desk, symbol, long); Day(done.desk, day.log + done.sent)
    case SquareOff => var done := Flattened(o, day.desk); Day(done.desk, day.log + done.sent)
    case Entry(symbol, instrument, legs, allowed, authorised) =>
      var done := Opened(o, day.desk, symbol, instrument, legs, allowed, authorised); Day(done.desk, day.log + done.sent)
    case Asked(ep, payload) =>
      if ep.PlaceOrder? then day
      else
        var ran := Called(o.setup, day.desk.session, ep, payload, !ep.Session());
        Day(day.desk.(session := ran.session), day.log + ran.sent)
    case Outside(registry, session) => Day(day.desk.(registry := registry, session := session), day.log)
  }

  function DoAll(o: Office, day: Day, acts: seq<Act>): Day {
    if acts == [] then day else DoAct(o, DoAll(o, day, acts[..|acts| - 1]), acts[|acts| - 1])
  }

  lemma SignalKeeps(o: Office, d: Desk, log: seq<Event>, symbol: string, long: bool, instrument: string, key: string)
    requires o.setup.Fair() && OneSpelling(o, instrument, key) && Protected(log, d.attempted, instrument, key)
    ensures var done := ExitExecuted(o, d, symbol, long); Protected(log + done.sent, done.desk.attempted, instrument, key)
  {
    hide ExitPlaced, Protected;
    assert log + [] == log;
    var done := ExitExecuted(o, d, symbol, long);
    if symbol in d.registry && KeyFor(o.watchlist, symbol) !in d.attempted {
      match FindItem(o.watchlist, symbol)
      case None =>
      case Some(item) =>
        if o.live {
          ExitKeepsProtected(o, d, log, ProtectiveExit(item, d.registry[symbol], long), instrument, key);
        } else {
          MoreLatched(log, d.attempted, done.desk.attempted, instrument, key);
        }
    }
  }

  lemma MoreLatched(log: seq<Event>, attempted: set<string>, more: set<string>, instrument: string, key: string)
    requires Protected(log, attempted, instrument, key) && attempted <= more
    ensures Protected(log, more, instrument, key)
  {
  }

  lemma CancellingKeeps(o: Office, d: Desk, log: seq<Event>, instrument: string, key: string)
    requires o.setup.Fair() && Protected(log, d.attempted, instrument, key)
    ensures var pass := WorkingCancelled(o, d); Protected(log + pass.sent, pass.desk.attempted, instrument, key)
  {
    hide FullCall, Cancels, Quiet, Protected;
    var read := OrderRead(o, d);
    ReadIsQuiet(o.setup, d.session, OrderBook);
    QuietKeepsProtected(log, read.sent, d.attempted, instrument, key);
    match OrdersIn(read.answer)
    case NoRows(_) =>
    case Rows(orders) =>
      CancelsAreQuiet(o, Began(d, read, None), orders);
      QuietKeepsProtected(log, Cancels(o, Began(d, read, None), orders).sent, d.attempted, instrument, key);
  }

  lemma ExitingKeeps(o: Office, d: Desk, log: seq<Event>, instrument: string, key: string)
    requires o.setup.Fair() && OneSpelling(o, instrument, key) && Protected(log, d.attempted, instrument, key)
    ensures var pass := OpenExited(o, d); Protected(log + pass.sent, pass.desk.attempted, instrument, key)
  {
    hide FullCall, Exits, Quiet, Protected, OneSpelling, RowsSpell;
    var read := PositionRead(o, d);
    ReadIsQuiet(o.setup, d.session, Positions);
    QuietKeepsProtected(log, read.sent, d.attempted, instrument, key);
    match PositionsIn(read.answer)
    case NoRows(_) =>
    case Rows(positions) =>
      ReadRowsSpell(o, d, instrument, key);
      ExitsKeepProtected(o, Began(d, read, None), positions, log, instrument, key);
  }

  lemma ReReadIsQuiet(o: Office, d: Desk, cancelled: nat, exits: nat, failures: nat)
    ensures var done := ReRead(o, d, cancelled, exits, failures);
      Quiet(done.sent) && done.desk.attempted == d.attempted && done.desk.registry == d.registry
  {
    hide FullCall, Quiet;
    ReadIsQuiet(o.setup, d.session, OrderBook);
    var next := OrderRead(o, d).session;
    ReadIsQuiet(o.setup, next, Positions);
    QuietConcat(OrderRead(o, d).sent, FullCall(o.setup, next, Positions, Empty).sent);
  }

  lemma SquareOffKeeps(o: Office, d: Desk, log: seq<Event>, instrument: string, key: string)
    requires o.setup.Fair() && OneSpelling(o, instrument, key) && Protected(log, d.attempted, instrument, key)
    ensures var done := Flattened(o, d); Protected(log + done.sent, done.desk.attempted, instrument, key)
  {
    hide WorkingCancelled, OpenExited, ReRead, Protected, OneSpelling, Quiet;
    assert log + [] == log;
    var c := WorkingCancelled(o, d);
    CancellingKeeps(o, d, log, instrument, key);
    var e := OpenExited(o, c.desk);
    ExitingKeeps(o, c.desk, log + c.sent, instrument, key);
    assert log + c.sent + e.sent == log + (c.sent + e.sent);
    var r := ReRead(o, e.desk, c.done, e.done, c.failures + e.failures);
    ReReadIsQuiet(o, e.desk, c.done, e.done, c.failures + e.failures);
    QuietKeepsProtected(log + (c.sent + e.sent), r.sent, e.desk.attempted, instrument, key);
    assert log + (c.sent + e.sent) + r.sent == log + (c.sent + e.sent + r.sent);
  }

  lemma {:induction false} LegsAreQuiet(o: Office, d: Desk, instrument: string, legs: seq<Builder.LegPlan>)
    requires o.setup.Fair()
    ensures var done := LegsSent(o, d, instrument, legs);
      Quiet(done.sent) && done.desk.attempted == d.attempted && done.desk.registry == d.registry
  {
    if legs != [] {
      var init, leg := legs[..|legs| - 1], legs[|legs| - 1];
      LegsAreQuiet(o, d, instrument, init);
      var most := LegsSent(o, d, instrument, init);
      OrderedIsQuiet(o.setup, most.desk.session, PlaceOrder, BracketFor(instrument, leg));
      hide Ordered, Quiet;
      NothingIsQuiet();
      QuietConcat(most.sent, LegSent(o, most.desk, instrument, leg).sent);
    } else {
      NothingIsQuiet();
    }
  }

  lemma NothingIsQuiet()
    ensures Quiet([])
  {
  }

  lemma EntryKeeps(o: Office, d: Desk, log: seq<Event>, symbol: string, target: string, legs: seq<Builder.LegPlan>,
                   allowed: bool, authorised: string, instrument: string, key: string)
    requires o.setup.Fair() && Protected(log, d.attempted, instrument, key)
    ensures var done := Opened(o, d, symbol, target, legs, allowed, authorised);
      Protected(log + done.sent, done.desk.attempted, instrument, key)
  {
    hide LegsSent, Protected, Quiet, KeyFor;
    assert log + [] == log;
    var armed := KeyFor(o.watchlist, symbol);
    RearmKeepsProtected(log, d.attempted, armed, instrument, key);
    var sent := LegsSent(o, d, target, legs);
    LegsAreQuiet(o, d, target, legs);
    QuietKeepsProtected(log, sent.sent, d.attempted, instrument, key);
    RearmKeepsProtected(log + sent.sent, d.attempted, armed, instrument, key);
    assert log + sent.sent + [Rearmed(armed)] == log + (sent.sent + [Rearmed(armed)]);
  }

  lemma RearmKeepsProtected(log: seq<Event>, attempted: set<string>, armed: string, instrument: string, key: string)
    requires Protected(log, attempted, instrument, key)
    ensures Protected(log + [Rearmed(armed)], attempted - {armed}, instrument, key)
  {
    RearmKeepsLatch(log, attempted, armed);
    hide ExitsLatched;
  }

  /** Any day keeps the instrument protected. */
  lemma {:induction false} DayKeepsProtected(o: Office, day: Day, acts: seq<Act>, instrument: string, key: string)
    requires o.setup.Fair() && OneSpelling(o, instrument, key) && Protected(day.log, day.desk.attempted, instrument, key)
    ensures var end := DoAll(o, day, acts); Protected(end.log, end.desk.attempted, instrument, key)
  {
    hide Protected, OneSpelling, ExitExecuted, Flattened, Opened, Called;
    if acts != [] {
      var init, act := acts[..|acts| - 1], acts[|acts| - 1];
      DayKeepsProtected(o, day, init, instrument, key);
      var now := DoAll(o, day, init);
      match act
      case Signal(symbol, long) => SignalKeeps(o, now.desk, now.log, symbol, long, instrument, key);
      case SquareOff => SquareOffKeeps(o, now.desk, now.log, instrument, key);
      case Entry(symbol, target, legs, allowed, authorised) =>
        EntryKeeps(o, now.desk, now.log, symbol, target, legs, allowed, authorised, instrument, key);
      case Asked(ep, payload) =>
        if !ep.PlaceOrder? {
          AskedIsQuiet(o.setup, now.desk.session, ep, payload);
          var sent := Called(o.setup, now.desk.session, ep, payload, !ep.Session()).sent;
          QuietKeepsProtected(now.log, sent, now.desk.attempted, instrument, key);
        }
      case Outside(_, _) =>
    }
  }

  lemma AskedIsQuiet(b: Setup, s: Session, ep: Endpoint, payload: Payload)
    requires !ep.PlaceOrder?
    ensures Quiet(Called(b, s, ep, payload, !ep.Session()).sent)
  {
    hide FullCall, PlainCall, Quiet;
    if Intercepts(b, ep) {
      NothingIsQuiet();
    } else if ep.Session() {
      PlainIsRouted(b, s, ep, payload, 0);
      RoutedIsQuiet(PlainCall(b, s, ep, payload, 0).sent, ep, payload);
    } else {
      FullIsRouted(b, s, ep, payload);
      RoutedIsQuiet(FullCall(b, s, ep, payload).sent, ep, payload);
    }
  }

  /** Market exits of one real instrument that took effect since `key` was last re-armed. */
  ghost function InstrumentExits(log: seq<Event>, instrument: string, key: string): nat {
    if log == [] then 0
    else
      var last := log[|log| - 1];
      if last == Rearmed(key) then 0
      else InstrumentExits(log[..|log| - 1], instrument, key)
           + if TookEffect(last) && last.payload.instrument == instrument then 1 else 0
  }

  lemma {:induction false} InstrumentWithinKey(log: seq<Event>, instrument: string, key: string)
    requires SpelledOneWay(log, instrument, key)
    ensures InstrumentExits(log, instrument, key) <= LiveExits(log, key)
  {
    if log != [] {
      InstrumentWithinKey(log[..|log| - 1], instrument, key);
    }
  }

  /** A new day: any session and registry, nothing logged. */
  function Morning(d: Desk): Day { Day(d, []) }

  /** Over any day, and whatever the broker answers: at every moment at most one market exit of the
      instrument has taken effect since it was last re-armed. */
  lemma AtMostOneExitPerInstrument(o: Office, d: Desk, acts: seq<Act>, instrument: string, key: string, n: nat)
    requires o.setup.Fair() && OneSpelling(o, instrument, key) && n <= |DoAll(o, Morning(d), acts).log|
    ensures InstrumentExits(DoAll(o, Morning(d), acts).log[..n], instrument, key) <= 1
  {
    MorningIsProtected(d, instrument, key);
    DayKeepsProtected(o, Morning(d), acts, instrument, key);
    hide DoAll;
    var log := DoAll(o, Morning(d), acts).log;
    InstrumentWithinKey(log[..n], instrument, key);
    assert LiveExits(log[..n], key) <= 1;
  }

  lemma MorningIsProtected(d: Desk, instrument: string, key: string)
    ensures Protected([], d.attempted, instrument, key)
  {
    var log: seq<Event> := [];
    forall n, k | 0 <= n <= |log|
      ensures LiveExits(log[..n], k) <= 1
    {
      assert log[..n] == [];
    }
  }
}
