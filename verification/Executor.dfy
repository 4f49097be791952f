/** The executor's exit protocol: per-tick protective exits, the square-off pass and the bracket
    entry that re-arms them, all over one dedup set and one broker client.

    Calls are serialised: between the check of the dedup set and its update no other exit runs.  Each
    method is proved against a function of the desk it starts with; the laws are about those functions,
    and about whole days of calls. */
module Executor {
  import opened Options
  import opened Wire
  import opened Client
  import Builder

  datatype WatchItem = WatchItem(instrument: string, symbol: string, token: string)

  /** A registry record: what the executor believes it holds. */
  datatype Record = Record(quantity: int, long: bool)

  datatype ExitOutcome =
    | Submitted(simulated: bool, quantity: int)
    | Suppressed
    | NotOnWatchlist
    | Raised(kind: Failure)
  {
    /** The report that invites another try. */
    predicate Rejected() { NotOnWatchlist? }
  }

  datatype LegResult = LegResult(quantity: int, accepted: bool, unknown: bool)

  datatype EntryOutcome =
    | NotAuthorised | AuthorisationMismatch | NoLegs | OffsetsInsane
    | Entered(results: seq<LegResult>, simulated: bool)

  datatype FlattenOutcome =
    | FlattenRaised(error: Failure)
    | Report(cancelled: nat, exits: nat, residualOrders: nat, residualPositions: nat, failures: nat)
  {
    predicate IsFlat() { Report? && residualOrders == 0 && residualPositions == 0 }
  }

  function Abs(n: int): int { if n < 0 then -n else n }

  /** The dedup key of a watchlist entry, and that of a broker row. */
  function ItemKey(item: WatchItem): string { if item.token != "" then item.token else item.symbol }

  function RowKey(row: PositionRow): string { if row.token != "" then row.token else row.tradingSymbol }

  /** The market order that closes a row. */
  function ExitFor(row: PositionRow): Payload { Market(row.instrument, RowKey(row), -row.net) }

  /** The bracket order of one leg: its signed quantity, its entry and its three distances. */
  function BracketFor(instrument: string, leg: Builder.LegPlan): Payload {
    Bracket(instrument, if leg.side.Buy? then leg.quantity else -leg.quantity,
            leg.entry, leg.squareoffOffset, leg.stoplossOffset, leg.trailing)
  }

  function FindItem(watchlist: seq<WatchItem>, symbol: string): (item: Option<WatchItem>)
    ensures item.Some? ==> item.value in watchlist && item.value.symbol == symbol
  {
    if watchlist == [] then None
    else if watchlist[0].symbol == symbol then Some(watchlist[0])
    else FindItem(watchlist[1..], symbol)
  }

  function KeyFor(watchlist: seq<WatchItem>, symbol: string): string {
    match FindItem(watchlist, symbol)
    case Some(item) => ItemKey(item)
    case None => symbol
  }

  function OpenRows(rows: seq<PositionRow>): seq<PositionRow> {
    if rows == [] then []
    else OpenRows(rows[..|rows| - 1]) + if rows[|rows| - 1].IsOpen() then [rows[|rows| - 1]] else []
  }

  function OpenOrders(rows: seq<OrderRow>): seq<OrderRow> {
    if rows == [] then []
    else OpenOrders(rows[..|rows| - 1]) + if rows[|rows| - 1].IsOpen() then [rows[|rows| - 1]] else []
  }

  // ---------- what each call does ----------

  /** What never changes, and what does.  `live` is the executor's own mode. */
  datatype Office = Office(live: bool, setup: Setup, watchlist: seq<WatchItem>)

  datatype Desk = Desk(session: Session, attempted: set<string>, registry: map<string, Record>)

  /** The desk a call leaves, the requests and re-armings it logged, and its result. */
  datatype Done<+T> = Done(desk: Desk, sent: seq<Event>, value: T)

  /** The dedup set after one exit: only a definitive refusal leaves the key free for another try. */
  function AfterExit(attempted: set<string>, key: string, r: CallResult): set<string> {
    if r.Ok? || r.kind.UnknownOutcome? then attempted + {key} else attempted
  }

  /** Place one exit and latch its key. */
  function ExitPlaced(o: Office, d: Desk, payload: Payload): Done<CallResult>
    requires payload.Market?
  {
    var ran := Ordered(o.setup, d.session, PlaceOrder, payload);
    Done(d.(session := ran.session, attempted := AfterExit(d.attempted, payload.key, ran.answer)), ran.sent, ran.answer)
  }

  /** The market order that closes the recorded position. */
  function ProtectiveExit(item: WatchItem, record: Record, long: bool): Payload {
    Market(item.instrument, ItemKey(item), if long then -Abs(record.quantity) else Abs(record.quantity))
  }

  /** What an exit's caller is told. */
  function ExitReport(answer: CallResult, quantity: int): ExitOutcome {
    match answer
    case Ok(_) => Submitted(false, quantity)
    case Err(kind) => if kind.UnknownOutcome? then Suppressed else Raised(kind)
  }

  /** One per-tick exit signal. */
  function ExitExecuted(o: Office, d: Desk, symbol: string, long: bool): Done<ExitOutcome> {
    if symbol !in d.registry || KeyFor(o.watchlist, symbol) in d.attempted then Done(d, [], Suppressed)
    else
      match FindItem(o.watchlist, symbol)
      case None => Done(d, [], NotOnWatchlist)
      case Some(item) =>
        var quantity := Abs(d.registry[symbol].quantity);
        if !o.live then Done(d.(attempted := d.attempted + {ItemKey(item)}), [], Submitted(true, quantity))
        else
          var exit := ExitPlaced(o, d, ProtectiveExit(item, d.registry[symbol], long));
          Done(exit.desk, exit.sent, ExitReport(exit.value, quantity))
  }

  /** A pass over a book: what was done, what failed, and the failure that stopped it, if any. */
  datatype Pass = Pass(desk: Desk, sent: seq<Event>, done: nat, failures: nat, raised: Option<Failure>)

  function Tallied(p: Pass, desk: Desk, sent: seq<Event>, r: CallResult): Pass {
    var q := p.(desk := desk, sent := p.sent + sent);
    match r
    case Ok(_) => q.(done := p.done + 1)
    case Err(kind) => if kind.PaperRefused? then q.(raised := Some(kind)) else q.(failures := p.failures + 1)
  }

  /** One row of the order book: cancelled if it can still execute. */
  function CancelStep(o: Office, p: Pass, row: OrderRow): Pass {
    if p.raised.Some? || !row.IsOpen() then p
    else
      var ran := Ordered(o.setup, p.desk.session, CancelOrder, OrderRef(row.id));
      Tallied(p, p.desk.(session := ran.session), ran.sent, ran.answer)
  }

  function Cancels(o: Office, p: Pass, rows: seq<OrderRow>): Pass {
    if rows == [] then p else CancelStep(o, Cancels(o, p, rows[..|rows| - 1]), rows[|rows| - 1])
  }

  /** One row of the position book: closed if it is open and its key is free. */
  function ExitStep(o: Office, p: Pass, row: PositionRow): Pass {
    if p.raised.Some? || !row.IsOpen() then p
    else if RowKey(row) in p.desk.attempted then p.(failures := p.failures + 1)
    else
      var exit := ExitPlaced(o, p.desk, ExitFor(row));
      Tallied(p, exit.desk, exit.sent, exit.value)
  }

  function Exits(o: Office, p: Pass, rows: seq<PositionRow>): Pass {
    if rows == [] then p else ExitStep(o, Exits(o, p, rows[..|rows| - 1]), rows[|rows| - 1])
  }

  function OrderRead(o: Office, d: Desk): Ran { FullCall(o.setup, d.session, OrderBook, Empty) }

  function PositionRead(o: Office, d: Desk): Ran { FullCall(o.setup, d.session, Positions, Empty) }

  function Began(d: Desk, ran: Ran, raised: Option<Failure>): Pass {
    Pass(d.(session := ran.session), ran.sent, 0, 0, raised)
  }

  /** The cancelling pass: one reading of the order book, then its open rows. */
  function WorkingCancelled(o: Office, d: Desk): Pass {
    var read := OrderRead(o, d);
    match OrdersIn(read.answer)
    case NoRows(kind) => Began(d, read, Some(kind))
    case Rows(orders) => Cancels(o, Began(d, read, None), orders)
  }

  /** The exiting pass: one reading of the position book, then its open rows with a free key. */
  function OpenExited(o: Office, d: Desk): Pass {
    var read := PositionRead(o, d);
    match PositionsIn(read.answer)
    case NoRows(kind) => Began(d, read, Some(kind))
    case Rows(positions) => Exits(o, Began(d, read, None), positions)
  }

  /** Re-read the broker. */
  function ReRead(o: Office, d: Desk, cancelled: nat, exits: nat, failures: nat): Done<FlattenOutcome> {
    var a := OrderRead(o, d);
    var d1 := d.(session := a.session);
    match OrdersIn(a.answer)
    case NoRows(kind) => Done(d1, a.sent, FlattenRaised(kind))
    case Rows(orders) =>
      var b := PositionRead(o, d1);
      var d2 := d1.(session := b.session);
      match PositionsIn(b.answer)
      case NoRows(kind) => Done(d2, a.sent + b.sent, FlattenRaised(kind))
      case Rows(positions) =>
        Done(d2, a.sent + b.sent, Report(cancelled, exits, |OpenOrders(orders)|, |OpenRows(positions)|, failures))
  }

  /** A square-off attempt: the cancelling pass, the exiting pass, then a reading of both books. */
  function Flattened(o: Office, d: Desk): Done<FlattenOutcome> {
    if !o.live then Done(d.(registry := map[]), [], Report(0, 0, 0, 0, 0))
    else
      var c := WorkingCancelled(o, d);
      if c.raised.Some? then Done(c.desk, c.sent, FlattenRaised(c.raised.value))
      else
        var e := OpenExited(o, c.desk);
        if e.raised.Some? then Done(e.desk, c.sent + e.sent, FlattenRaised(e.raised.value))
        else
          var r := ReRead(o, e.desk, c.done, e.done, c.failures + e.failures);
          Done(if r.value.IsFlat() then r.desk.(registry := map[]) else r.desk, c.sent + e.sent + r.sent, r.value)
  }

  /** One leg, unless its offsets cannot be distances. */
  function LegSent(o: Office, d: Desk, instrument: string, leg: Builder.LegPlan): Done<LegResult> {
    if !Builder.PayloadSane(leg) then Done(d, [], LegResult(leg.quantity, false, false))
    else
      var ran := Ordered(o.setup, d.session, PlaceOrder, BracketFor(instrument, leg));
      Done(d.(session := ran.session), ran.sent, LegResult(leg.quantity, ran.answer.Ok?, ran.answer == Err(UnknownOutcome)))
  }

  predicate StopsAfter(results: seq<LegResult>) { results != [] && results[|results| - 1].unknown }

  /** The legs in order, stopping after an unknown outcome. */
  function LegsSent(o: Office, d: Desk, instrument: string, legs: seq<Builder.LegPlan>): Done<seq<LegResult>> {
    if legs == [] then Done(d, [], [])
    else
      var most := LegsSent(o, d, instrument, legs[..|legs| - 1]);
      if StopsAfter(most.value) then most
      else
        var last := LegSent(o, most.desk, instrument, legs[|legs| - 1]);
        Done(last.desk, most.sent + last.sent, most.value + [last.value])
  }

  predicate AnyAccepted(results: seq<LegResult>) { exists r <- results :: r.accepted }

  /** Record an entry and re-arm the instrument's exit. */
  function Recorded(o: Office, d: Desk, symbol: string, legs: seq<Builder.LegPlan>): Desk
    requires legs != []
  {
    d.(registry := d.registry[symbol := Record(Builder.TotalQuantity(legs), legs[0].side.Buy?)],
       attempted := d.attempted - {KeyFor(o.watchlist, symbol)})
  }

  function AllAccepted(legs: seq<Builder.LegPlan>): seq<LegResult> {
    seq(|legs|, i requires 0 <= i < |legs| => LegResult(legs[i].quantity, true, false))
  }

  /** A pre-built bracket: refused, simulated or sent; recorded if any leg was accepted. */
  function Opened(o: Office, d: Desk, symbol: string, instrument: string, legs: seq<Builder.LegPlan>,
                  allowed: bool, authorised: string): Done<EntryOutcome> {
    if !allowed then Done(d, [], NotAuthorised)
    else if authorised != symbol then Done(d, [], AuthorisationMismatch)
    else if legs == [] then Done(d, [], NoLegs)
    else
      var rearmed := [Rearmed(KeyFor(o.watchlist, symbol))];
      if !o.live then
        if exists leg <- legs :: !Builder.PayloadSane(leg) then Done(d, [], OffsetsInsane)
        else Done(Recorded(o, d, symbol, legs), rearmed, Entered(AllAccepted(legs), true))
      else
        var sent := LegsSent(o, d, instrument, legs);
        if AnyAccepted(sent.value)
        then Done(Recorded(o, sent.desk, symbol, legs), sent.sent + rearmed, Entered(sent.value, false))
        else Done(sent.desk, sent.sent, Entered(sent.value, false))
  }

  class RoboExecutor {
    const live: bool
    const client: SmartApiClient
    const watchlist: seq<WatchItem>

    var attempted: set<string>
    var registry: map<string, Record>

    constructor (live: bool, client: SmartApiClient, watchlist: seq<WatchItem>)
      ensures this.live == live && this.client == client && this.watchlist == watchlist
      ensures attempted == {} && registry == map[]
    {
      this.live, this.client, this.watchlist := live, client, watchlist;
      attempted, registry := {}, map[];
    }

    function GetOffice(): Office { Office(live, client.setup, watchlist) }

    function GetDesk(): Desk
      reads this, client
    {
      Desk(client.session, attempted, registry)
    }

    /** Place one exit and latch its key. */
    method PlaceExit(payload: Payload) returns (r: CallResult)
      requires !client.refreshLocked && payload.Market?
      modifies this`attempted, client
      ensures !client.refreshLocked
      ensures var done := ExitPlaced(GetOffice(), old(GetDesk()), payload);
        GetDesk() == done.desk && client.log == old(client.log) + done.sent && r == done.value
    {
      r := client.PlaceOrder(payload);
      if r.Ok? || r.kind.UnknownOutcome? {
        attempted := attempted + {payload.key};
      }
    }

    /** Flatten one position in response to a per-tick exit signal. */
    method ExecuteExit(symbol: string, long: bool) returns (outcome: ExitOutcome)
      requires !client.refreshLocked
      modifies this`attempted, client
      ensures !client.refreshLocked
      ensures var done := ExitExecuted(GetOffice(), old(GetDesk()), symbol, long);
        GetDesk() == done.desk && client.log == old(client.log) + done.sent && outcome == done.value
    {
      hide ExitPlaced;
      if symbol !in registry {
        return Suppressed;
      }
      var quantity := Abs(registry[symbol].quantity);
      var key := KeyFor(watchlist, symbol);
      if key in attempted {
        return Suppressed;
      }
      var found := FindItem(watchlist, symbol);
      if found.None? {
        return NotOnWatchlist;
      }
      if !live {
        attempted := attempted + {key};
        return Submitted(true, quantity);
      }
      var delta := if long then -quantity else quantity;
      var r := PlaceExit(Market(found.value.instrument, key, delta));
      match r {
        case Ok(_) => outcome := Submitted(false, quantity);
        case Err(kind) => outcome := if kind.UnknownOutcome? then Suppressed else Raised(kind);
      }
    }

    /** Read the order book and cancel its open rows; a cancel that fails in any way is only counted. */
    method CancelWorkingOrders() returns (cancelled: nat, failures: nat, raised: Option<Failure>)
      requires !client.refreshLocked
      modifies client
      ensures !client.refreshLocked
      ensures var pass := WorkingCancelled(GetOffice(), old(GetDesk()));
        && GetDesk() == pass.desk && client.log == old(client.log) + pass.sent
        && cancelled == pass.done && failures == pass.failures && raised == pass.raised
    {
      hide FullCall, Ordered, Cancels;
      cancelled, failures, raised := 0, 0, None;
      ghost var start := GetDesk();
      var book := client.ReadOrders();
      if book.NoRows? {
        return 0, 0, Some(book.kind);
      }
      ghost var p := Began(start, OrderRead(GetOffice(), start), None);
      CancelsNone(GetOffice(), p, book.rows);
      for i := 0 to |book.rows|
        invariant !client.refreshLocked && raised == None && attempted == old(attempted) && registry == old(registry)
        invariant var pass := Cancels(GetOffice(), p, book.rows[..i]);
          && GetDesk() == pass.desk && client.log == old(client.log) + pass.sent
          && cancelled == pass.done && failures == pass.failures && raised == pass.raised
      {
        CancelsOne(GetOffice(), p, book.rows, i);
        if book.rows[i].IsOpen() {
          var r := client.CancelOrder(book.rows[i].id);
          if r.Ok? {
            cancelled := cancelled + 1;
          } else if r.kind.PaperRefused? {
            raised := Some(PaperRefused);
            StopsCancels(GetOffice(), p, book.rows, i + 1);
            return;
          } else {
            failures := failures + 1;
          }
        }
      }
    }

    /** Read the positions and close the open rows whose key is free, each key once. */
    method ExitOpenPositions() returns (submitted: nat, failures: nat, raised: Option<Failure>)
      requires !client.refreshLocked
      modifies this`attempted, client
      ensures !client.refreshLocked
      ensures var pass := OpenExited(GetOffice(), old(GetDesk()));
        && GetDesk() == pass.desk && client.log == old(client.log) + pass.sent
        && submitted == pass.done && failures == pass.failures && raised == pass.raised
    {
      hide FullCall, Ordered, ExitPlaced, Exits;
      submitted, failures, raised := 0, 0, None;
      ghost var start := GetDesk();
      var book := client.ReadPositions();
      if book.NoRows? {
        return 0, 0, Some(book.kind);
      }
      ghost var p := Began(start, PositionRead(GetOffice(), start), None);
      ExitsNone(GetOffice(), p, book.rows);
      for i := 0 to |book.rows|
        invariant !client.refreshLocked && raised == None && registry == old(registry)
        invariant var pass := Exits(GetOffice(), p, book.rows[..i]);
          && GetDesk() == pass.desk && client.log == old(client.log) + pass.sent
          && submitted == pass.done && failures == pass.failures && raised == pass.raised
      {
        ExitsOne(GetOffice(), p, book.rows, i);
        if book.rows[i].IsOpen() {
          if RowKey(book.rows[i]) in attempted {
            failures := failures + 1;
          } else {
            var r := PlaceExit(ExitFor(book.rows[i]));
            if r.Ok? {
              submitted := submitted + 1;
            } else if r.kind.PaperRefused? {
              raised := Some(PaperRefused);
              StopsExits(GetOffice(), p, book.rows, i + 1);
              return;
            } else {
              failures := failures + 1;
            }
          }
        }
      }
    }

    /** Re-read the broker. */
    method ReadBack(cancelled: nat, exits: nat, failures: nat) returns (r: FlattenOutcome)
      requires !client.refreshLocked
      modifies client
      ensures !client.refreshLocked
      ensures var done := ReRead(GetOffice(), old(GetDesk()), cancelled, exits, failures);
        GetDesk() == done.desk && client.log == old(client.log) + done.sent && r == done.value
    {
      hide FullCall;
      var orders := client.ReadOrders();
      if orders.NoRows? {
        return FlattenRaised(orders.kind);
      }
      ghost var first := OrderRead(GetOffice(), old(GetDesk())).sent;
      ghost var second := PositionRead(GetOffice(), GetDesk()).sent;
      var positions := client.ReadPositions();
      assert client.log == old(client.log) + (first + second);
      if positions.NoRows? {
        return FlattenRaised(positions.kind);
      }
      r := Report(cancelled, exits, |OpenOrders(orders.rows)|, |OpenRows(positions.rows)|, failures);
    }

    /** One square-off attempt.  Its report comes from what the broker shows afterwards, not from what was
        sent. */
    method FlattenEverything() returns (r: FlattenOutcome)
      requires !client.refreshLocked
      modifies this`attempted, this`registry, client
      ensures !client.refreshLocked
      ensures var done := Flattened(GetOffice(), old(GetDesk()));
        GetDesk() == done.desk && client.log == old(client.log) + done.sent && r == done.value
    {
      hide WorkingCancelled, OpenExited, ReRead;
      if !live {
        registry := map[];
        return Report(0, 0, 0, 0, 0);
      }
      ghost var log0 := client.log;
      var cancelled, notCancelled, raised := CancelWorkingOrders();
      if raised.Some? {
        return FlattenRaised(raised.value);
      }
      ghost var log1 := client.log;
      var exits, notExited, raised' := ExitOpenPositions();
      ghost var log2 := client.log;
      assert log2 == log0 + (log1[|log0|..] + log2[|log1|..]);
      if raised'.Some? {
        return FlattenRaised(raised'.value);
      }
      r := ReadBack(cancelled, exits, notCancelled + notExited);
      assert client.log == log0 + (log1[|log0|..] + log2[|log1|..] + client.log[|log2|..]);
      if r.IsFlat() {
        registry := map[];
      }
    }

    /** Send one leg, unless its offsets cannot be distances. */
    method SendLeg(instrument: string, leg: Builder.LegPlan) returns (result: LegResult)
      requires !client.refreshLocked
      modifies client
      ensures !client.refreshLocked
      ensures var done := LegSent(GetOffice(), old(GetDesk()), instrument, leg);
        GetDesk() == done.desk && client.log == old(client.log) + done.sent && result == done.value
    {
      hide Ordered;
      if !Builder.PayloadSane(leg) {
        return LegResult(leg.quantity, false, false);
      }
      var r := client.PlaceOrder(BracketFor(instrument, leg));
      result := LegResult(leg.quantity, r.Ok?, r == Err(UnknownOutcome));
    }

    /** Send the legs in order, stopping after an unknown outcome. */
    method SendLegs(instrument: string, legs: seq<Builder.LegPlan>) returns (results: seq<LegResult>)
      requires !client.refreshLocked
      modifies client
      ensures !client.refreshLocked
      ensures var done := LegsSent(GetOffice(), old(GetDesk()), instrument, legs);
        GetDesk() == done.desk && client.log == old(client.log) + done.sent && results == done.value
    {
      hide LegSent;
      results := [];
      ghost var d := GetDesk();
      for i := 0 to |legs|
        invariant !client.refreshLocked && attempted == old(attempted) && registry == old(registry)
        invariant var done := LegsSent(GetOffice(), d, instrument, legs[..i]);
          GetDesk() == done.desk && client.log == old(client.log) + done.sent && results == done.value
        invariant !StopsAfter(results)
      {
        assert legs[..i + 1][..i] == legs[..i];
        ghost var sent := client.log[|old(client.log)|..];
        ghost var before := client.log;
        var result := SendLeg(instrument, legs[i]);
        assert client.log == old(client.log) + (sent + client.log[|before|..]);
        results := results + [result];
        if result.unknown {
          StopsLegs(GetOffice(), d, instrument, legs, i + 1);
          break;
        }
      }
      assert legs[..|legs|] == legs;
    }

    /** Send a bracket and record the entry if any leg was accepted.  Recording re-arms the
        instrument's exit. */
    method Transmit(symbol: string, instrument: string, legs: seq<Builder.LegPlan>) returns (results: seq<LegResult>)
      requires !client.refreshLocked && live && legs != []
      modifies this`attempted, this`registry, client
      ensures !client.refreshLocked
      ensures var done := Opened(GetOffice(), old(GetDesk()), symbol, instrument, legs, true, symbol);
        GetDesk() == done.desk && client.log == old(client.log) + done.sent && Entered(results, false) == done.value
    {
      hide LegsSent;
      results := SendLegs(instrument, legs);
      if AnyAccepted(results) {
        RecordEntry(symbol, legs);
        ghost var sent := LegsSent(GetOffice(), old(GetDesk()), instrument, legs).sent;
        assert client.log == old(client.log) + (sent + [Rearmed(KeyFor(watchlist, symbol))]);
      }
    }

    /** Register the whole plan, and re-arm the instrument's exit. */
    method RecordEntry(symbol: string, legs: seq<Builder.LegPlan>)
      requires legs != []
      modifies this`attempted, this`registry, client`log
      ensures GetDesk() == Recorded(GetOffice(), old(GetDesk()), symbol, legs)
      ensures client.log == old(client.log) + [Rearmed(KeyFor(watchlist, symbol))]
    {
      var key := KeyFor(watchlist, symbol);
      registry := registry[symbol := Record(Builder.TotalQuantity(legs), legs[0].side.Buy?)];
      attempted := attempted - {key};
      client.MarkRearmed(key);
    }

    /** Check the authorisation against the plan, then simulate or transmit it. */
    method PlaceRoboOrder(symbol: string, instrument: string, legs: seq<Builder.LegPlan>,
                          allowed: bool, authorised: string) returns (outcome: EntryOutcome)
      requires !client.refreshLocked
      modifies this`attempted, this`registry, client
      ensures !client.refreshLocked
      ensures var done := Opened(GetOffice(), old(GetDesk()), symbol, instrument, legs, allowed, authorised);
        GetDesk() == done.desk && client.log == old(client.log) + done.sent && outcome == done.value
    {
      hide LegsSent, KeyFor;
      if !allowed {
        return NotAuthorised;
      }
      if authorised != symbol {
        return AuthorisationMismatch;
      }
      if legs == [] {
        return NoLegs;
      }
      if live {
        var results := Transmit(symbol, instrument, legs);
        return Entered(results, false);
      }
      if exists leg <- legs :: !Builder.PayloadSane(leg) {
        return OffsetsInsane;
      }
      RecordEntry(symbol, legs);
      outcome := Entered(AllAccepted(legs), true);
    }
  }

  lemma CancelsNone(o: Office, p: Pass, rows: seq<OrderRow>)
    ensures Cancels(o, p, rows[..0]) == p && rows[..|rows|] == rows
  {
  }

  lemma CancelsOne(o: Office, p: Pass, rows: seq<OrderRow>, i: nat)
    requires i < |rows|
    ensures Cancels(o, p, rows[..i + 1]) == CancelStep(o, Cancels(o, p, rows[..i]), rows[i])
  {
    hide CancelStep;
    assert rows[..i + 1][..i] == rows[..i];
  }

  lemma ExitsNone(o: Office, p: Pass, rows: seq<PositionRow>)
    ensures Exits(o, p, rows[..0]) == p && rows[..|rows|] == rows
  {
  }

  lemma ExitsOne(o: Office, p: Pass, rows: seq<PositionRow>, i: nat)
    requires i < |rows|
    ensures Exits(o, p, rows[..i + 1]) == ExitStep(o, Exits(o, p, rows[..i]), rows[i])
  {
    hide ExitStep;
    assert rows[..i + 1][..i] == rows[..i];
  }

  /** A pass that has stopped does nothing more. */
  lemma {:induction false} StopsCancels(o: Office, p: Pass, rows: seq<OrderRow>, i: nat)
    requires i <= |rows| && Cancels(o, p, rows[..i]).raised.Some?
    ensures Cancels(o, p, rows) == Cancels(o, p, rows[..i])
    decreases |rows| - i
  {
    if i < |rows| {
      assert rows[..i + 1][..i] == rows[..i];
      StopsCancels(o, p, rows, i + 1);
    } else {
      assert rows[..i] == rows;
    }
  }

  lemma {:induction false} StopsExits(o: Office, p: Pass, rows: seq<PositionRow>, i: nat)
    requires i <= |rows| && Exits(o, p, rows[..i]).raised.Some?
    ensures Exits(o, p, rows) == Exits(o, p, rows[..i])
    decreases |rows| - i
  {
    hide ExitPlaced;
    if i < |rows| {
      assert rows[..i + 1][..i] == rows[..i];
      StopsExits(o, p, rows, i + 1);
    } else {
      assert rows[..i] == rows;
    }
  }

  lemma {:induction false} StopsLegs(o: Office, d: Desk, instrument: string, legs: seq<Builder.LegPlan>, i: nat)
    requires i <= |legs| && StopsAfter(LegsSent(o, d, instrument, legs[..i]).value)
    ensures LegsSent(o, d, instrument, legs) == LegsSent(o, d, instrument, legs[..i])
    decreases |legs| - i
  {
    hide LegSent;
    if i < |legs| {
      assert legs[..i + 1][..i] == legs[..i];
      StopsLegs(o, d, instrument, legs, i + 1);
    } else {
      assert legs[..i] == legs;
    }
  }
}
