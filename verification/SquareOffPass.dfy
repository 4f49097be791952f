/** What one square-off attempt and one entry send, report and leave, in terms of what the broker
    showed. */
module SquareOffPass {
  import opened Options
  import opened Wire
  import opened Client
  import opened Executor
  import opened ExitProtocol
  import Builder
  import Lists

  /** Orders that took effect at the broker among these requests. */
  ghost function Orders(sent: seq<Event>): nat { Acted(Own(sent, PlaceOrder)) }

  lemma OrdersConcat(a: seq<Event>, b: seq<Event>)
    ensures Orders(a + b) == Orders(a) + Orders(b)
  {
    EffectsConcat(a, b, PlaceOrder);
  }

  ghost predicate NothingPlaced(sent: seq<Event>) {
    forall e <- sent :: e.Sent? && !e.ep.PlaceOrder?
  }

  lemma NoOrders(sent: seq<Event>)
    requires NothingPlaced(sent)
    ensures Orders(sent) == 0
  {
    OwnOfOthers(sent, PlaceOrder);
  }

  lemma RoutedPlacesNothing(sent: seq<Event>, ep: Endpoint, payload: Payload)
    requires Routed(sent, ep, payload) && !ep.PlaceOrder?
    ensures NothingPlaced(sent)
  {
  }

  lemma ReadPlacesNothing(b: Setup, s: Session, ep: Endpoint)
    requires ep.ReadOnly()
    ensures NothingPlaced(FullCall(b, s, ep, Empty).sent)
  {
    FullIsRouted(b, s, ep, Empty);
    RoutedPlacesNothing(FullCall(b, s, ep, Empty).sent, ep, Empty);
    hide FullCall;
  }

  // ---------- one exit ----------

  /** A refused exit never took effect.  Its key is latched exactly when its first token-expired refusal
      met a refresh token and the last request of the renewal was left in doubt; in every other case it
      stays free for another try. */
  lemma RefusedExitLatchedIff(o: Office, d: Desk, payload: Payload)
    requires o.setup.Fair() && o.setup.live && payload.Market? && payload.key !in d.attempted
    requires RefusedLast(Own(ExitPlaced(o, d, payload).sent, PlaceOrder))
    ensures var done := ExitPlaced(o, d, payload); var xs := Own(done.sent, PlaceOrder);
      && (payload.key in done.desk.attempted <==> d.session.refresh && FirstExpired(xs) && EndsInDoubt(done.sent))
      && Orders(done.sent) == 0
  {
    RefusedIsUnknownIff(o.setup, d.session, PlaceOrder, payload);
    hide FullCall, Own, Acted, EndsInDoubt, FirstExpired;
  }

  /** Without a refresh token every refused exit stays free. */
  lemma RefusedExitIsFreeWithoutToken(o: Office, d: Desk, payload: Payload)
    requires o.setup.Fair() && o.setup.live && payload.Market? && payload.key !in d.attempted && !d.session.refresh
    requires RefusedLast(Own(ExitPlaced(o, d, payload).sent, PlaceOrder))
    ensures payload.key !in ExitPlaced(o, d, payload).desk.attempted
  {
    RefusedExitLatchedIff(o, d, payload);
    hide ExitPlaced, Own;
  }

  // ---------- the cancelling pass ----------

  /** How many of these orders can still fill, going by their statuses. */
  ghost function StillWorking(rows: seq<OrderRow>): nat {
    if rows == [] then 0 else StillWorking(rows[..|rows| - 1]) + if IsOver(rows[|rows| - 1]) then 0 else 1
  }

  lemma {:induction false} OpenOrdersAreWorking(rows: seq<OrderRow>)
    ensures |OpenOrders(rows)| == StillWorking(rows)
  {
    hide IsOver;
    if rows != [] {
      OpenOrdersAreWorking(rows[..|rows| - 1]);
      OpenUnlessOver(rows[|rows| - 1]);
    }
  }

  /** How many of these positions are not flat. */
  ghost function Exposed(rows: seq<PositionRow>): nat {
    if rows == [] then 0 else Exposed(rows[..|rows| - 1]) + if rows[|rows| - 1].net == 0 then 0 else 1
  }

  lemma {:induction false} OpenRowsAreExposed(rows: seq<PositionRow>)
    ensures |OpenRows(rows)| == Exposed(rows)
  {
    if rows != [] {
      OpenRowsAreExposed(rows[..|rows| - 1]);
    }
  }

  ghost predicate AsksToCancel(sent: seq<Event>, id: string) {
    exists e <- sent :: e.Sent? && e.ep.CancelOrder? && e.payload == OrderRef(id)
  }

  /** What a cancelling pass over these rows has sent and counted since `p`. */
  ghost predicate Cancelling(o: Office, p: Pass, q: Pass, rows: seq<OrderRow>, more: seq<Event>) {
    && q.sent == p.sent + more && NothingPlaced(more)
    && q.desk.attempted == p.desk.attempted && q.desk.registry == p.desk.registry && q.raised == p.raised
    && q.done >= p.done && q.failures >= p.failures
    && (q.done - p.done) + (q.failures - p.failures) == StillWorking(rows)
    && (forall j :: 0 <= j < |rows| && !IsOver(rows[j]) ==> AsksToCancel(more, rows[j].id))
    && q.done - p.done <= Acted(Own(more, CancelOrder)) <= (q.done - p.done) + (q.failures - p.failures)
  }

  /** In LIVE every open row of the order book is asked to be cancelled, once, and counted as cancelled
      or failed; nothing is placed. */
  lemma {:induction false} CancelsEveryOpenOrder(o: Office, p: Pass, rows: seq<OrderRow>) returns (more: seq<Event>)
    requires o.setup.Fair() && o.setup.live && p.raised.None?
    ensures Cancelling(o, p, Cancels(o, p, rows), rows, more)
  {
    hide CancelStep, Cancelling;
    if rows == [] {
      more := [];
      NothingCancelled(o, p);
    } else {
      var init, row := rows[..|rows| - 1], rows[|rows| - 1];
      var sent := CancelsEveryOpenOrder(o, p, init);
      var last := CancelStepSends(o, p, Cancels(o, p, init), init, sent, row);
      more := sent + last;
      assert rows == init + [row];
    }
  }

  lemma NothingCancelled(o: Office, p: Pass)
    ensures Cancelling(o, p, p, [], [])
  {
  }

  lemma CancelStepSends(o: Office, p: Pass, q: Pass, init: seq<OrderRow>, sent: seq<Event>, row: OrderRow)
    returns (more: seq<Event>)
    requires o.setup.Fair() && o.setup.live && p.raised.None? && Cancelling(o, p, q, init, sent)
    ensures Cancelling(o, p, CancelStep(o, q, row), init + [row], sent + more)
  {
    hide Ordered, Own, Acted, AsksToCancel, NothingPlaced, StillWorking, IsOver, Carried;
    WorkingSnoc(init, row);
    if row.IsOpen() {
      var ran := Ordered(o.setup, q.desk.session, CancelOrder, OrderRef(row.id));
      more := ran.sent;
      OrderedIsCarried(o.setup, q.desk.session, CancelOrder, OrderRef(row.id));
      OneMoreCancel(o, p, q, init, sent, row, ran);
    } else {
      more := [];
      assert sent + [] == sent;
    }
  }

  lemma WorkingSnoc(init: seq<OrderRow>, row: OrderRow)
    ensures StillWorking(init + [row]) == StillWorking(init) + if row.IsOpen() then 1 else 0
    ensures row.IsOpen() <==> !IsOver(row)
  {
    OpenUnlessOver(row);
    hide IsOver;
    assert (init + [row])[..|init + [row]| - 1] == init;
  }

  lemma OneMoreCancel(o: Office, p: Pass, q: Pass, init: seq<OrderRow>, sent: seq<Event>, row: OrderRow, ran: Ran)
    requires row.IsOpen() && Cancelling(o, p, q, init, sent) && Carried(ran.sent, CancelOrder, OrderRef(row.id), ran.answer)
    ensures Cancelling(o, p, Tallied(q, q.desk.(session := ran.session), ran.sent, ran.answer), init + [row], sent + ran.sent)
  {
    hide Own, Acted, AsksToCancel, NothingPlaced, StillWorking, IsOver, Routed;
    WorkingSnoc(init, row);
    RoutedPlacesNothing(ran.sent, CancelOrder, OrderRef(row.id));
    PlacesNothingConcat(sent, ran.sent);
    AskedAgain(sent, ran.sent, init, row);
    EffectsConcat(sent, ran.sent, CancelOrder);
    Lists.Associates(p.sent, sent, ran.sent);
  }

  lemma PlacesNothingConcat(a: seq<Event>, b: seq<Event>)
    requires NothingPlaced(a) && NothingPlaced(b)
    ensures NothingPlaced(a + b)
  {
  }

  lemma EffectsConcat(a: seq<Event>, b: seq<Event>, ep: Endpoint)
    ensures Acted(Own(a + b, ep)) == Acted(Own(a, ep)) + Acted(Own(b, ep))
  {
    OwnConcat(a, b, ep);
    ActedConcat(Own(a, ep), Own(b, ep));
  }

  lemma AskedAgain(sent: seq<Event>, more: seq<Event>, init: seq<OrderRow>, row: OrderRow)
    requires forall j :: 0 <= j < |init| && !IsOver(init[j]) ==> AsksToCancel(sent, init[j].id)
    requires Routed(more, CancelOrder, OrderRef(row.id))
    ensures forall j :: 0 <= j < |init + [row]| && !IsOver((init + [row])[j]) ==> AsksToCancel(sent + more, (init + [row])[j].id)
  {
    hide IsOver;
    forall j | 0 <= j < |init + [row]| && !IsOver((init + [row])[j])
      ensures AsksToCancel(sent + more, (init + [row])[j].id)
    {
      if j < |init| {
        var e :| e in sent && e.Sent? && e.ep.CancelOrder? && e.payload == OrderRef(init[j].id);
        assert e in sent + more;
      } else {
        assert more[0] in sent + more;
      }
    }
  }

  // ---------- the exiting pass ----------

  /** The market order that closes a row: the whole net quantity on the other side, filed under the row's
      token, or under its trading symbol if it has none. */
  ghost predicate Closes(payload: Payload, row: PositionRow) {
    payload == Market(row.instrument, if row.token != "" then row.token else row.tradingSymbol, -row.net)
  }

  /** Every order in these requests closes an open row whose key was free. */
  ghost predicate OnlyExitsOf(sent: seq<Event>, rows: seq<PositionRow>, latched: set<string>) {
    forall e <- sent :: e.Sent? && (e.ep.PlaceOrder? ==> ClosesARow(e.payload, rows, latched))
  }

  ghost predicate ClosesARow(payload: Payload, rows: seq<PositionRow>, latched: set<string>) {
    exists i :: 0 <= i < |rows| && rows[i].net != 0 && RowKey(rows[i]) !in latched && Closes(payload, rows[i])
  }

  ghost predicate AskedToClose(sent: seq<Event>, row: PositionRow) {
    exists e <- sent :: e.Sent? && e.ep.PlaceOrder? && Closes(e.payload, row)
  }

  /** No earlier open row carries the same key. */
  ghost predicate FirstOfKey(rows: seq<PositionRow>, i: int)
    requires 0 <= i < |rows|
  {
    forall j :: 0 <= j < i && rows[j].net != 0 ==> RowKey(rows[j]) != RowKey(rows[i])
  }

  ghost predicate OpenWithKey(rows: seq<PositionRow>, key: string) {
    exists j :: 0 <= j < |rows| && rows[j].net != 0 && RowKey(rows[j]) == key
  }

  /** The first open row of every free key has been asked to be closed. */
  ghost predicate EachTried(sent: seq<Event>, rows: seq<PositionRow>, latched: set<string>) {
    forall i :: 0 <= i < |rows| && rows[i].net != 0 && FirstOfKey(rows, i) && RowKey(rows[i]) !in latched ==>
      AskedToClose(sent, rows[i])
  }

  /** What an exiting pass over these rows has sent, with `latched` latched before it and `now` after. */
  ghost predicate Tries(latched: set<string>, now: set<string>, rows: seq<PositionRow>, more: seq<Event>) {
    && latched <= now && (forall key <- now :: key in latched || OpenWithKey(rows, key))
    && OnlyExitsOf(more, rows, latched) && EachTried(more, rows, latched)
  }

  /** Every open row is counted as submitted or failed, and the effects lie between the two. */
  ghost predicate Counts(p: Pass, q: Pass, rows: seq<PositionRow>, more: seq<Event>) {
    && q.done >= p.done && q.failures >= p.failures
    && (q.done - p.done) + (q.failures - p.failures) == Exposed(rows)
    && q.done - p.done <= Orders(more) <= (q.done - p.done) + (q.failures - p.failures)
  }

  ghost predicate Closing(o: Office, p: Pass, q: Pass, rows: seq<PositionRow>, more: seq<Event>) {
    && q.sent == p.sent + more && q.desk.registry == p.desk.registry && q.raised == p.raised
    && Tries(p.desk.attempted, q.desk.attempted, rows, more)
    && Counts(p, q, rows, more)
  }

  /** In LIVE an exiting pass sends only closing orders for open rows whose key was free; the first open
      row of every free key is asked to be closed; every open row is counted as submitted or failed, and
      the effects at the broker lie between the two. */
  lemma {:induction false} ExitsCloseTheRows(o: Office, p: Pass, rows: seq<PositionRow>) returns (more: seq<Event>)
    requires o.setup.Fair() && o.setup.live && p.raised.None?
    ensures Closing(o, p, Exits(o, p, rows), rows, more)
  {
    hide ExitStep, Closing;
    if rows == [] {
      more := [];
      NothingClosed(o, p);
    } else {
      var init, row := rows[..|rows| - 1], rows[|rows| - 1];
      var sent := ExitsCloseTheRows(o, p, init);
      var last := ExitStepSends(o, p, Exits(o, p, init), init, sent, row);
      more := sent + last;
      assert rows == init + [row];
    }
  }

  lemma NothingClosed(o: Office, p: Pass)
    ensures Closing(o, p, p, [], [])
  {
  }

  lemma ExposedSnoc(init: seq<PositionRow>, row: PositionRow)
    ensures Exposed(init + [row]) == Exposed(init) + if row.IsOpen() then 1 else 0
  {
    assert (init + [row])[..|init + [row]| - 1] == init;
  }

  lemma ExitStepSends(o: Office, p: Pass, q: Pass, init: seq<PositionRow>, sent: seq<Event>, row: PositionRow)
    returns (more: seq<Event>)
    requires o.setup.Fair() && o.setup.live && p.raised.None? && Closing(o, p, q, init, sent)
    ensures Closing(o, p, ExitStep(o, q, row), init + [row], sent + more)
  {
    hide Ordered, Orders, Tries, Exposed, Carried;
    ExposedSnoc(init, row);
    if row.IsOpen() && RowKey(row) !in q.desk.attempted {
      var ran := Ordered(o.setup, q.desk.session, PlaceOrder, ExitFor(row));
      more := ran.sent;
      OrderedIsCarried(o.setup, q.desk.session, PlaceOrder, ExitFor(row));
      OneMoreExit(o, p, q, init, sent, row, ran);
    } else {
      more := [];
      assert sent + [] == sent;
      TriesNothing(p.desk.attempted, q.desk.attempted, init, sent, row);
    }
  }

  /** A row that is closed or latched by now needs no order. */
  lemma TriesNothing(latched: set<string>, now: set<string>, init: seq<PositionRow>, sent: seq<Event>, row: PositionRow)
    requires Tries(latched, now, init, sent) && (row.IsOpen() ==> RowKey(row) in now)
    ensures Tries(latched, now, init + [row], sent)
  {
    hide EachTried, OnlyExitsOf, OpenWithKey;
    StillOnlyExits(sent, init, row, latched);
    StillOpen(now, latched, init, row);
    StillTried(sent, [], init, row, latched);
    assert sent + [] == sent;
  }

  lemma TriesOne(latched: set<string>, now: set<string>, init: seq<PositionRow>, sent: seq<Event>, row: PositionRow,
                 more: seq<Event>, after: set<string>)
    requires Tries(latched, now, init, sent) && row.IsOpen() && RowKey(row) !in now && now <= after <= now + {RowKey(row)}
    requires Routed(more, PlaceOrder, ExitFor(row))
    ensures Tries(latched, after, init + [row], sent + more)
  {
    CarriedAsks(more, row, init, latched);
    hide EachTried, OnlyExitsOf, OpenWithKey, Routed, AskedToClose;
    StillOnlyExits(sent, init, row, latched);
    OnlyExitsConcat(sent, more, init + [row], latched);
    StillOpen(now, latched, init, row);
    StillTried(sent, more, init, row, latched);
  }

  lemma StillOnlyExits(sent: seq<Event>, init: seq<PositionRow>, row: PositionRow, latched: set<string>)
    requires OnlyExitsOf(sent, init, latched)
    ensures OnlyExitsOf(sent, init + [row], latched)
  {
    forall e <- sent | e.ep.PlaceOrder?
      ensures ClosesARow(e.payload, init + [row], latched)
    {
      var i :| 0 <= i < |init| && init[i].net != 0 && RowKey(init[i]) !in latched && Closes(e.payload, init[i]);
      assert (init + [row])[i] == init[i];
    }
  }

  lemma StillOpen(keys: set<string>, latched: set<string>, init: seq<PositionRow>, row: PositionRow)
    requires forall key <- keys :: key in latched || OpenWithKey(init, key)
    ensures forall key <- keys :: key in latched || OpenWithKey(init + [row], key)
  {
    forall key <- keys | key !in latched
      ensures OpenWithKey(init + [row], key)
    {
      var j :| 0 <= j < |init| && init[j].net != 0 && RowKey(init[j]) == key;
      assert (init + [row])[j] == init[j];
    }
  }

  /** The rows tried so far stay tried; the new row is either not the first of its key or asked now. */
  lemma StillTried(sent: seq<Event>, more: seq<Event>, init: seq<PositionRow>, row: PositionRow, latched: set<string>)
    requires EachTried(sent, init, latched)
    requires row.IsOpen() && RowKey(row) !in latched ==> OpenWithKey(init, RowKey(row)) || AskedToClose(more, row)
    ensures EachTried(sent + more, init + [row], latched)
  {
    var rows := init + [row];
    if OpenWithKey(init, RowKey(row)) {
      NotFirst(init, row);
    }
    forall i | 0 <= i < |rows| && rows[i].net != 0 && FirstOfKey(rows, i) && RowKey(rows[i]) !in latched
      ensures AskedToClose(sent + more, rows[i])
    {
      if i < |init| {
        assert forall j :: 0 <= j < i ==> rows[j] == init[j];
        assert FirstOfKey(init, i);
        var e :| e in sent && e.Sent? && e.ep.PlaceOrder? && Closes(e.payload, rows[i]);
        assert e in sent + more;
      } else {
        var e :| e in more && e.Sent? && e.ep.PlaceOrder? && Closes(e.payload, row);
        assert e in sent + more;
      }
    }
  }

  lemma NotFirst(init: seq<PositionRow>, row: PositionRow)
    requires OpenWithKey(init, RowKey(row))
    ensures !FirstOfKey(init + [row], |init|)
  {
    var j :| 0 <= j < |init| && init[j].net != 0 && RowKey(init[j]) == RowKey(row);
    assert (init + [row])[j] == init[j];
  }

  lemma OneMoreExit(o: Office, p: Pass, q: Pass, init: seq<PositionRow>, sent: seq<Event>, row: PositionRow, ran: Ran)
    requires Closing(o, p, q, init, sent) && row.IsOpen() && RowKey(row) !in q.desk.attempted
    requires Carried(ran.sent, PlaceOrder, ExitFor(row), ran.answer)
    ensures var desk := q.desk.(session := ran.session, attempted := AfterExit(q.desk.attempted, RowKey(row), ran.answer));
      Closing(o, p, Tallied(q, desk, ran.sent, ran.answer), init + [row], sent + ran.sent)
  {
    var after := AfterExit(q.desk.attempted, RowKey(row), ran.answer);
    CountsOne(p, q, init, sent, row, ran, after);
    LatchedKeys(q.desk.attempted, RowKey(row), ran.answer);
    TalliedIs(q, q.desk.(session := ran.session, attempted := after), ran.sent, ran.answer);
    hide Tries, Counts, Routed, Own, Acted, AfterExit, Tallied;
    TriesOne(p.desk.attempted, q.desk.attempted, init, sent, row, ran.sent, after);
    Lists.Associates(p.sent, sent, ran.sent);
  }

  lemma TalliedIs(q: Pass, desk: Desk, sent: seq<Event>, r: CallResult)
    ensures var t := Tallied(q, desk, sent, r);
      t.desk == desk && t.sent == q.sent + sent && (r != Err(PaperRefused) ==> t.raised == q.raised)
  {
  }

  lemma CountsOne(p: Pass, q: Pass, init: seq<PositionRow>, sent: seq<Event>, row: PositionRow, ran: Ran, after: set<string>)
    requires Counts(p, q, init, sent) && row.IsOpen() && Carried(ran.sent, PlaceOrder, ExitFor(row), ran.answer)
    ensures Counts(p, Tallied(q, q.desk.(session := ran.session, attempted := after), ran.sent, ran.answer),
                   init + [row], sent + ran.sent)
  {
    assert Orders(ran.sent) == Acted(Own(ran.sent, PlaceOrder));
    ExposedSnoc(init, row);
    OrdersConcat(sent, ran.sent);
    hide Orders, Exposed, Routed, Own, Acted;
  }

  lemma LatchedKeys(attempted: set<string>, key: string, r: CallResult)
    ensures attempted <= AfterExit(attempted, key, r) <= attempted + {key}
  {
  }

  lemma OnlyExitsConcat(a: seq<Event>, b: seq<Event>, rows: seq<PositionRow>, latched: set<string>)
    requires OnlyExitsOf(a, rows, latched) && OnlyExitsOf(b, rows, latched)
    ensures OnlyExitsOf(a + b, rows, latched)
  {
  }

  lemma CarriedAsks(sent: seq<Event>, row: PositionRow, init: seq<PositionRow>, latched: set<string>)
    requires Routed(sent, PlaceOrder, ExitFor(row)) && row.IsOpen() && RowKey(row) !in latched
    ensures AskedToClose(sent, row) && OnlyExitsOf(sent, init + [row], latched) && OpenWithKey(init + [row], RowKey(row))
  {
    var rows := init + [row];
    assert rows[|init|] == row;
    assert ClosesARow(ExitFor(row), rows, latched);
    assert sent[0] in sent;
  }

  // ---------- the whole attempt ----------

  lemma {:induction false} OpenRowsMembers(rows: seq<PositionRow>)
    ensures forall row :: row in OpenRows(rows) <==> row in rows && row.IsOpen()
  {
    if rows != [] {
      OpenRowsMembers(rows[..|rows| - 1]);
      assert rows == rows[..|rows| - 1] + [rows[|rows| - 1]];
    }
  }

  lemma {:induction false} OpenOrdersMembers(rows: seq<OrderRow>)
    ensures forall row :: row in OpenOrders(rows) <==> row in rows && row.IsOpen()
  {
    if rows != [] {
      OpenOrdersMembers(rows[..|rows| - 1]);
      assert rows == rows[..|rows| - 1] + [rows[|rows| - 1]];
    }
  }

  /** A report is flat exactly when the re-read showed no working order and no open position. */
  lemma FlatIff(orders: seq<OrderRow>, positions: seq<PositionRow>)
    ensures |OpenOrders(orders)| == 0 && |OpenRows(positions)| == 0
       <==> (forall o <- orders :: IsOver(o)) && (forall p <- positions :: p.net == 0)
  {
    hide IsOver;
    forall o <- orders
      ensures o.IsOpen() <==> !IsOver(o)
    {
      OpenUnlessOver(o);
    }
    OpenOrdersMembers(orders);
    OpenRowsMembers(positions);
    if |OpenOrders(orders)| > 0 {
      assert OpenOrders(orders)[0] in OpenOrders(orders);
    }
    if |OpenRows(positions)| > 0 {
      assert OpenRows(positions)[0] in OpenRows(positions);
    }
  }

  /** A cancelling pass places nothing and latches nothing; in LIVE it stops only when the order book could
      not be read. */
  lemma CancellingPass(o: Office, d: Desk)
    requires o.setup.Fair() && o.setup.live
    ensures var c := WorkingCancelled(o, d);
      && NothingPlaced(c.sent) && c.desk.attempted == d.attempted && c.desk.registry == d.registry
      && (c.raised.Some? <==> OrdersIn(OrderRead(o, d).answer).NoRows?)
  {
    hide FullCall, Cancels;
    var read := OrderRead(o, d);
    ReadPlacesNothing(o.setup, d.session, OrderBook);
    match OrdersIn(read.answer)
    case NoRows(_) =>
    case Rows(orders) =>
      var more := CancelsEveryOpenOrder(o, Began(d, read, None), orders);
      PlacesNothingConcat(read.sent, more);
  }

  /** The position book an exiting pass from this desk reads. */
  function BookRead(o: Office, d: Desk): Rows<PositionRow> { PositionsIn(PositionRead(o, d).answer) }

  /** An exiting pass: the rows are the book that the broker showed in this very call; what follows the
      reading closes them. */
  lemma ExitingPass(o: Office, d: Desk, log: seq<Event>) returns (more: seq<Event>)
    requires o.setup.Fair() && o.setup.live
    ensures var e, read := OpenExited(o, d), PositionRead(o, d);
      && e.sent == read.sent + more && NothingPlaced(read.sent) && e.desk.registry == d.registry
      && (e.raised.Some? <==> BookRead(o, d).NoRows?)
      && (BookRead(o, d).NoRows? ==> more == [] && e.desk.attempted == d.attempted)
      && (BookRead(o, d).Rows? ==>
            && LatestPositions(log + read.sent) == BookRead(o, d)
            && Tries(d.attempted, e.desk.attempted, BookRead(o, d).rows, more)
            && e.done + e.failures == Exposed(BookRead(o, d).rows)
            && e.done <= Orders(more) <= e.done + e.failures)
  {
    hide FullCall, Exits, Tries, Orders, Exposed, LatestAnswer;
    var read := PositionRead(o, d);
    ReadPlacesNothing(o.setup, d.session, Positions);
    match PositionsIn(read.answer)
    case NoRows(_) =>
      more := [];
      assert read.sent + [] == read.sent;
    case Rows(positions) =>
      more := ExitsCloseTheRows(o, Began(d, read, None), positions);
      ReadIsLatest(o.setup, d.session, Positions, log);
  }

  /** The re-reading: nothing is placed, and the residuals are those of the latest book and positions
      shown. */
  lemma ReReadingPass(o: Office, d: Desk, cancelled: nat, exits: nat, failures: nat, log: seq<Event>)
    ensures var r := ReRead(o, d, cancelled, exits, failures);
      && NothingPlaced(r.sent) && r.desk.attempted == d.attempted && r.desk.registry == d.registry
      && (r.value.Report? ==>
            && r.value == Report(cancelled, exits, r.value.residualOrders, r.value.residualPositions, failures)
            && LatestOrders(log + r.sent).Rows? && r.value.residualOrders == StillWorking(LatestOrders(log + r.sent).rows)
            && LatestPositions(log + r.sent).Rows?
            && r.value.residualPositions == Exposed(LatestPositions(log + r.sent).rows))
  {
    hide FullCall, OpenOrders, OpenRows, StillWorking, Exposed, LatestAnswer, NothingPlaced;
    var a := OrderRead(o, d);
    ReadPlacesNothing(o.setup, d.session, OrderBook);
    if OrdersIn(a.answer).Rows? {
      var next := a.session;
      var b := FullCall(o.setup, next, Positions, Empty);
      ReadPlacesNothing(o.setup, next, Positions);
      PlacesNothingConcat(a.sent, b.sent);
      ReadIsLatest(o.setup, d.session, OrderBook, log);
      assert log + (a.sent + b.sent) == log + a.sent + b.sent;
      LatestUntouched(o.setup, next, Positions, OrderBook, log + a.sent);
      if PositionsIn(b.answer).Rows? {
        ReadIsLatest(o.setup, next, Positions, log + a.sent);
        OpenOrdersAreWorking(OrdersIn(a.answer).rows);
        OpenRowsAreExposed(PositionsIn(b.answer).rows);
      }
    }
  }

  /** Reading one book leaves the latest reading of the other. */
  lemma LatestUntouched(b: Setup, s: Session, ep: Endpoint, other: Endpoint, log: seq<Event>)
    requires ep.ReadOnly() && other.ReadOnly() && ep != other
    ensures LatestAnswer(log + FullCall(b, s, ep, Empty).sent, other) == LatestAnswer(log, other)
  {
    FullIsRouted(b, s, ep, Empty);
    var sent := FullCall(b, s, ep, Empty).sent;
    hide FullCall, Routed, Verdict, Own;
    RoutedElsewhere(sent, ep, other);
    OwnConcat(log, sent, other);
    assert Own(log, other) + [] == Own(log, other);
  }

  lemma RoutedElsewhere(sent: seq<Event>, ep: Endpoint, other: Endpoint)
    requires Routed(sent, ep, Empty) && other.ReadOnly() && ep != other
    ensures Own(sent, other) == []
  {
    OwnOfOthers(sent, other);
  }

  /** In LIVE an attempt raises exactly when one of its readings gives no rows. */
  lemma SquareOffRaisesIff(o: Office, d: Desk)
    requires o.setup.Fair() && o.setup.live && o.live
    ensures var c := WorkingCancelled(o, d); var e := OpenExited(o, c.desk);
      Flattened(o, d).value.FlattenRaised?
      <==> || OrdersIn(OrderRead(o, d).answer).NoRows? || BookRead(o, c.desk).NoRows?
           || OrdersIn(OrderRead(o, e.desk).answer).NoRows?
           || BookRead(o, e.desk.(session := OrderRead(o, e.desk).session)).NoRows?
  {
    var c := WorkingCancelled(o, d);
    CancellingPass(o, d);
    var more := ExitingPass(o, c.desk, []);
    hide FullCall, WorkingCancelled, OpenExited, NothingPlaced, Tries, Orders, Exposed, LatestAnswer;
  }

  /** After `n` of these requests, none of them an order, the broker had shown `rows`; every order closes
      an open one of them whose key was free, and the first open row of every free key was asked to be
      closed. */
  ghost predicate AttemptSends(log: seq<Event>, sent: seq<Event>, n: nat, rows: seq<PositionRow>, latched: set<string>) {
    && n <= |sent| && NothingPlaced(sent[..n]) && LatestPositions(log + sent[..n]) == Rows(rows)
    && OnlyExitsOf(sent, rows, latched) && EachTried(sent, rows, latched)
  }

  /** The residuals are what the broker showed last. */
  ghost predicate AttemptReports(log: seq<Event>, r: FlattenOutcome) {
    && r.Report?
    && LatestOrders(log).Rows? && r.residualOrders == StillWorking(LatestOrders(log).rows)
    && LatestPositions(log).Rows? && r.residualPositions == Exposed(LatestPositions(log).rows)
  }

  /** One LIVE attempt that reports: what it sent, what took effect, what it reports, and that the registry
      is cleared exactly when nothing is left. */
  lemma SquareOffAttempt(o: Office, d: Desk, log: seq<Event>) returns (n: nat, rows: seq<PositionRow>)
    requires o.setup.Fair() && o.setup.live && o.live && Flattened(o, d).value.Report?
    ensures var done := Flattened(o, d);
      && AttemptSends(log, done.sent, n, rows, d.attempted) && AttemptReports(log + done.sent, done.value)
      && done.value.exits <= Orders(done.sent) <= done.value.exits + done.value.failures
      && d.attempted <= done.desk.attempted
      && done.desk.registry == if done.value.IsFlat() then map[] else d.registry
  {
    hide FullCall, WorkingCancelled, OpenExited, ReRead, NothingPlaced, Tries, Orders, StillWorking, Exposed, LatestAnswer,
         OnlyExitsOf, EachTried, AttemptSends, AttemptReports;
    var c := WorkingCancelled(o, d);
    CancellingPass(o, d);
    var e := OpenExited(o, c.desk);
    var more := ExitingPass(o, c.desk, log + c.sent);
    var r := ReRead(o, e.desk, c.done, e.done, c.failures + e.failures);
    ReportIs(o, e.desk, c.done, e.done, c.failures + e.failures, log, c.sent + e.sent);
    var read := PositionRead(o, c.desk).sent;
    n, rows := |c.sent + read|, BookRead(o, c.desk).rows;
    SendsOf(log, c.sent, read, more, r.sent, rows, d.attempted, e.desk.attempted);
  }

  /** Every order row is over, and every position row zero. */
  ghost predicate NothingLeft(orders: seq<OrderRow>, positions: seq<PositionRow>) {
    (forall o <- orders :: IsOver(o)) && (forall p <- positions :: p.net == 0)
  }

  lemma NothingLeftIff(orders: seq<OrderRow>, positions: seq<PositionRow>)
    ensures NothingLeft(orders, positions) <==> StillWorking(orders) == 0 && Exposed(positions) == 0
  {
    FlatIff(orders, positions);
    OpenOrdersAreWorking(orders);
    OpenRowsAreExposed(positions);
    hide OpenOrders, OpenRows, StillWorking, Exposed, IsOver;
  }

  /** A LIVE attempt is flat, and clears the registry, exactly when the books that it was shown last hold
      nothing; one that raises leaves the registry alone; and PAPER clears it without a request. */
  lemma RegistryClearedIff(o: Office, d: Desk, log: seq<Event>)
    requires o.live ==> o.setup.Fair() && o.setup.live
    ensures var done := Flattened(o, d); var after := log + done.sent;
      && (o.live && done.value.FlattenRaised? ==> done.desk.registry == d.registry)
      && (o.live && done.value.Report? ==>
            && LatestOrders(after).Rows? && LatestPositions(after).Rows?
            && (done.value.IsFlat() <==> NothingLeft(LatestOrders(after).rows, LatestPositions(after).rows))
            && done.desk.registry == if NothingLeft(LatestOrders(after).rows, LatestPositions(after).rows) then map[] else d.registry)
      && (!o.live ==> done.sent == [] && done.desk == d.(registry := map[]) && done.value == Report(0, 0, 0, 0, 0))
  {
    if o.live {
      hide FullCall, NothingLeft, StillWorking, Exposed, LatestAnswer, WorkingCancelled, OpenExited, ReRead,
           NothingPlaced, Tries, Orders, AttemptSends;
      var done := Flattened(o, d);
      if done.value.Report? {
        var n, rows := SquareOffAttempt(o, d, log);
        NothingLeftIff(LatestOrders(log + done.sent).rows, LatestPositions(log + done.sent).rows);
      } else {
        RaisingKeepsRegistry(o, d);
      }
    }
  }

  lemma RaisingKeepsRegistry(o: Office, d: Desk)
    requires o.setup.Fair() && o.setup.live && o.live && Flattened(o, d).value.FlattenRaised?
    ensures Flattened(o, d).desk.registry == d.registry
  {
    hide FullCall, WorkingCancelled, OpenExited, ReRead, NothingPlaced, Tries, Orders, Exposed, LatestAnswer;
    var c := WorkingCancelled(o, d);
    CancellingPass(o, d);
    var e := OpenExited(o, c.desk);
    var more := ExitingPass(o, c.desk, []);
    ReportIs(o, e.desk, c.done, e.done, c.failures + e.failures, [], []);
  }

  lemma ReportIs(o: Office, d: Desk, cancelled: nat, exits: nat, failures: nat, log: seq<Event>, sent: seq<Event>)
    ensures var r := ReRead(o, d, cancelled, exits, failures);
      && NothingPlaced(r.sent) && r.desk.attempted == d.attempted && r.desk.registry == d.registry
      && (r.value.Report? ==> AttemptReports(log + (sent + r.sent), r.value) && r.value.exits == exits && r.value.failures == failures)
  {
    ReReadingPass(o, d, cancelled, exits, failures, log + sent);
    hide ReRead, NothingPlaced, StillWorking, Exposed, LatestAnswer;
    var r := ReRead(o, d, cancelled, exits, failures);
    assert log + sent + r.sent == log + (sent + r.sent);
  }

  lemma SendsOf(log: seq<Event>, before: seq<Event>, read: seq<Event>, more: seq<Event>, after: seq<Event>,
                rows: seq<PositionRow>, latched: set<string>, now: set<string>)
    requires NothingPlaced(before) && NothingPlaced(read) && NothingPlaced(after)
    requires LatestPositions(log + before + read) == Rows(rows) && Tries(latched, now, rows, more)
    ensures var all := before + (read + more) + after;
      AttemptSends(log, all, |before + read|, rows, latched) && Orders(all) == Orders(more) && latched <= now
  {
    hide NothingPlaced, Tries, Orders, LatestAnswer, OnlyExitsOf, EachTried;
    PlacesNothingConcat(before, read);
    SentAround(before + read, more, after, rows, latched, now);
    Lists.Associates(before, read, more);
    Lists.Associates(log, before, read);
    PrefixOf(before + read, more, after);
  }

  lemma PrefixOf(first: seq<Event>, more: seq<Event>, after: seq<Event>)
    ensures |first| <= |first + more + after| && (first + more + after)[..|first|] == first
  {
  }

  /** Requests that place nothing around the exits change neither what was sent nor its effects. */
  lemma SentAround(before: seq<Event>, more: seq<Event>, after: seq<Event>, rows: seq<PositionRow>, latched: set<string>,
                   now: set<string>)
    requires NothingPlaced(before) && NothingPlaced(after) && Tries(latched, now, rows, more)
    ensures var all := before + more + after;
      OnlyExitsOf(all, rows, latched) && EachTried(all, rows, latched) && Orders(all) == Orders(more) && latched <= now
  {
    var all := before + more + after;
    NoOrders(before);
    NoOrders(after);
    OrdersConcat(before, more);
    OrdersConcat(before + more, after);
    hide Orders;
    forall row | AskedToClose(more, row)
      ensures AskedToClose(all, row)
    {
      var e :| e in more && e.Sent? && e.ep.PlaceOrder? && Closes(e.payload, row);
      assert e in all;
    }
  }
}
