/** The vocabulary of the broker connection: routes, payloads, replies, and the log of everything
    that left the machine.  A reply is what the caller saw; `acted` is what the broker did. */
module Wire {
  import opened Texts

  datatype Endpoint =
    | Login | Refresh | Logout
    | PlaceOrder | ModifyOrder | CancelOrder
    | OrderBook | TradeBook | Positions | Rms | Profile
  {
    /** The three routes that move money: intercepted in PAPER, never re-sent once transmitted. */
    predicate MovesMoney() { PlaceOrder? || ModifyOrder? || CancelOrder? }

    predicate ReadOnly() { OrderBook? || TradeBook? || Positions? || Rms? || Profile? }

    predicate Session() { Login? || Refresh? }
  }

  /** The status as the broker words it.  Unless it is, in any case and with any blanks around it, one of
      the four words for an order that is over, the order can still fill. */
  datatype OrderRow = OrderRow(id: string, status: string) {
    predicate IsOpen() { Lowered(Stripped(status)) !in {"complete", "cancelled", "canceled", "rejected"} }
  }

  /** An order is over exactly when its status says so. */
  ghost predicate IsOver(row: OrderRow) {
    Says(row.status, "complete") || Says(row.status, "cancelled") || Says(row.status, "canceled") || Says(row.status, "rejected")
  }

  lemma OpenUnlessOver(row: OrderRow)
    ensures row.IsOpen() <==> !IsOver(row)
  {
    assert IsWord("complete") && IsWord("cancelled") && IsWord("canceled") && IsWord("rejected");
    hide Lowered, Stripped, Says, IsWord;
    SaysIff(row.status, "complete");
    SaysIff(row.status, "cancelled");
    SaysIff(row.status, "canceled");
    SaysIff(row.status, "rejected");
  }

  /** `instrument` is what the row really is; `token` and `tradingSymbol` are how it is spelled. */
  datatype PositionRow = PositionRow(instrument: string, token: string, tradingSymbol: string, net: int) {
    predicate IsOpen() { net != 0 }
  }

  datatype Data =
    | Null
    | Tokens(jwt: bool, feed: bool, refresh: bool)
    | OrderRows(orders: seq<OrderRow>)
    | PositionRows(positions: seq<PositionRow>)
    | Simulated
    | OtherData

  /** `delta` is the signed quantity an order adds to the net position, positive to buy.  `Bracket` is an
      entry with its limit price and its three distances; `Market` is an exit, with the dedup key the
      executor filed it under. */
  datatype Payload =
    | Empty
    | Credentials
    | OrderRef(id: string)
    | Bracket(instrument: string, delta: int, price: real, squareOff: real, stopLoss: real, trailing: real)
    | Market(instrument: string, key: string, delta: int)

  datatype Reply =
    | NeverSent                                              // connect error, connect or pool timeout
    | Lost                                                   // any later transport failure
    | NonJson(http: nat)
    | Json(ok: bool, tokenCode: bool, http: nat, data: Data)
  {
    /** An authentication refusal: a documented code, or a bare 401. */
    predicate Expired() { Json? && !ok && (tokenCode || http == 401) }
  }

  datatype Exchange = Exchange(reply: Reply, acted: bool) {
    /** What is assumed of the broker.  A request that never left cannot act; `status: true` means it
        acted; any other JSON reply is a refusal.  `Lost` and `NonJson` promise nothing. */
    predicate Fair() {
      && (reply.NeverSent? ==> !acted)
      && (reply.Json? ==> acted == reply.ok)
    }
  }

  datatype Event =
    | Sent(ep: Endpoint, payload: Payload, exchange: Exchange)
    | Rearmed(key: string)                                   // a new entry re-armed this dedup key

  /** The exchanges of one route, oldest first. */
  ghost function Own(log: seq<Event>, ep: Endpoint): seq<Exchange> {
    if log == [] then []
    else
      var last := log[|log| - 1];
      Own(log[..|log| - 1], ep) + if last.Sent? && last.ep == ep then [last.exchange] else []
  }

  lemma {:induction false} OwnConcat(a: seq<Event>, b: seq<Event>, ep: Endpoint)
    ensures Own(a + b, ep) == Own(a, ep) + Own(b, ep)
    decreases |b|
  {
    if b == [] {
      assert a + b == a;
    } else {
      var c := b[..|b| - 1];
      assert (a + b)[..|a + b| - 1] == a + c;
      OwnConcat(a, c, ep);
    }
  }

  lemma {:induction false} OwnOfOthers(log: seq<Event>, ep: Endpoint)
    requires forall e <- log :: e.Sent? ==> e.ep != ep
    ensures Own(log, ep) == []
  {
    if log != [] {
      OwnOfOthers(log[..|log| - 1], ep);
    }
  }

  /** How many of these exchanges took effect at the broker. */
  ghost function Acted(xs: seq<Exchange>): nat {
    if xs == [] then 0 else Acted(xs[..|xs| - 1]) + if xs[|xs| - 1].acted then 1 else 0
  }

  lemma {:induction false} ActedNone(xs: seq<Exchange>)
    requires forall x <- xs :: !x.acted
    ensures Acted(xs) == 0
  {
    if xs != [] {
      ActedNone(xs[..|xs| - 1]);
    }
  }

  /** Market exits filed under `key` that took effect since the key was last re-armed. */
  ghost function LiveExits(log: seq<Event>, key: string): nat {
    if log == [] then 0
    else
      var last := log[|log| - 1];
      if last == Rearmed(key) then 0
      else LiveExits(log[..|log| - 1], key) + if TookEffect(last) && last.payload.key == key then 1 else 0
  }

  ghost predicate TookEffect(e: Event) {
    e.Sent? && e.ep.PlaceOrder? && e.payload.Market? && e.exchange.acted
  }

  /** At every moment of the log, at most one exit per dedup key has taken effect since its last re-arm. */
  ghost predicate AtMostOneExit(log: seq<Event>) {
    forall n, key :: 0 <= n <= |log| ==> LiveExits(log[..n], key) <= 1
  }

  /** Appending one order's requests adds exactly the effects of its own exchanges. */
  lemma {:induction false} LiveExitsOfOrder(log: seq<Event>, more: seq<Event>, payload: Payload, key: string)
    requires payload.Market? && forall e <- more :: e.Sent? && (e.ep.PlaceOrder? ==> e.payload == payload)
    ensures LiveExits(log + more, key)
         == LiveExits(log, key) + if payload.key == key then Acted(Own(more, PlaceOrder)) else 0
    decreases |more|
  {
    if more == [] {
      assert log + more == log;
    } else {
      var init := more[..|more| - 1];
      assert (log + more)[..|log + more| - 1] == log + init;
      LiveExitsOfOrder(log, init, payload, key);
      ActedAppend(Own(init, PlaceOrder), more[|more| - 1].exchange);
    }
  }

  lemma ActedAppend(xs: seq<Exchange>, x: Exchange)
    ensures Acted(xs + [x]) == Acted(xs) + if x.acted then 1 else 0
    ensures Acted(xs + []) == Acted(xs)
  {
    assert (xs + [x])[..|xs + [x]| - 1] == xs;
    assert xs + [] == xs;
  }

  lemma {:induction false} ActedConcat(a: seq<Exchange>, b: seq<Exchange>)
    ensures Acted(a + b) == Acted(a) + Acted(b)
    decreases |b|
  {
    if b == [] {
      assert a + b == a;
    } else {
      assert (a + b)[..|a + b| - 1] == a + b[..|b| - 1];
      ActedConcat(a, b[..|b| - 1]);
    }
  }

  /** Requests that place no market exit leave every count alone. */
  lemma {:induction false} LiveExitsOfOthers(log: seq<Event>, more: seq<Event>, key: string)
    requires forall e <- more :: e.Sent? && !TookEffect(e)
    ensures LiveExits(log + more, key) == LiveExits(log, key)
    decreases |more|
  {
    if more == [] {
      assert log + more == log;
    } else {
      var init := more[..|more| - 1];
      assert (log + more)[..|log + more| - 1] == log + init;
      LiveExitsOfOthers(log, init, key);
    }
  }

  lemma {:induction false} LiveExitsMonotone(log: seq<Event>, more: seq<Event>, n: nat, key: string)
    requires n <= |more| && forall e <- more :: e.Sent?
    ensures LiveExits(log + more[..n], key) <= LiveExits(log + more, key)
    decreases |more|
  {
    if n < |more| {
      var init := more[..|more| - 1];
      assert (log + more)[..|log + more| - 1] == log + init;
      assert init[..n] == more[..n];
      LiveExitsMonotone(log, init, n, key);
    } else {
      assert more[..n] == more;
    }
  }

  /** The history property survives any batch of requests that ends with every count at most one. */
  lemma AtMostOneExitExtends(log: seq<Event>, more: seq<Event>)
    requires AtMostOneExit(log) && forall e <- more :: e.Sent?
    requires forall key :: LiveExits(log + more, key) <= 1
    ensures AtMostOneExit(log + more)
  {
    forall n, key | 0 <= n <= |log + more| ensures LiveExits((log + more)[..n], key) <= 1 {
      if n <= |log| {
        assert (log + more)[..n] == log[..n];
      } else {
        assert (log + more)[..n] == log + more[..n - |log|];
        LiveExitsMonotone(log, more, n - |log|, key);
      }
    }
  }

  lemma AtMostOneExitRearm(log: seq<Event>, armed: string)
    requires AtMostOneExit(log)
    ensures AtMostOneExit(log + [Rearmed(armed)])
  {
    forall n, key | 0 <= n <= |log| + 1 ensures LiveExits((log + [Rearmed(armed)])[..n], key) <= 1 {
      assert (log + [Rearmed(armed)])[..|log|] == log;
      if n <= |log| {
        assert (log + [Rearmed(armed)])[..n] == log[..n];
      } else {
        assert (log + [Rearmed(armed)])[..n] == log + [Rearmed(armed)];
        assert log[..|log|] == log;
      }
    }
  }
}
