/** The one rate-limited client that talks to the broker: the retry loop, the token refresh inside
    it, and what a caller may conclude from each way it can end.

    Every reply comes from `network`, a fixed but arbitrary function of the request's number, so a
    law that holds here holds for every sequence of replies.  Each method is proved against a function
    of the session it starts with; the laws are about those functions. */
module Client {
  import opened Options
  import opened Wire

  datatype Failure = Plain | Auth | UnknownOutcome | PaperRefused

  datatype CallResult = Ok(data: Data) | Err(kind: Failure)

  /** What decides how a client behaves: its settings, the broker, and the session cache on disk.  The
      cache holds, before request number i, perhaps a session (with or without a refresh token); and
      after request number i a login refusal may or may not read as a rate limit. */
  datatype Setup = Setup(
    live: bool, simulatePaper: bool, maxRetries: nat, loginBackoffs: nat, hasCredentials: bool,
    network: nat -> Exchange, cache: nat -> Option<bool>, limited: nat -> bool)
  {
    /** The broker honours its replies; see `Wire.Exchange.Fair`. */
    ghost predicate Fair() { forall i: nat :: network(i).Fair() }
  }

  /** How many requests have gone out, and which tokens are held. */
  datatype Session = Session(requests: nat, jwt: bool, feed: bool, refresh: bool)

  /** What a call leaves: the session, the requests it sent, and its answer. */
  datatype Ran = Ran(session: Session, sent: seq<Event>, answer: CallResult)

  function Then(first: seq<Event>, r: Ran): Ran { r.(sent := first + r.sent) }

  lemma ThenThen(a: seq<Event>, b: seq<Event>, r: Ran)
    ensures Then(a, Then(b, r)) == Then(a + b, r)
    ensures Then([], r) == r
  {
    assert a + (b + r.sent) == a + b + r.sent;
    assert [] + r.sent == r.sent;
  }

  function Request(b: Setup, s: Session, ep: Endpoint, payload: Payload): Event {
    Sent(ep, payload, b.network(s.requests))
  }

  function Counted(s: Session): Session { s.(requests := s.requests + 1) }

  /** A failure that costs one attempt: nothing was sent, or a read got no answer. */
  predicate Transport(ep: Endpoint, reply: Reply) {
    reply.NeverSent? || (ep.ReadOnly() && reply.Lost?)
  }

  /** What one reply means when no further attempt follows it. */
  function Verdict(ep: Endpoint, reply: Reply): CallResult {
    match reply
    case NeverSent => Err(Plain)
    case Lost => Err(if ep.ReadOnly() then Plain else UnknownOutcome)
    case NonJson(_) => Err(if ep.Session() then Auth else if ep.ReadOnly() then Plain else UnknownOutcome)
    case Json(ok, _, _, data) => if ok then Ok(data) else Err(if ep.Session() then Auth else Plain)
  }

  /** A call that may not refresh: re-send while the failures cost only attempts. */
  function PlainCall(b: Setup, s: Session, ep: Endpoint, payload: Payload, attempt: nat): (ran: Ran)
    ensures ran.sent != [] && |ran.sent| <= if attempt <= b.maxRetries then b.maxRetries - attempt + 1 else 1
    decreases b.maxRetries - attempt
  {
    var e := Request(b, s, ep, payload);
    if Transport(ep, e.exchange.reply) && attempt < b.maxRetries
    then Then([e], PlainCall(b, Counted(s), ep, payload, attempt + 1))
    else Ran(Counted(s), [e], Verdict(ep, e.exchange.reply))
  }

  function LastReply(sent: seq<Event>): Reply {
    if sent != [] && sent[|sent| - 1].Sent? then sent[|sent| - 1].exchange.reply else NeverSent
  }

  /** A refresh: a call of its own route, whose reply must carry a JWT. */
  function Refreshed(b: Setup, s: Session): Ran {
    var ran := PlainCall(b, s, Refresh, Credentials, 0);
    match ran.answer
    case Ok(Tokens(jwt, feed, _)) =>
      if jwt then ran.(session := ran.session.(jwt := true, feed := ran.session.feed || feed, refresh := true))
      else ran.(answer := Err(Auth))
    case Ok(_) => ran.(answer := Err(Auth))
    case Err(_) => ran
  }

  /** Log in, backing off while the broker reports its login limit. */
  function LoginTries(b: Setup, s: Session, attempt: nat): Ran
    decreases b.loginBackoffs - attempt
  {
    var ran := PlainCall(b, s, Login, Credentials, 0);
    if ran.answer.Ok? || attempt >= b.loginBackoffs || !b.limited(ran.session.requests) then ran
    else Then(ran.sent, LoginTries(b, ran.session, attempt + 1))
  }

  /** Adopt the tokens a login returned. */
  function Adopted(ran: Ran): Ran {
    match ran.answer
    case Ok(Tokens(jwt, feed, refresh)) =>
      if jwt && feed then ran.(session := Session(ran.session.requests, true, true, refresh))
      else ran.(answer := Err(Auth))
    case Ok(_) => ran.(answer := Err(Auth))
    case Err(_) => ran
  }

  /** A cached session is adopted without a request. */
  function LoggedIn(b: Setup, s: Session): Ran {
    match b.cache(s.requests)
    case Some(refresh) => Ran(Session(s.requests, true, true, refresh), [], Ok(Null))
    case None => if b.hasCredentials then Adopted(LoginTries(b, s, 0)) else Ran(s, [], Err(Auth))
  }

  /** A renewal: a refresh, and one login after it if the refresh was refused. */
  function Renewed(b: Setup, s: Session): Ran {
    var ran := Refreshed(b, s);
    if ran.answer == Err(Auth) then Then(ran.sent, LoggedIn(b, ran.session)) else ran
  }

  /** A call that may refresh: if its own attempts end in an expired token and a refresh token is held,
      renew once and go on with the attempts that are left. */
  function FullCall(b: Setup, s: Session, ep: Endpoint, payload: Payload): Ran {
    var first := PlainCall(b, s, ep, payload, 0);
    if !s.refresh || !LastReply(first.sent).Expired() then first
    else
      var renewal := Renewed(b, first.session);
      if renewal.answer.Err? then Then(first.sent, renewal)
      else Then(first.sent + renewal.sent, PlainCall(b, renewal.session, ep, payload, |first.sent| - 1))
  }

  predicate Intercepts(b: Setup, ep: Endpoint) { !b.live && ep.MovesMoney() }

  /** One endpoint call: intercepted in PAPER, otherwise retried, refreshed and classified. */
  function Called(b: Setup, s: Session, ep: Endpoint, payload: Payload, allowRefresh: bool): Ran {
    if Intercepts(b, ep) then Ran(s, [], Ok(Simulated))
    else Whole(b, s, ep, payload, allowRefresh)
  }

  function Whole(b: Setup, s: Session, ep: Endpoint, payload: Payload, allowRefresh: bool): Ran {
    if allowRefresh then FullCall(b, s, ep, payload) else PlainCall(b, s, ep, payload, 0)
  }

  /** An order route: refused outright in PAPER when simulation is off. */
  function Ordered(b: Setup, s: Session, ep: Endpoint, payload: Payload): Ran {
    if !b.live && !b.simulatePaper then Ran(s, [], Err(PaperRefused)) else Called(b, s, ep, payload, true)
  }

  datatype Rows<T> = Rows(rows: seq<T>) | NoRows(kind: Failure)

  /** `data: null` is an empty book; anything but a list is an error. */
  function OrdersIn(answer: CallResult): Rows<OrderRow> {
    match answer
    case Ok(OrderRows(orders)) => Rows(orders)
    case Ok(Null) => Rows([])
    case Ok(_) => NoRows(Plain)
    case Err(kind) => NoRows(kind)
  }

  function PositionsIn(answer: CallResult): Rows<PositionRow> {
    match answer
    case Ok(PositionRows(positions)) => Rows(positions)
    case Ok(Null) => Rows([])
    case Ok(_) => NoRows(Plain)
    case Err(kind) => NoRows(kind)
  }

  class SmartApiClient {
    const setup: Setup
    var session: Session
    var refreshLocked: bool
    ghost var log: seq<Event>

    constructor (setup: Setup)
      ensures this.setup == setup && session == Session(0, false, false, false) && log == [] && !refreshLocked
    {
      this.setup, session, refreshLocked, log := setup, Session(0, false, false, false), false, [];
    }

    /** Hand one request to the network. */
    method Transmit(ep: Endpoint, payload: Payload) returns (reply: Reply)
      modifies this`session, this`log
      ensures session == Counted(old(session)) && log == old(log) + [Request(setup, old(session), ep, payload)]
      ensures reply == setup.network(old(session).requests).reply
    {
      var exchange := setup.network(session.requests);
      reply := exchange.reply;
      log := log + [Sent(ep, payload, exchange)];
      session := session.(requests := session.requests + 1);
    }

    /** One endpoint call.  The refresh lock is not re-entrant: a call that may refresh needs it free. */
    method Call(ep: Endpoint, payload: Payload, allowRefresh: bool) returns (r: CallResult)
      requires allowRefresh ==> !refreshLocked && !ep.Session()
      modifies this
      decreases if allowRefresh then 3 else 0, 1
      ensures refreshLocked == old(refreshLocked)
      ensures var ran := Called(setup, old(session), ep, payload, allowRefresh);
        session == ran.session && log == old(log) + ran.sent && r == ran.answer
    {
      if !setup.live && ep.MovesMoney() {
        r := Ok(Simulated);
      } else {
        r := Attempts(ep, payload, allowRefresh);
      }
    }

    method Attempts(ep: Endpoint, payload: Payload, allowRefresh: bool) returns (r: CallResult)
      requires allowRefresh ==> !refreshLocked && !ep.Session()
      modifies this
      decreases if allowRefresh then 3 else 0, 0
      ensures refreshLocked == old(refreshLocked)
      ensures var ran := Whole(setup, old(session), ep, payload, allowRefresh);
        session == ran.session && log == old(log) + ran.sent && r == ran.answer
    {
      hide InFlight, FullCall, PlainCall, Renewed, Verdict;
      var attempt, mayRefresh := 0, allowRefresh;
      ghost var s, seg: seq<Event> := session, [];
      Begins(setup, s, ep, payload, allowRefresh);
      while true
        invariant refreshLocked == old(refreshLocked) && attempt <= setup.maxRetries
        invariant log == old(log) + seg && (mayRefresh ==> allowRefresh)
        invariant InFlight(setup, s, session, ep, payload, allowRefresh, mayRefresh, attempt, seg)
        decreases setup.maxRetries - attempt + if mayRefresh then 1 else 0
      {
        ghost var at, e := session, Request(setup, session, ep, payload);
        var reply := Transmit(ep, payload);
        assert log == old(log) + (seg + [e]);
        if Transport(ep, reply) && attempt < setup.maxRetries {
          Resends(setup, s, at, ep, payload, allowRefresh, mayRefresh, attempt, seg);
          attempt, seg := attempt + 1, seg + [e];
        } else if reply.Expired() && mayRefresh && session.refresh {
          RenewsOnce(setup, s, at, ep, payload, attempt, seg);
          seg := seg + [e] + Renewed(setup, session).sent;
          r := RenewSession();
          assert log == old(log) + seg;
          if r.Err? {
            return;
          }
          mayRefresh := false;
        } else {
          r := Verdict(ep, reply);
          Ends(setup, s, at, ep, payload, allowRefresh, mayRefresh, attempt, seg);
          return;
        }
      }
    }

    /** A refresh, and one login after it if the refresh was refused. */
    method RenewSession() returns (r: CallResult)
      requires session.refresh && !refreshLocked
      modifies this
      decreases 2, 2
      ensures !refreshLocked
      ensures var ran := Renewed(setup, old(session));
        session == ran.session && log == old(log) + ran.sent && r == ran.answer
    {
      hide Refreshed, LoggedIn;
      r := RefreshSession();
      if r == Err(Auth) {
        ghost var refused := log;
        r := LogIn();
        assert log == old(log) + (refused[|old(log)|..] + log[|refused|..]);
      }
    }

    /** The same by the class, with the lock held from before the request to after its reply. */
    method RefreshSession() returns (r: CallResult)
      requires session.refresh && !refreshLocked
      modifies this
      decreases 2, 0
      ensures !refreshLocked
      ensures var ran := Refreshed(setup, old(session));
        session == ran.session && log == old(log) + ran.sent && r == ran.answer
    {
      hide PlainCall;
      refreshLocked := true;
      r := Call(Refresh, Credentials, false);
      refreshLocked := false;
      if r.Ok? {
        if r.data.Tokens? && r.data.jwt {
          session := session.(jwt := true, feed := session.feed || r.data.feed, refresh := true);
        } else {
          r := Err(Auth);
        }
      }
    }

    /** Adopt a cached session, or log in. */
    method LogIn() returns (r: CallResult)
      modifies this
      decreases 2, 1
      ensures refreshLocked == old(refreshLocked)
      ensures var ran := LoggedIn(setup, old(session));
        session == ran.session && log == old(log) + ran.sent && r == ran.answer
    {
      hide PlainCall, LoginTries;
      var cached := setup.cache(session.requests);
      if cached.Some? {
        session := Session(session.requests, true, true, cached.value);
        return Ok(Null);
      }
      if !setup.hasCredentials {
        return Err(Auth);
      }
      r := LoginWithBackoff();
      if r.Ok? {
        if r.data.Tokens? && r.data.jwt && r.data.feed {
          session := Session(session.requests, true, true, r.data.refresh);
        } else {
          r := Err(Auth);
        }
      }
    }

    /** Log in again while the broker reports its login limit. */
    method LoginWithBackoff() returns (r: CallResult)
      modifies this
      decreases 2, 0
      ensures refreshLocked == old(refreshLocked)
      ensures var ran := LoginTries(setup, old(session), 0);
        session == ran.session && log == old(log) + ran.sent && r == ran.answer
    {
      hide PlainCall, LoginTries;
      var attempt := 0;
      ghost var seg: seq<Event> := [];
      ghost var whole := LoginTries(setup, session, 0);
      ThenThen([], [], whole);
      while true
        invariant refreshLocked == old(refreshLocked) && attempt <= setup.loginBackoffs
        invariant log == old(log) + seg
        invariant whole == Then(seg, LoginTries(setup, session, attempt))
        decreases setup.loginBackoffs - attempt
      {
        LoginStep(setup, session, attempt, seg);
        seg := seg + PlainCall(setup, session, Login, Credentials, 0).sent;
        r := Call(Login, Credentials, false);
        assert log == old(log) + seg;
        if r.Ok? || attempt >= setup.loginBackoffs || !setup.limited(session.requests) {
          return;
        }
        attempt := attempt + 1;
      }
    }

    /** Place one order; what a caller may conclude from the answer is `OrderedIsCarried`. */
    method PlaceOrder(payload: Payload) returns (r: CallResult)
      requires !refreshLocked
      modifies this
      ensures !refreshLocked
      ensures var ran := Ordered(setup, old(session), Endpoint.PlaceOrder, payload);
        session == ran.session && log == old(log) + ran.sent && r == ran.answer
    {
      if !setup.live && !setup.simulatePaper {
        return Err(PaperRefused);
      }
      r := Call(Endpoint.PlaceOrder, payload, true);
    }

    /** Cancel one order. */
    method CancelOrder(id: string) returns (r: CallResult)
      requires !refreshLocked
      modifies this
      ensures !refreshLocked
      ensures var ran := Ordered(setup, old(session), Endpoint.CancelOrder, OrderRef(id));
        session == ran.session && log == old(log) + ran.sent && r == ran.answer
    {
      if !setup.live && !setup.simulatePaper {
        return Err(PaperRefused);
      }
      r := Call(Endpoint.CancelOrder, OrderRef(id), true);
    }

    /** Every order of the session. */
    method ReadOrders() returns (book: Rows<OrderRow>)
      requires !refreshLocked
      modifies this
      ensures !refreshLocked
      ensures var ran := FullCall(setup, old(session), OrderBook, Empty);
        session == ran.session && log == old(log) + ran.sent && book == OrdersIn(ran.answer)
    {
      var r := Call(OrderBook, Empty, true);
      book := OrdersIn(r);
    }

    /** Every position of the session, open and closed. */
    method ReadPositions() returns (book: Rows<PositionRow>)
      requires !refreshLocked
      modifies this
      ensures !refreshLocked
      ensures var ran := FullCall(setup, old(session), Positions, Empty);
        session == ran.session && log == old(log) + ran.sent && book == PositionsIn(ran.answer)
    {
      var r := Call(Positions, Empty, true);
      book := PositionsIn(r);
    }

    /** Note in the log that a new entry re-armed this dedup key. */
    ghost method MarkRearmed(key: string)
      modifies this`log
      ensures log == old(log) + [Rearmed(key)]
    {
      log := log + [Rearmed(key)];
    }
  }

  /** One attempt, after those in `seg`. */
  lemma PlainStep(b: Setup, s: Session, ep: Endpoint, payload: Payload, attempt: nat, seg: seq<Event>)
    ensures var e := Request(b, s, ep, payload);
      Then(seg, PlainCall(b, s, ep, payload, attempt)) ==
        if Transport(ep, e.exchange.reply) && attempt < b.maxRetries
        then Then(seg + [e], PlainCall(b, Counted(s), ep, payload, attempt + 1))
        else Ran(Counted(s), seg + [e], Verdict(ep, e.exchange.reply))
  {
    var e := Request(b, s, ep, payload);
    if Transport(ep, e.exchange.reply) && attempt < b.maxRetries {
      ThenThen(seg, [e], PlainCall(b, Counted(s), ep, payload, attempt + 1));
    }
  }

  /** One login, after the requests in `seg`. */
  lemma LoginStep(b: Setup, s: Session, attempt: nat, seg: seq<Event>)
    ensures var ran := PlainCall(b, s, Login, Credentials, 0);
      Then(seg, LoginTries(b, s, attempt)) ==
        if ran.answer.Ok? || attempt >= b.loginBackoffs || !b.limited(ran.session.requests) then Then(seg, ran)
        else Then(seg + ran.sent, LoginTries(b, ran.session, attempt + 1))
  {
    hide PlainCall;
    var ran := PlainCall(b, s, Login, Credentials, 0);
    ThenThen(seg, ran.sent, LoginTries(b, ran.session, attempt + 1));
  }

  /** The loop between two attempts: `seg` has been sent since the session was `s`, and what the call
      leaves is `seg` followed by what the attempts from here leave. */
  ghost predicate InFlight(b: Setup, s: Session, now: Session, ep: Endpoint, payload: Payload, allowRefresh: bool,
                           mayRefresh: bool, attempt: nat, seg: seq<Event>) {
    if mayRefresh
    then && allowRefresh && now.refresh == s.refresh && |seg| == attempt
         && PlainCall(b, s, ep, payload, 0) == Then(seg, PlainCall(b, now, ep, payload, attempt))
    else Whole(b, s, ep, payload, allowRefresh) == Then(seg, PlainCall(b, now, ep, payload, attempt))
  }

  lemma Begins(b: Setup, s: Session, ep: Endpoint, payload: Payload, allowRefresh: bool)
    ensures InFlight(b, s, s, ep, payload, allowRefresh, allowRefresh, 0, [])
  {
    ThenThen([], [], PlainCall(b, s, ep, payload, 0));
    hide PlainCall, FullCall;
  }

  /** A failure that costs one attempt keeps the loop going, one attempt further. */
  lemma Resends(b: Setup, s: Session, now: Session, ep: Endpoint, payload: Payload, allowRefresh: bool,
                mayRefresh: bool, attempt: nat, seg: seq<Event>)
    requires InFlight(b, s, now, ep, payload, allowRefresh, mayRefresh, attempt, seg)
    requires Transport(ep, Request(b, now, ep, payload).exchange.reply) && attempt < b.maxRetries
    ensures InFlight(b, s, Counted(now), ep, payload, allowRefresh, mayRefresh, attempt + 1,
                     seg + [Request(b, now, ep, payload)])
  {
    PlainStep(b, now, ep, payload, attempt, seg);
    hide PlainCall, FullCall, Then;
  }

  /** An expired token, while renewal is still allowed and possible: the call ends with the renewal's own
      failure, or goes on without a second renewal. */
  lemma RenewsOnce(b: Setup, s: Session, now: Session, ep: Endpoint, payload: Payload, attempt: nat, seg: seq<Event>)
    requires InFlight(b, s, now, ep, payload, true, true, attempt, seg) && now.refresh
    requires Request(b, now, ep, payload).exchange.reply.Expired()
    ensures var renewal := Renewed(b, Counted(now)); var sent := seg + [Request(b, now, ep, payload)] + renewal.sent;
      if renewal.answer.Err? then FullCall(b, s, ep, payload) == Ran(renewal.session, sent, renewal.answer)
      else InFlight(b, s, renewal.session, ep, payload, true, false, attempt, sent)
  {
    PlainStep(b, now, ep, payload, attempt, seg);
    hide PlainCall, Renewed;
  }

  /** Any other reply ends the call. */
  lemma Ends(b: Setup, s: Session, now: Session, ep: Endpoint, payload: Payload, allowRefresh: bool,
             mayRefresh: bool, attempt: nat, seg: seq<Event>)
    requires InFlight(b, s, now, ep, payload, allowRefresh, mayRefresh, attempt, seg) && (mayRefresh ==> allowRefresh)
    requires var reply := Request(b, now, ep, payload).exchange.reply;
      && (Transport(ep, reply) ==> attempt >= b.maxRetries)
      && (reply.Expired() && mayRefresh ==> !now.refresh)
    ensures var e := Request(b, now, ep, payload);
      Whole(b, s, ep, payload, allowRefresh) == Ran(Counted(now), seg + [e], Verdict(ep, e.exchange.reply))
  {
    PlainStep(b, now, ep, payload, attempt, seg);
    hide PlainCall, Renewed;
  }

  // ---------- what a call sends ----------

  /** These requests are the next ones after number `n`, each with the network's own exchange. */
  ghost predicate Numbered(b: Setup, n: nat, sent: seq<Event>, m: nat) {
    m == n + |sent| && forall k :: 0 <= k < |sent| ==> sent[k].Sent? && sent[k].exchange == b.network(n + k)
  }

  lemma NumberedConcat(b: Setup, n: nat, first: seq<Event>, m: nat, second: seq<Event>, l: nat)
    requires Numbered(b, n, first, m) && Numbered(b, m, second, l)
    ensures Numbered(b, n, first + second, l)
  {
    var all := first + second;
    forall k | 0 <= k < |all|
      ensures all[k].Sent? && all[k].exchange == b.network(n + k)
    {
      if k >= |first| {
        assert all[k] == second[k - |first|] && n + k == m + (k - |first|);
      }
    }
  }

  /** Every request is this route with this payload. */
  ghost predicate Uniform(sent: seq<Event>, ep: Endpoint, payload: Payload) {
    forall k :: 0 <= k < |sent| ==> sent[k].Sent? && sent[k].ep == ep && sent[k].payload == payload
  }

  /** Every request but the last failed in a way that costs one attempt. */
  ghost predicate Resent(sent: seq<Event>, ep: Endpoint) {
    forall k :: 0 <= k < |sent| - 1 ==> sent[k].Sent? && Transport(ep, sent[k].exchange.reply)
  }

  /** The requests, the answer and the session of a call that may not refresh. */
  ghost predicate PlainRan(b: Setup, s: Session, ep: Endpoint, payload: Payload, attempt: nat, ran: Ran) {
    && ran.sent != []
    && Uniform(ran.sent, ep, payload) && Resent(ran.sent, ep) && Numbered(b, s.requests, ran.sent, ran.session.requests)
    && ran.answer == Verdict(ep, LastReply(ran.sent))
    && ran.session == s.(requests := ran.session.requests)
    && (Transport(ep, LastReply(ran.sent)) ==> attempt + |ran.sent| > b.maxRetries)
  }

  lemma {:induction false} PlainShape(b: Setup, s: Session, ep: Endpoint, payload: Payload, attempt: nat)
    ensures PlainRan(b, s, ep, payload, attempt, PlainCall(b, s, ep, payload, attempt))
    decreases b.maxRetries - attempt
  {
    hide PlainRan;
    var e := Request(b, s, ep, payload);
    if Transport(ep, e.exchange.reply) && attempt < b.maxRetries {
      PlainShape(b, Counted(s), ep, payload, attempt + 1);
      OneMore(b, s, ep, payload, attempt, PlainCall(b, Counted(s), ep, payload, attempt + 1));
    } else {
      OnlyOne(b, s, ep, payload, attempt);
    }
  }

  lemma OnlyOne(b: Setup, s: Session, ep: Endpoint, payload: Payload, attempt: nat)
    requires var e := Request(b, s, ep, payload); !Transport(ep, e.exchange.reply) || attempt >= b.maxRetries
    ensures var e := Request(b, s, ep, payload);
      PlainRan(b, s, ep, payload, attempt, Ran(Counted(s), [e], Verdict(ep, e.exchange.reply)))
  {
  }

  lemma OneMore(b: Setup, s: Session, ep: Endpoint, payload: Payload, attempt: nat, rest: Ran)
    requires Transport(ep, Request(b, s, ep, payload).exchange.reply)
    requires PlainRan(b, Counted(s), ep, payload, attempt + 1, rest)
    ensures PlainRan(b, s, ep, payload, attempt, Then([Request(b, s, ep, payload)], rest))
  {
    hide Transport, Verdict, Uniform, Resent, Numbered;
    var e := Request(b, s, ep, payload);
    assert Numbered(b, s.requests, [e], s.requests + 1) by { OneNumbered(b, s, ep, payload); }
    NumberedConcat(b, s.requests, [e], s.requests + 1, rest.sent, rest.session.requests);
    PrependShape(e, rest.sent, ep, payload);
  }

  lemma OneNumbered(b: Setup, s: Session, ep: Endpoint, payload: Payload)
    ensures Numbered(b, s.requests, [Request(b, s, ep, payload)], s.requests + 1)
  {
  }

  lemma PrependShape(e: Event, rest: seq<Event>, ep: Endpoint, payload: Payload)
    requires e.Sent? && e.ep == ep && e.payload == payload && Transport(ep, e.exchange.reply)
    requires rest != [] && Uniform(rest, ep, payload) && Resent(rest, ep)
    ensures Uniform([e] + rest, ep, payload) && Resent([e] + rest, ep) && LastReply([e] + rest) == LastReply(rest)
  {
    hide Transport;
    assert forall k :: 0 < k <= |rest| ==> ([e] + rest)[k] == rest[k - 1];
  }

  /** Did this event leave its caller unable to tell what happened? */
  predicate InDoubt(e: Event) {
    && e.Sent?
    && !e.ep.ReadOnly()
    && (e.exchange.reply.Lost? || (e.exchange.reply.NonJson? && !e.ep.Session()))
  }

  predicate EndsInDoubt(sent: seq<Event>) { sent != [] && InDoubt(sent[|sent| - 1]) }

  ghost predicate OnlySession(sent: seq<Event>) {
    forall k :: 0 <= k < |sent| ==> sent[k].Sent? && sent[k].ep.Session()
  }

  /** A plain call cannot tell what happened exactly when its last request was left in doubt. */
  lemma PlainDoubtIff(b: Setup, s: Session, ep: Endpoint, payload: Payload, attempt: nat)
    ensures var ran := PlainCall(b, s, ep, payload, attempt); ran.answer == Err(UnknownOutcome) <==> EndsInDoubt(ran.sent)
  {
    PlainShape(b, s, ep, payload, attempt);
    hide PlainCall;
  }

  ghost predicate LoginRan(b: Setup, n: nat, ran: Ran) {
    && ran.sent != [] && Uniform(ran.sent, Login, Credentials) && Numbered(b, n, ran.sent, ran.session.requests)
    && (ran.answer == Err(UnknownOutcome) <==> EndsInDoubt(ran.sent))
    && (ran.answer.Ok? ==> !EndsInDoubt(ran.sent))
  }

  lemma {:induction false} LoginShape(b: Setup, s: Session, attempt: nat)
    ensures LoginRan(b, s.requests, LoginTries(b, s, attempt))
    decreases b.loginBackoffs - attempt
  {
    hide PlainCall, LoginRan;
    var ran := PlainCall(b, s, Login, Credentials, 0);
    OneLogin(b, s);
    if !(ran.answer.Ok? || attempt >= b.loginBackoffs || !b.limited(ran.session.requests)) {
      LoginShape(b, ran.session, attempt + 1);
      LoginsJoin(b, s.requests, ran, LoginTries(b, ran.session, attempt + 1));
    }
  }

  lemma OneLogin(b: Setup, s: Session)
    ensures LoginRan(b, s.requests, PlainCall(b, s, Login, Credentials, 0))
  {
    PlainShape(b, s, Login, Credentials, 0);
    PlainDoubtIff(b, s, Login, Credentials, 0);
    hide PlainCall, Uniform, Numbered, Resent, EndsInDoubt;
  }

  lemma LoginsJoin(b: Setup, n: nat, first: Ran, rest: Ran)
    requires LoginRan(b, n, first) && LoginRan(b, first.session.requests, rest)
    ensures LoginRan(b, n, Then(first.sent, rest))
  {
    hide Numbered, InDoubt;
    NumberedConcat(b, n, first.sent, first.session.requests, rest.sent, rest.session.requests);
    assert (first.sent + rest.sent)[|first.sent + rest.sent| - 1] == rest.sent[|rest.sent| - 1];
  }

  lemma RefreshShape(b: Setup, s: Session)
    ensures var ran := Refreshed(b, s);
      && ran.sent != [] && Uniform(ran.sent, Refresh, Credentials) && Numbered(b, s.requests, ran.sent, ran.session.requests)
      && (ran.answer == Err(UnknownOutcome) <==> EndsInDoubt(ran.sent))
      && (ran.answer == Err(Auth) ==> !EndsInDoubt(ran.sent))
  {
    PlainShape(b, s, Refresh, Credentials, 0);
    PlainDoubtIff(b, s, Refresh, Credentials, 0);
    hide PlainCall;
  }

  /** A renewal starts with a refresh and sends session requests only.  Its outcome is unknown exactly when
      its last request was left in doubt. */
  lemma RenewalShape(b: Setup, s: Session)
    ensures var ran := Renewed(b, s);
      && ran.sent != [] && ran.sent[0].Sent? && ran.sent[0].ep == Refresh
      && OnlySession(ran.sent) && Numbered(b, s.requests, ran.sent, ran.session.requests)
      && (ran.answer == Err(UnknownOutcome) <==> EndsInDoubt(ran.sent))
  {
    RefreshShape(b, s);
    var first := Refreshed(b, s);
    LoginShape(b, first.session, 0);
    hide Refreshed, LoginTries, OnlySession, Numbered, Uniform, EndsInDoubt;
    if first.answer == Err(Auth) {
      var second := LoggedIn(b, first.session);
      if second.sent != [] {
        SessionsJoin(b, s.requests, first.sent, first.session.requests, second.sent, second.session.requests);
      } else {
        assert first.sent + [] == first.sent;
        AllSession(first.sent, Refresh);
      }
    } else {
      AllSession(first.sent, Refresh);
    }
  }

  lemma AllSession(sent: seq<Event>, ep: Endpoint)
    requires Uniform(sent, ep, Credentials) && ep.Session()
    ensures OnlySession(sent)
  {
  }

  lemma SessionsJoin(b: Setup, n: nat, first: seq<Event>, m: nat, second: seq<Event>, l: nat)
    requires first != [] && second != [] && Uniform(first, Refresh, Credentials) && Uniform(second, Login, Credentials)
    requires Numbered(b, n, first, m) && Numbered(b, m, second, l)
    ensures OnlySession(first + second) && Numbered(b, n, first + second, l)
    ensures (first + second)[0] == first[0] && EndsInDoubt(first + second) == EndsInDoubt(second)
  {
    NumberedConcat(b, n, first, m, second, l);
    hide Numbered, InDoubt;
  }

  // ---------- calls that may refresh ----------

  function First(b: Setup, s: Session, ep: Endpoint, payload: Payload): Ran { PlainCall(b, s, ep, payload, 0) }

  predicate Renews(b: Setup, s: Session, ep: Endpoint, payload: Payload) {
    s.refresh && LastReply(First(b, s, ep, payload).sent).Expired()
  }

  function Renewal(b: Setup, s: Session, ep: Endpoint, payload: Payload): Ran {
    Renewed(b, First(b, s, ep, payload).session)
  }

  /** The attempts that are left after a renewal. */
  function Second(b: Setup, s: Session, ep: Endpoint, payload: Payload): Ran {
    PlainCall(b, Renewal(b, s, ep, payload).session, ep, payload, |First(b, s, ep, payload).sent| - 1)
  }

  lemma FullCases(b: Setup, s: Session, ep: Endpoint, payload: Payload)
    ensures var first, renewal := First(b, s, ep, payload), Renewal(b, s, ep, payload);
      FullCall(b, s, ep, payload) ==
        if !Renews(b, s, ep, payload) then first
        else if renewal.answer.Err? then Then(first.sent, renewal)
        else Then(first.sent + renewal.sent, Second(b, s, ep, payload))
  {
    hide PlainCall, Renewed, Then;
  }

  lemma {:induction false} OwnOfUniform(sent: seq<Event>, ep: Endpoint, payload: Payload)
    requires Uniform(sent, ep, payload)
    ensures |Own(sent, ep)| == |sent| && forall k :: 0 <= k < |sent| ==> Own(sent, ep)[k] == sent[k].exchange
  {
    if sent != [] {
      OwnOfUniform(sent[..|sent| - 1], ep, payload);
    }
  }

  lemma OwnOfSession(sent: seq<Event>, ep: Endpoint)
    requires OnlySession(sent) && !ep.Session()
    ensures Own(sent, ep) == []
  {
    OwnOfOthers(sent, ep);
  }

  /** The attempts of a call, in order: those before a renewal, then those after it. */
  lemma OwnOfFull(b: Setup, s: Session, ep: Endpoint, payload: Payload)
    requires !ep.Session()
    ensures var first, renewal := First(b, s, ep, payload), Renewal(b, s, ep, payload);
      Own(FullCall(b, s, ep, payload).sent, ep) ==
        Own(first.sent, ep)
        + if Renews(b, s, ep, payload) && renewal.answer.Ok? then Own(Second(b, s, ep, payload).sent, ep) else []
  {
    FullCases(b, s, ep, payload);
    hide FullCall, First, Renews, Renewal, Second, Own;
    var first, renewal := First(b, s, ep, payload).sent, Renewal(b, s, ep, payload).sent;
    assert Own(first, ep) + [] == Own(first, ep);
    if Renews(b, s, ep, payload) {
      RenewalIsSession(b, s, ep, payload);
      OwnOfSession(renewal, ep);
      OwnConcat(first, renewal, ep);
      OwnConcat(first + renewal, Second(b, s, ep, payload).sent, ep);
    }
  }

  lemma RenewalIsSession(b: Setup, s: Session, ep: Endpoint, payload: Payload)
    ensures var renewal := Renewal(b, s, ep, payload);
      && renewal.sent != [] && OnlySession(renewal.sent)
      && (renewal.answer == Err(UnknownOutcome) <==> EndsInDoubt(renewal.sent))
  {
    RenewalShape(b, First(b, s, ep, payload).session);
    hide Renewed;
  }

  /** The loop bound holds for every route, reads included. */
  lemma RequestBound(b: Setup, s: Session, ep: Endpoint, payload: Payload, allowRefresh: bool)
    requires allowRefresh ==> !ep.Session()
    ensures 1 <= |Own(Whole(b, s, ep, payload, allowRefresh).sent, ep)| <= b.maxRetries + if allowRefresh && s.refresh then 2 else 1
  {
    hide PlainCall, Renewed, FullCall;
    PlainShape(b, s, ep, payload, 0);
    OwnOfUniform(First(b, s, ep, payload).sent, ep, payload);
    if allowRefresh {
      OwnOfFull(b, s, ep, payload);
      PlainShape(b, Renewal(b, s, ep, payload).session, ep, payload, |First(b, s, ep, payload).sent| - 1);
      OwnOfUniform(Second(b, s, ep, payload).sent, ep, payload);
    }
  }

  /** Attempts that were followed by another never acted. */
  ghost predicate NoneActed(xs: seq<Exchange>) {
    forall k :: 0 <= k < |xs| ==> !xs[k].acted && (xs[k].reply.NeverSent? || xs[k].reply.Expired())
  }

  lemma AttemptAt(b: Setup, s: Session, ep: Endpoint, payload: Payload, attempt: nat, ran: Ran, k: nat)
    requires b.Fair() && ep.MovesMoney() && PlainRan(b, s, ep, payload, attempt, ran) && k < |ran.sent|
    ensures ran.sent[k].Sent? && ran.sent[k].exchange.Fair()
    ensures k < |ran.sent| - 1 ==> ran.sent[k].exchange.reply.NeverSent? && !ran.sent[k].exchange.acted
    ensures k == |ran.sent| - 1 ==> ran.sent[k].exchange.reply == LastReply(ran.sent)
  {
    assert ran.sent[k].exchange == b.network(s.requests + k);
  }

  lemma SupersededNeverActs(b: Setup, s: Session, ep: Endpoint, payload: Payload, attempt: nat, ran: Ran)
    requires b.Fair() && ep.MovesMoney() && PlainRan(b, s, ep, payload, attempt, ran)
    ensures var xs := Own(ran.sent, ep); var n := |ran.sent|;
      && n > 0 && |xs| == n && xs[n - 1].Fair() && xs[n - 1].reply == LastReply(ran.sent)
      && NoneActed(xs[..n - 1])
      && (forall k :: 0 <= k < n - 1 ==> xs[k].reply.NeverSent?)
  {
    assert Uniform(ran.sent, ep, payload) && ran.sent != [];
    hide PlainRan, Own, Uniform, Transport, LastReply;
    OwnOfUniform(ran.sent, ep, payload);
    var xs := Own(ran.sent, ep);
    forall k | 0 <= k < |xs|
      ensures xs[k].Fair() && (k < |xs| - 1 ==> xs[k].reply.NeverSent? && !xs[k].acted)
    {
      AttemptAt(b, s, ep, payload, attempt, ran, k);
    }
    AttemptAt(b, s, ep, payload, attempt, ran, |xs| - 1);
  }

  lemma ActedOnlyLast(xs: seq<Exchange>)
    requires xs != [] && NoneActed(xs[..|xs| - 1])
    ensures Acted(xs) == if xs[|xs| - 1].acted then 1 else 0
  {
    ActedNone(xs[..|xs| - 1]);
  }

  /** What the attempts before a renewal, or after it, did. */
  ghost predicate Settled(sent: seq<Event>, ep: Endpoint, answer: CallResult) {
    var xs := Own(sent, ep);
    && xs != [] && |xs| == |sent| && xs[|xs| - 1].reply == LastReply(sent) && NoneActed(xs[..|xs| - 1])
    && (forall k :: 0 <= k < |xs| - 1 ==> xs[k].reply.NeverSent?)
    && Acted(xs) == (if xs[|xs| - 1].acted then 1 else 0)
    && (answer.Ok? ==> Acted(xs) == 1)
    && (answer.Err? && !answer.kind.UnknownOutcome? ==> Acted(xs) == 0)
    && (LastReply(sent).Json? && !LastReply(sent).ok ==> Acted(xs) == 0 && answer == Err(Plain))
  }

  lemma SettledFrom(sent: seq<Event>, ep: Endpoint, answer: CallResult)
    requires ep.MovesMoney() && answer == Verdict(ep, LastReply(sent))
    requires var xs := Own(sent, ep);
      && xs != [] && |xs| == |sent| && xs[|xs| - 1].Fair() && xs[|xs| - 1].reply == LastReply(sent)
      && NoneActed(xs[..|xs| - 1]) && forall k :: 0 <= k < |xs| - 1 ==> xs[k].reply.NeverSent?
    ensures Settled(sent, ep, answer)
  {
    hide Own, NoneActed, Acted;
    ActedOnlyLast(Own(sent, ep));
  }

  lemma PlainActs(b: Setup, s: Session, ep: Endpoint, payload: Payload, attempt: nat)
    requires b.Fair() && ep.MovesMoney()
    ensures var ran := PlainCall(b, s, ep, payload, attempt); Settled(ran.sent, ep, ran.answer)
  {
    PlainShape(b, s, ep, payload, attempt);
    var ran := PlainCall(b, s, ep, payload, attempt);
    SupersededNeverActs(b, s, ep, payload, attempt, ran);
    PlainVerdict(b, s, ep, payload, attempt, ran);
    hide PlainCall, Own, PlainRan, NoneActed, LastReply, Settled, Verdict;
    SettledFrom(ran.sent, ep, ran.answer);
  }

  lemma PlainVerdict(b: Setup, s: Session, ep: Endpoint, payload: Payload, attempt: nat, ran: Ran)
    requires PlainRan(b, s, ep, payload, attempt, ran)
    ensures ran.sent != [] && ran.answer == Verdict(ep, LastReply(ran.sent))
  {
  }

  /** At most one effect, told by the answer, and only the last attempt can have had it. */
  ghost predicate Once(xs: seq<Exchange>, answer: CallResult) {
    && xs != [] && Acted(xs) <= 1 && NoneActed(xs[..|xs| - 1])
    && (answer.Ok? ==> Acted(xs) == 1)
    && (answer.Err? && !answer.kind.UnknownOutcome? ==> Acted(xs) == 0)
  }

  lemma OnceInOnePhase(sent: seq<Event>, ep: Endpoint, answer: CallResult)
    requires Settled(sent, ep, answer)
    ensures Once(Own(sent, ep), answer)
    ensures forall failure: CallResult :: LastReply(sent).Expired() && failure.Err? ==> Once(Own(sent, ep), failure)
  {
    hide Own, Acted, NoneActed;
  }

  lemma OnceInTwoPhases(first: seq<Event>, ep: Endpoint, refusal: CallResult, second: seq<Event>, answer: CallResult)
    requires Settled(first, ep, refusal) && LastReply(first).Expired() && Settled(second, ep, answer)
    ensures Once(Own(first, ep) + Own(second, ep), answer)
    ensures var xs := Own(first, ep) + Own(second, ep); xs != [] && xs[|xs| - 1].reply == LastReply(second) && !FirstExpired(xs)
  {
    hide Own, Acted, NoneActed, LastReply;
    var a, b := Own(first, ep), Own(second, ep);
    ActedConcat(a, b);
    EarlierOf(a, b);
    assert (a + b)[|a| - 1] == a[|a| - 1];
  }

  /** An order takes effect at most once; a normal return means exactly once, an error other than
      unknown-outcome means never; every attempt before the last was never sent or was refused as
      token-expired; and at most `maxRetries + 2` attempts are made. */
  lemma OrderTakesEffectAtMostOnce(b: Setup, s: Session, ep: Endpoint, payload: Payload)
    requires b.Fair() && ep.MovesMoney()
    ensures var ran := FullCall(b, s, ep, payload); var xs := Own(ran.sent, ep);
      && 1 <= |xs| <= b.maxRetries + 2
      && Acted(xs) <= 1
      && (ran.answer.Ok? ==> Acted(xs) == 1)
      && (ran.answer.Err? && !ran.answer.kind.UnknownOutcome? ==> Acted(xs) == 0)
      && NoneActed(xs[..|xs| - 1])
  {
    RequestBound(b, s, ep, payload, true);
    OrderIsOnce(b, s, ep, payload);
    hide FullCall, Own, Acted, NoneActed;
  }

  lemma OrderIsOnce(b: Setup, s: Session, ep: Endpoint, payload: Payload)
    requires b.Fair() && ep.MovesMoney()
    ensures var ran := FullCall(b, s, ep, payload); Once(Own(ran.sent, ep), ran.answer)
  {
    hide PlainCall, Renewed, FullCall, Own, Settled, Once, First, Renewal, Second, LastReply;
    OwnOfFull(b, s, ep, payload);
    FullCases(b, s, ep, payload);
    FirstActs(b, s, ep, payload);
    var first := First(b, s, ep, payload);
    OnceInOnePhase(first.sent, ep, first.answer);
    assert Own(first.sent, ep) + [] == Own(first.sent, ep);
    if Renews(b, s, ep, payload) && Renewal(b, s, ep, payload).answer.Ok? {
      SecondActs(b, s, ep, payload);
      OnceInTwoPhases(first.sent, ep, first.answer, Second(b, s, ep, payload).sent, Second(b, s, ep, payload).answer);
    }
  }

  lemma FirstActs(b: Setup, s: Session, ep: Endpoint, payload: Payload)
    requires b.Fair() && ep.MovesMoney()
    ensures var ran := First(b, s, ep, payload); Settled(ran.sent, ep, ran.answer)
  {
    PlainActs(b, s, ep, payload, 0);
    hide PlainCall, Settled;
  }

  lemma SecondActs(b: Setup, s: Session, ep: Endpoint, payload: Payload)
    requires b.Fair() && ep.MovesMoney()
    ensures var ran := Second(b, s, ep, payload); Settled(ran.sent, ep, ran.answer)
  {
    PlainActs(b, Renewal(b, s, ep, payload).session, ep, payload, |First(b, s, ep, payload).sent| - 1);
    hide PlainCall, Settled, Renewal, First;
  }

  lemma EarlierOf(first: seq<Exchange>, second: seq<Exchange>)
    requires first != [] && second != [] && NoneActed(first[..|first| - 1]) && NoneActed(second[..|second| - 1])
    requires first[|first| - 1].reply.Expired() && Acted(first) == 0 && Acted(first) == if first[|first| - 1].acted then 1 else 0
    ensures NoneActed((first + second)[..|first + second| - 1])
  {
    var all := first + second;
    forall k | 0 <= k < |all| - 1
      ensures !all[k].acted && (all[k].reply.NeverSent? || all[k].reply.Expired())
    {
      if k < |first| - 1 {
        assert all[k] == first[..|first| - 1][k];
      } else if k >= |first| {
        assert all[k] == second[..|second| - 1][k - |first|];
      }
    }
  }

  /** A call cannot tell what happened exactly when its last request, its own or a renewal's, was left in
      doubt. */
  lemma FullDoubtIff(b: Setup, s: Session, ep: Endpoint, payload: Payload)
    ensures var ran := FullCall(b, s, ep, payload);
      ran.sent != [] && (ran.answer == Err(UnknownOutcome) <==> EndsInDoubt(ran.sent))
  {
    FullCases(b, s, ep, payload);
    RenewalIsSession(b, s, ep, payload);
    PlainDoubtIff(b, s, ep, payload, 0);
    PlainDoubtIff(b, Renewal(b, s, ep, payload).session, ep, payload, |First(b, s, ep, payload).sent| - 1);
    var first, renewal, second := First(b, s, ep, payload).sent, Renewal(b, s, ep, payload).sent, Second(b, s, ep, payload).sent;
    assert second != [];
    DoubtOfConcat(first, renewal);
    DoubtOfConcat(first + renewal, second);
    hide PlainCall, Renewed, FullCall, EndsInDoubt, Renews;
  }

  lemma DoubtOfConcat(a: seq<Event>, b: seq<Event>)
    requires b != []
    ensures EndsInDoubt(a + b) == EndsInDoubt(b)
  {
  }

  /** The last attempt was refused: a JSON reply without `status: true`. */
  ghost predicate RefusedLast(xs: seq<Exchange>) {
    xs != [] && xs[|xs| - 1].reply.Json? && !xs[|xs| - 1].reply.ok
  }

  /** It was refused as token-expired, and no earlier attempt was. */
  ghost predicate FirstExpired(xs: seq<Exchange>) {
    xs != [] && xs[|xs| - 1].reply.Expired() && forall k :: 0 <= k < |xs| - 1 ==> !xs[k].reply.Expired()
  }

  /** A call whose token renewal failed: its last attempt was its first expired one. */
  lemma RenewalFailed(b: Setup, s: Session, ep: Endpoint, payload: Payload)
    requires b.Fair() && ep.MovesMoney() && Renews(b, s, ep, payload) && Renewal(b, s, ep, payload).answer.Err?
    ensures var ran := FullCall(b, s, ep, payload); var xs := Own(ran.sent, ep);
      FirstExpired(xs) && Acted(xs) == 0 && ran.answer == Renewal(b, s, ep, payload).answer
  {
    OwnOfFull(b, s, ep, payload);
    FullCases(b, s, ep, payload);
    FirstActs(b, s, ep, payload);
    hide PlainCall, Renewed, FullCall, Own, Acted, NoneActed, First, Renewal;
    var first := Own(First(b, s, ep, payload).sent, ep);
    assert first + [] == first;
  }

  /** A call without a renewal: a refusal is its own. */
  lemma RefusedPlainly(b: Setup, s: Session, ep: Endpoint, payload: Payload)
    requires b.Fair() && ep.MovesMoney() && !Renews(b, s, ep, payload)
    requires RefusedLast(Own(FullCall(b, s, ep, payload).sent, ep))
    ensures var ran := FullCall(b, s, ep, payload); var xs := Own(ran.sent, ep);
      ran == First(b, s, ep, payload) && ran.answer == Err(Plain) && Acted(xs) == 0 && (s.refresh ==> !FirstExpired(xs))
  {
    FullCases(b, s, ep, payload);
    FirstActs(b, s, ep, payload);
    hide PlainCall, Renewed, FullCall, Own, Acted, NoneActed, First, Renewal, LastReply;
  }

  /** After a renewal that succeeded, a refusal is the second phase's own. */
  lemma RefusedAfterRenewal(b: Setup, s: Session, ep: Endpoint, payload: Payload)
    requires b.Fair() && ep.MovesMoney() && Renews(b, s, ep, payload) && Renewal(b, s, ep, payload).answer.Ok?
    requires RefusedLast(Own(FullCall(b, s, ep, payload).sent, ep))
    ensures var ran := FullCall(b, s, ep, payload); var xs := Own(ran.sent, ep);
      ran.answer == Err(Plain) && Acted(xs) == 0 && !FirstExpired(xs)
  {
    OwnOfFull(b, s, ep, payload);
    FullCases(b, s, ep, payload);
    FirstActs(b, s, ep, payload);
    SecondActs(b, s, ep, payload);
    var first, second := First(b, s, ep, payload), Second(b, s, ep, payload);
    OnceInTwoPhases(first.sent, ep, first.answer, second.sent, second.answer);
    SettledRefusal(second.sent, ep, second.answer);
    hide PlainCall, Renewed, FullCall, Own, NoneActed, Acted, First, Renewal, Second, LastReply, Settled, FirstExpired;
  }

  lemma SettledRefusal(sent: seq<Event>, ep: Endpoint, answer: CallResult)
    requires Settled(sent, ep, answer)
    ensures LastReply(sent).Json? && !LastReply(sent).ok ==> answer == Err(Plain)
  {
    hide Own, Acted, NoneActed;
  }

  /** A refused order never took effect.  It is reported as unknown exactly when its first token-expired
      refusal met a refresh token and the last request of the renewal was left in doubt; the answer is
      then the renewal's own. */
  lemma RefusedIsUnknownIff(b: Setup, s: Session, ep: Endpoint, payload: Payload)
    requires b.Fair() && ep.MovesMoney() && RefusedLast(Own(FullCall(b, s, ep, payload).sent, ep))
    ensures var ran := FullCall(b, s, ep, payload); var xs := Own(ran.sent, ep);
      && ran.answer.Err? && Acted(xs) == 0
      && (ran.answer == Err(UnknownOutcome) <==> s.refresh && FirstExpired(xs) && EndsInDoubt(ran.sent))
      && (ran.answer == Err(UnknownOutcome) <==>
            Renews(b, s, ep, payload) && Renewal(b, s, ep, payload).answer == Err(UnknownOutcome))
  {
    FullDoubtIff(b, s, ep, payload);
    hide PlainCall, Renewed, FullCall, Own, Acted, FirstExpired, EndsInDoubt, Renewal;
    if !Renews(b, s, ep, payload) {
      RefusedPlainly(b, s, ep, payload);
    } else if Renewal(b, s, ep, payload).answer.Ok? {
      RefusedAfterRenewal(b, s, ep, payload);
    } else {
      RenewalFailed(b, s, ep, payload);
    }
  }

  /** Without a refresh token every refusal is reported as one. */
  lemma RefusedIsKnownWithoutToken(b: Setup, s: Session, ep: Endpoint, payload: Payload)
    requires b.Fair() && ep.MovesMoney() && !s.refresh && RefusedLast(Own(FullCall(b, s, ep, payload).sent, ep))
    ensures var ran := FullCall(b, s, ep, payload); ran.answer == Err(Plain) && Uniform(ran.sent, ep, payload)
  {
    RefusedPlainly(b, s, ep, payload);
    PlainShape(b, s, ep, payload, 0);
    hide PlainCall, Own, Acted, FullCall;
  }

  // ---------- what a caller may conclude ----------

  /** Requests of one route with one payload, and session requests; the route's own comes first. */
  ghost predicate Routed(sent: seq<Event>, ep: Endpoint, payload: Payload) {
    && sent != [] && sent[0].Sent? && sent[0].ep == ep
    && forall k :: 0 <= k < |sent| ==>
         sent[k].Sent? && if sent[k].ep == ep then sent[k].payload == payload else sent[k].ep.Session()
  }

  lemma RoutedConcat(first: seq<Event>, more: seq<Event>, ep: Endpoint, payload: Payload)
    requires Routed(first, ep, payload) && !ep.Session() && (OnlySession(more) || Routed(more, ep, payload))
    ensures Routed(first + more, ep, payload)
  {
  }

  lemma FullIsRouted(b: Setup, s: Session, ep: Endpoint, payload: Payload)
    requires !ep.Session()
    ensures var ran := FullCall(b, s, ep, payload);
      Routed(ran.sent, ep, payload) && Numbered(b, s.requests, ran.sent, ran.session.requests)
  {
    hide PlainCall, Renewed, FullCall, Numbered, Routed, Then;
    FullCases(b, s, ep, payload);
    var first, renewal, second := First(b, s, ep, payload), Renewal(b, s, ep, payload), Second(b, s, ep, payload);
    PlainIsRouted(b, s, ep, payload, 0);
    if Renews(b, s, ep, payload) {
      RenewalShape(b, first.session);
      PlainIsRouted(b, renewal.session, ep, payload, |first.sent| - 1);
      hide First, Renewal, Second, OnlySession;
      ThenSent(first.sent, renewal);
      ThenSent(first.sent + renewal.sent, second);
      RoutedConcat(first.sent, renewal.sent, ep, payload);
      RoutedConcat(first.sent + renewal.sent, second.sent, ep, payload);
      NumberedConcat(b, s.requests, first.sent, first.session.requests, renewal.sent, renewal.session.requests);
      NumberedConcat(b, s.requests, first.sent + renewal.sent, renewal.session.requests, second.sent, second.session.requests);
    }
  }

  lemma ThenSent(sent: seq<Event>, ran: Ran)
    ensures Then(sent, ran).sent == sent + ran.sent && Then(sent, ran).session == ran.session
    ensures Then(sent, ran).answer == ran.answer
  {
  }

  lemma PlainIsRouted(b: Setup, s: Session, ep: Endpoint, payload: Payload, attempt: nat)
    ensures var ran := PlainCall(b, s, ep, payload, attempt);
      Routed(ran.sent, ep, payload) && Numbered(b, s.requests, ran.sent, ran.session.requests)
  {
    PlainShape(b, s, ep, payload, attempt);
    hide PlainCall, Numbered, Resent;
  }

  /** After an order call: its payload went out first and nothing else was ordered; at most one effect,
      exactly one on a normal return, none on an error other than unknown-outcome; and that error is
      exactly the one whose last request was left in doubt. */
  ghost predicate Carried(sent: seq<Event>, ep: Endpoint, payload: Payload, r: CallResult) {
    && Routed(sent, ep, payload)
    && Acted(Own(sent, ep)) <= 1
    && (r.Ok? ==> Acted(Own(sent, ep)) == 1)
    && (r.Err? && !r.kind.UnknownOutcome? ==> Acted(Own(sent, ep)) == 0)
    && (r == Err(UnknownOutcome) <==> EndsInDoubt(sent))
    && r != Err(PaperRefused)
  }

  lemma FullIsCarried(b: Setup, s: Session, ep: Endpoint, payload: Payload)
    requires b.Fair() && ep.MovesMoney()
    ensures var ran := FullCall(b, s, ep, payload); Carried(ran.sent, ep, payload, ran.answer)
  {
    FullIsRouted(b, s, ep, payload);
    OrderTakesEffectAtMostOnce(b, s, ep, payload);
    FullDoubtIff(b, s, ep, payload);
    NeverPaperRefused(b, s, ep, payload);
    hide FullCall, Routed, Own, Acted, EndsInDoubt, NoneActed;
  }

  lemma NeverPaperRefused(b: Setup, s: Session, ep: Endpoint, payload: Payload)
    ensures FullCall(b, s, ep, payload).answer != Err(PaperRefused)
  {
    hide PlainCall, Renewed, FullCall;
    FullCases(b, s, ep, payload);
    PlainAnswers(b, s, ep, payload, 0);
    PlainAnswers(b, Renewal(b, s, ep, payload).session, ep, payload, |First(b, s, ep, payload).sent| - 1);
    RenewalAnswers(b, First(b, s, ep, payload).session);
  }

  lemma PlainAnswers(b: Setup, s: Session, ep: Endpoint, payload: Payload, attempt: nat)
    ensures PlainCall(b, s, ep, payload, attempt).answer != Err(PaperRefused)
  {
    PlainShape(b, s, ep, payload, attempt);
    hide PlainCall, Uniform, Resent, Numbered;
  }

  lemma RenewalAnswers(b: Setup, s: Session)
    ensures Renewed(b, s).answer != Err(PaperRefused)
  {
    PlainAnswers(b, s, Refresh, Credentials, 0);
    LoginAnswers(b, Refreshed(b, s).session, 0);
    hide PlainCall, LoginTries;
  }

  lemma {:induction false} LoginAnswers(b: Setup, s: Session, attempt: nat)
    ensures LoginTries(b, s, attempt).answer != Err(PaperRefused)
    decreases b.loginBackoffs - attempt
  {
    hide PlainCall;
    PlainAnswers(b, s, Login, Credentials, 0);
    var ran := PlainCall(b, s, Login, Credentials, 0);
    if !(ran.answer.Ok? || attempt >= b.loginBackoffs || !b.limited(ran.session.requests)) {
      LoginAnswers(b, ran.session, attempt + 1);
    }
  }

  /** In LIVE an order route carries the order; in PAPER nothing is sent, whatever the route. */
  lemma OrderedIsCarried(b: Setup, s: Session, ep: Endpoint, payload: Payload)
    requires b.Fair() && ep.MovesMoney()
    ensures var ran := Ordered(b, s, ep, payload);
      if b.live then Carried(ran.sent, ep, payload, ran.answer)
      else ran == Ran(s, [], if b.simulatePaper then Ok(Simulated) else Err(PaperRefused))
  {
    FullIsCarried(b, s, ep, payload);
    hide FullCall, Carried;
  }

  /** The rows of the latest order-book reply, if it was a list. */
  ghost function LatestOrders(log: seq<Event>): Rows<OrderRow> { OrdersIn(LatestAnswer(log, OrderBook)) }

  ghost function LatestPositions(log: seq<Event>): Rows<PositionRow> { PositionsIn(LatestAnswer(log, Positions)) }

  /** What the latest reply of a read meant. */
  ghost function LatestAnswer(log: seq<Event>, ep: Endpoint): CallResult {
    var xs := Own(log, ep);
    if xs == [] then Err(Plain) else Verdict(ep, xs[|xs| - 1].reply)
  }

  /** A read that returns normally returns what its last own reply meant, so the log ends with it; and a
      reply of the broker held that data. */
  lemma ReadIsLatest(b: Setup, s: Session, ep: Endpoint, log: seq<Event>)
    requires ep.ReadOnly() && FullCall(b, s, ep, Empty).answer.Ok?
    ensures var ran := FullCall(b, s, ep, Empty); LatestAnswer(log + ran.sent, ep) == ran.answer
  {
    hide PlainCall, Renewed, FullCall, Own, Verdict;
    FullCases(b, s, ep, Empty);
    OwnOfFull(b, s, ep, Empty);
    OwnConcat(log, FullCall(b, s, ep, Empty).sent, ep);
    var first, second := First(b, s, ep, Empty), Second(b, s, ep, Empty);
    PlainEnds(b, s, ep, Empty, 0);
    PlainEnds(b, Renewal(b, s, ep, Empty).session, ep, Empty, |first.sent| - 1);
    assert Own(first.sent, ep) + [] == Own(first.sent, ep);
  }

  lemma PlainEnds(b: Setup, s: Session, ep: Endpoint, payload: Payload, attempt: nat)
    ensures var ran := PlainCall(b, s, ep, payload, attempt); var xs := Own(ran.sent, ep);
      xs != [] && ran.answer == Verdict(ep, xs[|xs| - 1].reply)
  {
    PlainShape(b, s, ep, payload, attempt);
    OwnOfUniform(PlainCall(b, s, ep, payload, attempt).sent, ep, payload);
    hide PlainCall, Own, Verdict;
  }

  /** The data of a successful call came from the network. */
  lemma AnswerIsFromNetwork(b: Setup, s: Session, ep: Endpoint, payload: Payload) returns (i: nat)
    requires !ep.Session() && FullCall(b, s, ep, payload).answer.Ok?
    ensures b.network(i).reply.Json? && b.network(i).reply.ok && b.network(i).reply.data == FullCall(b, s, ep, payload).answer.data
  {
    hide PlainCall, Renewed, FullCall;
    FullCases(b, s, ep, payload);
    if Renews(b, s, ep, payload) {
      i := PlainAnswer(b, Renewal(b, s, ep, payload).session, ep, payload, |First(b, s, ep, payload).sent| - 1);
    } else {
      i := PlainAnswer(b, s, ep, payload, 0);
    }
  }

  lemma PlainAnswer(b: Setup, s: Session, ep: Endpoint, payload: Payload, attempt: nat) returns (i: nat)
    ensures var r := PlainCall(b, s, ep, payload, attempt).answer;
      r.Ok? ==> b.network(i).reply.Json? && b.network(i).reply.ok && b.network(i).reply.data == r.data
  {
    PlainShape(b, s, ep, payload, attempt);
    var ran := PlainCall(b, s, ep, payload, attempt);
    hide PlainCall;
    i := s.requests + |ran.sent| - 1;
  }

  /** A first reply of `status: true` is the whole call. */
  lemma OneRequest(b: Setup, s: Session, ep: Endpoint, payload: Payload)
    requires b.network(s.requests).reply.Json? && b.network(s.requests).reply.ok
    ensures FullCall(b, s, ep, payload)
         == Ran(Counted(s), [Request(b, s, ep, payload)], Ok(b.network(s.requests).reply.data))
  {
  }

  /** Nor does one other refusal than an expired token lead anywhere. */
  lemma OneRefusal(b: Setup, s: Session, ep: Endpoint, payload: Payload)
    requires b.network(s.requests).reply.Json? && !b.network(s.requests).reply.ok && !b.network(s.requests).reply.Expired()
    requires !ep.Session()
    ensures FullCall(b, s, ep, payload) == Ran(Counted(s), [Request(b, s, ep, payload)], Err(Plain))
  {
  }
}
