/** A call that meets an expired token, told from the replies in its log: when it refreshes, when it logs
    in, when it sends its payload again, and which tokens are held afterwards. */
module Renewals {
  import opened Options
  import opened Wire
  import opened Client

  /** An authentication refusal: JSON without `status: true`, with a token code or on a bare 401. */
  predicate Expires(reply: Reply) { reply.Json? && !reply.ok && (reply.tokenCode || reply.http == 401) }

  /** A refresh is granted by `status: true` with a JWT. */
  predicate Grants(reply: Reply) { reply.Json? && reply.ok && reply.data.Tokens? && reply.data.jwt }

  /** It is refused by anything else that the broker said: no JSON, no `status: true`, or no JWT. */
  predicate Refuses(reply: Reply) {
    reply.NonJson? || (reply.Json? && !(reply.ok && reply.data.Tokens? && reply.data.jwt))
  }

  /** A login needs `status: true`, a JWT and a feed token. */
  predicate Admits(reply: Reply) { reply.Json? && reply.ok && reply.data.Tokens? && reply.data.jwt && reply.data.feed }

  // ---------- attempts ----------

  /** A failure that costs only an attempt: the request never left, or a reading got no answer. */
  predicate CostsAnAttempt(ep: Endpoint, reply: Reply) {
    reply.NeverSent? || (reply.Lost? && ep in {OrderBook, TradeBook, Positions, Rms, Profile})
  }

  /** A call sends again exactly while its failures cost only attempts and it has attempts left. */
  lemma {:induction false} SendsAgainIff(b: Setup, s: Session, ep: Endpoint, payload: Payload, attempt: nat)
    requires attempt <= b.maxRetries
    ensures var sent := PlainCall(b, s, ep, payload, attempt).sent;
      && Uniform(sent, ep, payload) && 1 <= |sent| <= b.maxRetries + 1 - attempt
      && (forall i :: 0 <= i < |sent| - 1 ==> CostsAnAttempt(ep, sent[i].exchange.reply))
      && (CostsAnAttempt(ep, sent[|sent| - 1].exchange.reply) ==> |sent| == b.maxRetries + 1 - attempt)
    decreases b.maxRetries - attempt
  {
    PlainShape(b, s, ep, payload, attempt);
    if Transport(ep, b.network(s.requests).reply) && attempt < b.maxRetries {
      hide Verdict;
      SendsAgainIff(b, Counted(s), ep, payload, attempt + 1);
      PlainShape(b, Counted(s), ep, payload, attempt + 1);
    }
  }

  /** In PAPER exactly the three routes that move money send nothing; in LIVE every route sends. */
  lemma PaperInterceptsIff(b: Setup, s: Session, ep: Endpoint, payload: Payload, allowRefresh: bool)
    ensures var ran := Called(b, s, ep, payload, allowRefresh);
      && (ran.sent == [] <==> !b.live && ep in {PlaceOrder, ModifyOrder, CancelOrder})
      && (ran.sent == [] ==> ran == Ran(s, [], Ok(Simulated)))
  {
    hide PlainCall, Renewed, Verdict, LastReply;
    PlainShape(b, s, ep, payload, 0);
    FullCases(b, s, ep, payload);
  }

  function Joined(tries: seq<Ran>): seq<Event> {
    if tries == [] then [] else tries[0].sent + Joined(tries[1..])
  }

  /** One login call after another, each of them from the session the one before left. */
  ghost predicate LoginCalls(b: Setup, s: Session, tries: seq<Ran>) {
    tries != [] ==>
      && tries[0] == PlainCall(b, s, Login, Credentials, 0)
      && forall i :: 0 < i < |tries| ==> tries[i] == PlainCall(b, tries[i - 1].session, Login, Credentials, 0)
  }

  /** A login is repeated exactly while it fails, the broker reports its login limit and a back-off is
      left; what it comes to is what its last call came to. */
  lemma {:induction false} LogsInAgainIff(b: Setup, s: Session, attempt: nat) returns (tries: seq<Ran>)
    requires attempt <= b.loginBackoffs
    ensures 1 <= |tries| <= b.loginBackoffs + 1 - attempt && LoginCalls(b, s, tries)
    ensures LoginTries(b, s, attempt) == tries[|tries| - 1].(sent := Joined(tries))
    ensures forall i :: 0 <= i < |tries| - 1 ==> tries[i].answer.Err? && b.limited(tries[i].session.requests)
    ensures var last := tries[|tries| - 1];
      last.answer.Err? && b.limited(last.session.requests) ==> |tries| == b.loginBackoffs + 1 - attempt
    decreases b.loginBackoffs - attempt
  {
    hide PlainCall;
    var ran := PlainCall(b, s, Login, Credentials, 0);
    assert ran.sent + [] == ran.sent;
    tries := [ran];
    if !(ran.answer.Ok? || attempt >= b.loginBackoffs || !b.limited(ran.session.requests)) {
      var rest := LogsInAgainIff(b, ran.session, attempt + 1);
      tries := [ran] + rest;
      assert tries[1..] == rest;
    }
  }

  // ---------- phases ----------

  /** The requests of a call, in order: its own, refreshes, logins, its own again. */
  datatype Phases = Phases(first: seq<Event>, refreshes: seq<Event>, logins: seq<Event>, second: seq<Event>) {
    function Sent(): seq<Event> { first + (refreshes + logins) + second }
  }

  /** What the session cache holds once the refreshes are over. */
  function Cached(b: Setup, s: Session, p: Phases): Option<bool> { b.cache(s.requests + |p.first| + |p.refreshes|) }

  /** The tokens are good again: refreshed, found in the cache, or logged in for. */
  predicate Recovered(b: Setup, s: Session, p: Phases) {
    && p.refreshes != []
    && (|| Grants(LastReply(p.refreshes))
        || (Refuses(LastReply(p.refreshes))
            && (Cached(b, s, p).Some? || (p.logins != [] && Admits(LastReply(p.logins))))))
  }

  /** Which phases there are. */
  ghost predicate Happened(b: Setup, s: Session, ep: Endpoint, payload: Payload, p: Phases) {
    && p.first != [] && Uniform(p.first, ep, payload) && Uniform(p.refreshes, Refresh, Credentials)
    && Uniform(p.logins, Login, Credentials) && Uniform(p.second, ep, payload)
    && (p.refreshes != [] <==> s.refresh && Expires(LastReply(p.first)))
    && (p.logins != [] <==>
          p.refreshes != [] && Refuses(LastReply(p.refreshes)) && Cached(b, s, p).None? && b.hasCredentials)
    && (p.second != [] <==> Recovered(b, s, p))
  }

  /** The tokens held when the call is over. */
  function TokensAfter(b: Setup, s: Session, p: Phases): Session {
    if p.refreshes == [] then s
    else if Grants(LastReply(p.refreshes)) then
      s.(jwt := true, feed := s.feed || LastReply(p.refreshes).data.feed, refresh := true)
    else if !Refuses(LastReply(p.refreshes)) then s
    else if Cached(b, s, p).Some? then s.(jwt := true, feed := true, refresh := Cached(b, s, p).value)
    else if p.logins != [] && Admits(LastReply(p.logins)) then
      s.(jwt := true, feed := true, refresh := LastReply(p.logins).data.refresh)
    else s
  }

  /** What the caller is told. */
  function AnswerOf(b: Setup, s: Session, ep: Endpoint, p: Phases): CallResult {
    if p.second != [] then Verdict(ep, LastReply(p.second))
    else if p.refreshes == [] then Verdict(ep, LastReply(p.first))
    else if LastReply(p.refreshes).NeverSent? then Err(Plain)
    else if LastReply(p.refreshes).Lost? then Err(UnknownOutcome)
    else if p.logins == [] then Err(Auth)
    else if LastReply(p.logins).NeverSent? then Err(Plain)
    else if LastReply(p.logins).Lost? then Err(UnknownOutcome)
    else Err(Auth)
  }

  /** The meaning of a last reply, route by route. */
  lemma VerdictIs(ep: Endpoint, reply: Reply)
    ensures var r, session := Verdict(ep, reply), ep == Login || ep == Refresh;
      var read := ep in {OrderBook, TradeBook, Positions, Rms, Profile};
      && (r.Ok? <==> reply.Json? && reply.ok) && (r.Ok? ==> r.data == reply.data)
      && (r == Err(UnknownOutcome) <==> !read && (reply.Lost? || (reply.NonJson? && !session)))
      && (r == Err(Auth) <==> session && (reply.NonJson? || (reply.Json? && !reply.ok)))
      && r != Err(PaperRefused)
  {
  }

  lemma {:induction false} LoginEnds(b: Setup, s: Session, attempt: nat)
    ensures var ran := LoginTries(b, s, attempt);
      && ran.answer == Verdict(Login, LastReply(ran.sent)) && ran.session == s.(requests := ran.session.requests)
    decreases b.loginBackoffs - attempt
  {
    hide PlainCall, Verdict, LastReply;
    PlainShape(b, s, Login, Credentials, 0);
    var ran := PlainCall(b, s, Login, Credentials, 0);
    if !(ran.answer.Ok? || attempt >= b.loginBackoffs || !b.limited(ran.session.requests)) {
      LoginEnds(b, ran.session, attempt + 1);
      LoginShape(b, ran.session, attempt + 1);
      LastOfConcat(ran.sent, LoginTries(b, ran.session, attempt + 1).sent);
    }
  }

  lemma LastOfConcat(a: seq<Event>, b: seq<Event>)
    requires b != []
    ensures LastReply(a + b) == LastReply(b)
  {
  }

  /** The refresh: how many requests, which tokens, and what it comes to. */
  lemma RefreshIs(b: Setup, s: Session)
    ensures var ran := Refreshed(b, s); var last := LastReply(ran.sent);
      && ran.sent != [] && Uniform(ran.sent, Refresh, Credentials) && ran.session.requests == s.requests + |ran.sent|
      && (ran.answer.Ok? <==> Grants(last)) && (ran.answer == Err(Auth) <==> Refuses(last))
      && (!Grants(last) && !Refuses(last) ==> ran.answer == Err(if last.NeverSent? then Plain else UnknownOutcome))
      && ran.session == (if Grants(last) then s.(jwt := true, feed := s.feed || last.data.feed, refresh := true) else s).
                          (requests := s.requests + |ran.sent|)
  {
    PlainShape(b, s, Refresh, Credentials, 0);
    hide PlainCall;
  }

  /** The login: whether any request goes out, which tokens, and what it comes to. */
  lemma LoginIs(b: Setup, s: Session)
    ensures var ran := LoggedIn(b, s); var last := LastReply(ran.sent);
      && Uniform(ran.sent, Login, Credentials) && ran.session.requests == s.requests + |ran.sent|
      && (ran.sent != [] <==> b.cache(s.requests).None? && b.hasCredentials)
      && (ran.answer.Ok? <==> b.cache(s.requests).Some? || (ran.sent != [] && Admits(last)))
      && (ran.answer.Err? ==>
            ran.answer == Err(if ran.sent == [] || !(last.NeverSent? || last.Lost?) then Auth
                              else if last.NeverSent? then Plain else UnknownOutcome))
      && ran.session == (if b.cache(s.requests).Some? then s.(jwt := true, feed := true, refresh := b.cache(s.requests).value)
                         else if ran.sent != [] && Admits(last) then
                           s.(jwt := true, feed := true, refresh := last.data.refresh)
                         else s).(requests := s.requests + |ran.sent|)
  {
    LoginEnds(b, s, 0);
    LoginShape(b, s, 0);
    hide LoginTries;
  }

  /** A renewal sent `refreshes`, then `logins`. */
  ghost predicate RenewedBy(b: Setup, s: Session, ran: Ran, p: Phases) {
    && p.first == [] && p.second == [] && p.refreshes != []
    && Uniform(p.refreshes, Refresh, Credentials) && Uniform(p.logins, Login, Credentials)
    && ran.sent == p.refreshes + p.logins
    && (p.logins != [] <==> Refuses(LastReply(p.refreshes)) && Cached(b, s, p).None? && b.hasCredentials)
    && (ran.answer.Ok? <==> Recovered(b, s, p))
    && (ran.answer.Err? ==> ran.answer == AnswerOf(b, s, PlaceOrder, p))
    && ran.session == TokensAfter(b, s, p).(requests := s.requests + |ran.sent|)
  }

  /** A renewal logs in exactly after a refused refresh. */
  lemma RenewalIs(b: Setup, s: Session) returns (p: Phases)
    ensures RenewedBy(b, s, Renewed(b, s), p)
  {
    hide Refreshed, LoggedIn, Uniform, LastReply, Verdict;
    RefreshIs(b, s);
    var first := Refreshed(b, s);
    NoneUniform();
    p := Phases([], first.sent, [], []);
    assert first.sent + [] == first.sent;
    if first.answer == Err(Auth) {
      LoginIs(b, first.session);
      p := Phases([], first.sent, LoggedIn(b, first.session).sent, []);
    }
  }

  lemma NoneUniform()
    ensures forall ep, payload :: Uniform([], ep, payload)
  {
  }

  /** What the phases tell of a call. */
  ghost predicate Told(b: Setup, s: Session, ep: Endpoint, payload: Payload, ran: Ran, p: Phases) {
    && ran.sent == p.Sent() && Happened(b, s, ep, payload, p)
    && ran.session == TokensAfter(b, s, p).(requests := s.requests + |ran.sent|)
    && ran.answer == AnswerOf(b, s, ep, p)
  }

  /** A run of attempts without a renewal: how many, with what end. */
  ghost predicate Tried(s: Session, ep: Endpoint, payload: Payload, ran: Ran) {
    && ran.sent != [] && Uniform(ran.sent, ep, payload)
    && ran.session == s.(requests := s.requests + |ran.sent|) && ran.answer == Verdict(ep, LastReply(ran.sent))
  }

  lemma Tries(b: Setup, s: Session, ep: Endpoint, payload: Payload, attempt: nat)
    ensures Tried(s, ep, payload, PlainCall(b, s, ep, payload, attempt))
  {
    PlainShape(b, s, ep, payload, attempt);
    hide PlainCall, Verdict, LastReply;
  }

  lemma NotRenewed(b: Setup, s: Session, ep: Endpoint, payload: Payload, first: Ran)
    requires Tried(s, ep, payload, first) && !(s.refresh && Expires(LastReply(first.sent)))
    ensures Told(b, s, ep, payload, first, Phases(first.sent, [], [], []))
  {
    hide Uniform, LastReply, Verdict;
    NoneUniform();
    assert Phases(first.sent, [], [], []).Sent() == first.sent;
  }

  lemma SameAfter(b: Setup, s: Session, ep: Endpoint, first: Ran, p: Phases, second: seq<Event>)
    requires first.sent != [] && first.session == s.(requests := s.requests + |first.sent|) && p.first == []
    ensures var q := p.(first := first.sent, second := second);
      && Cached(b, s, q) == Cached(b, first.session, p) && Recovered(b, s, q) == Recovered(b, first.session, p)
      && TokensAfter(b, s, q) == TokensAfter(b, first.session, p).(requests := s.requests)
      && (second == [] && p.second == [] && p.refreshes != [] ==> AnswerOf(b, s, ep, q) == AnswerOf(b, first.session, PlaceOrder, p))
  {
    hide LastReply, Verdict, Grants, Refuses, Admits;
  }

  lemma {:induction false} GivenUp(b: Setup, s: Session, ep: Endpoint, payload: Payload, first: Ran, renewal: Ran, p: Phases)
    requires Tried(s, ep, payload, first) && s.refresh && Expires(LastReply(first.sent))
    requires RenewedBy(b, first.session, renewal, p) && renewal.answer.Err?
    ensures Told(b, s, ep, payload, Then(first.sent, renewal), p.(first := first.sent))
  {
    SameAfter(b, s, ep, first, p, []);
    hide Uniform, LastReply, Verdict, Grants, Refuses, Admits, Expires, Cached, Recovered, TokensAfter, AnswerOf;
    NoneUniform();
    assert p.(first := first.sent).Sent() == first.sent + renewal.sent;
  }

  lemma GoneOn(b: Setup, s: Session, ep: Endpoint, payload: Payload, first: Ran, renewal: Ran, p: Phases, second: Ran)
    requires Tried(s, ep, payload, first) && s.refresh && Expires(LastReply(first.sent))
    requires RenewedBy(b, first.session, renewal, p) && renewal.answer.Ok? && Tried(renewal.session, ep, payload, second)
    ensures Told(b, s, ep, payload, Then(first.sent + renewal.sent, second), p.(first := first.sent, second := second.sent))
  {
    SameAfter(b, s, ep, first, p, second.sent);
    SecondAnswers(b, s, ep, p.(first := first.sent, second := second.sent));
    hide Uniform, LastReply, Verdict, Grants, Refuses, Admits, Expires, Cached, Recovered, TokensAfter, AnswerOf;
    assert p.(first := first.sent, second := second.sent).Sent() == first.sent + renewal.sent + second.sent;
  }

  lemma SecondAnswers(b: Setup, s: Session, ep: Endpoint, p: Phases)
    requires p.second != []
    ensures AnswerOf(b, s, ep, p) == Verdict(ep, LastReply(p.second))
  {
  }

  /** A call, phase by phase: it refreshes exactly when its last attempt was refused as expired and a refresh
      token is held; it logs in exactly when the refresh was refused, no session is cached and credentials
      are held; it sends its payload again exactly when one of these made the tokens good; and the tokens
      held and the answer given are those of the last replies. */
  lemma CallPhases(b: Setup, s: Session, ep: Endpoint, payload: Payload) returns (p: Phases)
    ensures Told(b, s, ep, payload, FullCall(b, s, ep, payload), p)
  {
    hide PlainCall, Renewed, LastReply, Verdict, Tried, Told, RenewedBy, Then;
    FullCases(b, s, ep, payload);
    var first, renewal := First(b, s, ep, payload), Renewal(b, s, ep, payload);
    Tries(b, s, ep, payload, 0);
    if !Renews(b, s, ep, payload) {
      p := Phases(first.sent, [], [], []);
      NotRenewed(b, s, ep, payload, first);
    } else {
      var q := RenewalIs(b, first.session);
      if renewal.answer.Err? {
        p := q.(first := first.sent);
        GivenUp(b, s, ep, payload, first, renewal, q);
      } else {
        var second := Second(b, s, ep, payload);
        Tries(b, renewal.session, ep, payload, |first.sent| - 1);
        p := q.(first := first.sent, second := second.sent);
        GoneOn(b, s, ep, payload, first, renewal, q, second);
      }
    }
  }
}
