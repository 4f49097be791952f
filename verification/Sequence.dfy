/** Per-token publish numbering, and what a subscriber can prove from it about a channel that drops,
    repeats or reorders messages. */
module Sequence {

  /** One print of one instrument. */
  datatype Tick = Tick(seqNo: int, ts: real, ltp: real, volume: int)

  datatype Message = Message(token: string, tick: Tick)

  class SequenceManager {
    var counters: map<string, int>

    constructor ()
      ensures counters == map[]
    {
      counters := map[];
    }

    method NextFor(token: string) returns (next: int)
      modifies this
      ensures next == Current(old(counters), token) + 1
      ensures counters == old(counters)[token := next]
    {
      next := (if token in counters then counters[token] else 0) + 1;
      counters := counters[token := next];
    }

    /** Forget one token, so that its next number is 1 again. */
    method Reset(token: string)
      modifies this
      ensures counters == old(counters) - {token} && Current(counters, token) == 0
    {
      counters := counters - {token};
    }
  }

  function Current(counters: map<string, int>, token: string): int {
    if token in counters then counters[token] else 0
  }

  /** What is to be published: a print before it has its number. */
  datatype Quote = Quote(token: string, ts: real, ltp: real, volume: int)

  function Numbered(q: Quote, n: int): Message { Message(q.token, Tick(n, q.ts, q.ltp, q.volume)) }

  function CountersAfter(quotes: seq<Quote>): map<string, int> {
    if quotes == [] then map[]
    else
      var init, last := quotes[..|quotes| - 1], quotes[|quotes| - 1].token;
      CountersAfter(init)[last := Current(CountersAfter(init), last) + 1]
  }

  /** One publisher run: every message numbered as it is sent. */
  function Published(quotes: seq<Quote>): seq<Message> {
    if quotes == [] then []
    else
      var init, last := quotes[..|quotes| - 1], quotes[|quotes| - 1];
      Published(init) + [Numbered(last, Current(CountersAfter(init), last.token) + 1)]
  }

  method Publish(manager: SequenceManager, quotes: seq<Quote>) returns (sent: seq<Message>)
    requires manager.counters == map[]
    modifies manager
    ensures sent == Published(quotes) && manager.counters == CountersAfter(quotes)
  {
    sent := [];
    for i := 0 to |quotes|
      invariant sent == Published(quotes[..i]) && manager.counters == CountersAfter(quotes[..i])
    {
      assert quotes[..i + 1][..i] == quotes[..i];
      var next := manager.NextFor(quotes[i].token);
      sent := sent + [Numbered(quotes[i], next)];
    }
    assert quotes[..|quotes|] == quotes;
  }

  /** One token's ticks, in order of publication. */
  function TicksOf(sent: seq<Message>, token: string): seq<Tick> {
    if sent == [] then []
    else TicksOf(sent[..|sent| - 1], token) + if sent[|sent| - 1].token == token then [sent[|sent| - 1].tick] else []
  }

  /** Each token sees 1, 2, 3, ..., whatever is published in between for others. */
  lemma {:induction false} NumberingIsPerToken(quotes: seq<Quote>, token: string)
    ensures var ticks := TicksOf(Published(quotes), token);
      && |ticks| == Current(CountersAfter(quotes), token)
      && forall k :: 0 <= k < |ticks| ==> ticks[k].seqNo == k + 1
  {
    if quotes != [] {
      NumberingIsPerToken(quotes[..|quotes| - 1], token);
      var sent := Published(quotes);
      assert sent[..|sent| - 1] == Published(quotes[..|quotes| - 1]);
    }
  }

  /** Numbered without a hole. */
  ghost predicate Consecutive(ticks: seq<Tick>) {
    forall k :: 0 < k < |ticks| ==> ticks[k].seqNo == ticks[k - 1].seqNo + 1
  }

  /** What one token publishes has no hole. */
  lemma PublishedIsConsecutive(quotes: seq<Quote>, token: string)
    ensures Consecutive(TicksOf(Published(quotes), token))
  {
    hide Published, TicksOf;
    NumberingIsPerToken(quotes, token);
  }

  lemma {:induction false} ConsecutiveFromFirst(ticks: seq<Tick>, k: nat)
    requires Consecutive(ticks) && k < |ticks|
    ensures ticks[k].seqNo == ticks[0].seqNo + k
  {
    if k > 0 {
      ConsecutiveFromFirst(ticks, k - 1);
    }
  }

  lemma FoundAt(published: seq<Tick>, received: seq<Tick>, k: nat)
    requires Consecutive(published) && Consecutive(received) && k < |received|
    requires received[0] in published && received[k] in published
    ensures 0 <= received[0].seqNo - published[0].seqNo + k < |published|
    ensures published[received[0].seqNo - published[0].seqNo + k] == received[k]
  {
    ConsecutiveFromFirst(received, k);
    var j :| 0 <= j < |published| && published[j] == received[k];
    ConsecutiveFromFirst(published, j);
  }

  /** Whatever the channel dropped, repeated or reordered, received ticks numbered without a hole are a
      contiguous block of the published ones, in order. */
  lemma NoGapMeansContiguous(published: seq<Tick>, received: seq<Tick>) returns (i: nat)
    requires Consecutive(published) && Consecutive(received)
    requires forall t <- received :: t in published
    ensures i + |received| <= |published| && received == published[i..i + |received|]
  {
    if received == [] {
      i := 0;
    } else {
      assert received[0] in received && received[|received| - 1] in received;
      FoundAt(published, received, 0);
      FoundAt(published, received, |received| - 1);
      i := received[0].seqNo - published[0].seqNo;
      forall k | 0 <= k < |received| ensures received[k] == published[i..i + |received|][k] {
        assert received[k] in received;
        FoundAt(published, received, k);
      }
    }
  }
}
