# Tachyon: verified model

A Dafny model of the parts of Tachyon that decide how much money can be lost: the exit and retry
protocol against the broker, the tick spine, the indicator kernels, order arithmetic, time and rate
limits, the settings editor, packet decoding, and the session lock.  `dafny verify dfyconfig.toml`
checks all of it.

| file | models |
|---|---|
| `Wire.dfy`, `Client.dfy` | requests and replies; `SmartApiClient._call`, token refresh and login |
| `Renewals.dfy` | what a call does about an expired token, told from the replies |
| `Executor.dfy` | `RoboExecutor` and its dedup set |
| `ExitProtocol.dfy`, `SquareOffPass.dfy`, `EntryOrders.dfy` | what its calls guarantee: over a day, in one square-off attempt, in one entry |
| `SquareOff.dfy`, `Attempts.dfy` | square-off with partial, late fills; attempt after attempt |
| `Protection.dfy` | the protective exit and the entry that re-arms it, order by order |
| `AnyBroker.dfy` | which calls end well on every fair broker |
| `ConcreteRuns.dfy` | runs of the executor that show where its guarantees end |
| `Bucket.dfy`, `Throttling.dfy`, `Overlapping.dfy` | `TokenBucket`; `_throttle` with several endpoints and one global bucket, one call after another and overlapping |
| `RefreshBurst.dfy` | expired calls meeting at the refresh lock |
| `Builder.dfy`, `Charges.dfy` | tick rounding, geometry, sizing, split, tags; the cost estimate |
| `Sequence.dfy`, `Aggregator.dfy`, `Candles.dfy`, `Buffers.dfy` | numbering, gap detection, session sums, candles, ring buffers |
| `Indicators.dfy` | EMA (single and fused), VWAP, Wilder ATR, depth-weighted imbalance |
| `Watchdog.dfy` | deadlines pinned to the monotonic clock and their polling |
| `ConfigWriter.dfy`, `Rendering.dfy`, `Patterns.dfy` | line surgery on the settings file; from text to text; what its patterns match |
| `Decoder.dfy`, `Offsets.dfy` | packet framing and the Mode 3 packet; where each of its fields stands |
| `States.dfy` | the state machine under interleaved callers; the daily lock on disk |
| `Options.dfy`, `Lists.dfy`, `Texts.dfy`, `Reals.dfy` | optional values; a law of sequences; stripping and lower case; named laws of real products |

## How to read it

Objects that change in place are classes whose methods are proved equal to a function of the old state;
the laws are lemmas about that function. Every reply of the broker comes from `network`, a fixed but
arbitrary function of the request's number, and every request is kept in a ghost log. The assumption on
the broker is `Exchange.Fair`: a success reply means the request acted, and a request that was never
sent or that was answered without `status: true` did not. That includes a JSON refusal on HTTP 5xx. The
laws of square-off attempts on positions (`SquareOff.AttemptNeverReverses`,
`Attempts.SquareOffNeverReverses`) assume one thing more: that a position reply shows the true book.
Exit calls are serialised: between the check of the dedup set and its update no other exit runs,
although `executor.py` awaits the broker there. Money, prices and clock readings are reals; the EMA
kernels alone run over uninterpreted operations, so that "the same result" there means the same
operations in the same order.

## Where the code and its documentation part

- `_throttle` takes the endpoint's token before it waits for the global one, so requests of one
  endpoint can exceed that endpoint's own bound.  For calls one after another it is by at most one
  (`Throttling.EndpointBound`, exact condition in `Throttling.ExceedsIff`, a run in
  `Throttling.TwoPositionsInLessThanASecond`).  When calls overlap it is by at most as many as wait for a
  global token (`Overlapping.EndpointBoundOverlapping`, a run in `Overlapping.ThreePositionsInTwoThirds`).
- `refresh_session` is documented to make one refresh for a burst of expired calls; nothing is checked
  again after the lock is taken, and n calls make n (`RefreshBurst.BurstRefreshes`,
  `RefreshBurst.OneRefreshIff`).
- An exit that was definitively refused is not always retried: refused as token-expired and followed by
  a renewal that goes unanswered, it is latched (`SquareOffPass.RefusedExitLatchedIff`, on every broker
  only without a refresh token by `AnyBroker.RefusedExitStaysFreeIff`, a run in
  `ConcreteRuns.LatchARefusedExit`).
- `execute_exit` is documented to report a broker refusal as REJECTED; the code lets the client's error
  propagate (`AnyBroker.RefusedExitIsRaised`, `AnyBroker.RejectedIff`, a run in
  `ConcreteRuns.RaiseARefusedExit`).
- The two dedup keys protect an instrument only if broker rows carry the watchlist token
  (`ConcreteRuns.OneKeyPerInstrumentIff`, a run in `ConcreteRuns.ReverseByTwoKeys`).
- `_record_bracket_entry` records the whole plan even if a leg was refused
  (`EntryOrders.EntryRecordsAcceptedIff`, on every broker by
  `AnyBroker.EntryRecordsAcceptedOnEveryBrokerIff`, a run in `ConcreteRuns.RecordARefusedLeg`).
- `place_robo_order` says it never raises for an ordinary refusal; in PAPER it raises on insane offsets
  (`AnyBroker.PaperRaisesIff`, `AnyBroker.BuiltPlanRaisesIff`, a run in `ConcreteRuns.RaiseInPaper`).
- `geometry` accepts an entry that rounds to zero, that is one below half a tick; the payload guard then
  refuses every leg (`Builder.EntryIsPositiveIff`, `Builder.ZeroEntryIsNeverSent`).
- `estimate_charges` is called biased upward; for one order it can be too low (`Charges.CoversIff`).
- `calculate_emas` fails on a period of -1, where `calculate_ema` returns NaN
  (`Indicators.CalculateEmas`).
- The `start` argument of `OrderTagSequencer` has no effect (`Builder.StartIsIgnored`), and tags repeat
  if the date returns to an earlier one (`Builder.TagsDistinctIff`).
- `RingBuffer.last(n)` with a negative `n` drops the oldest `-n` values instead of returning nothing
  (`Buffers.RingBuffer.Last`).
- The settings editor says it leaves every other byte alone; carriage returns and the other line
  terminators of `splitlines` become newlines (`ConfigWriter.TextSurvivesIff`).
- A column-zero comment before the next key belongs to the block above it, and is replaced with it
  (`ConfigWriter.CommentSurvivesIff`).
- `lock_out` says it never raises on a locked machine; it does when it loses a race
  (`States.RaisesIffRaced`).
- `engage` says it is idempotent within a session; overlapping a second call that has already found a
  stale lock, today's lock can be archived (`States.OverlapUnlocks`, exact condition in
  `States.StaysLockedIff`).

## Model

| member | source | states |
|---|---|---|
| `Client.OrderTakesEffectAtMostOnce` | src/tachyon/execution/api.py:1002-1142 | For any fair broker and any sequence of replies, an order-moving call takes effect at most once; a normal return means exactly once, an error other than unknown-outcome means never; only the last attempt can have acted. |
| `Client.RequestBound` | src/tachyon/execution/api.py:1006-1026 | A call makes at least one and at most `max_retries + 1` requests of its own endpoint, one more if it may refresh and holds a refresh token, reads included. |
| `Client.Resends` | src/tachyon/execution/api.py:1019-1059 | A request that was never sent (or lost, for an idempotent endpoint) within the retry budget leaves the rest of the call what it was: the loop goes on one attempt further. |
| `Client.RenewsOnce` | src/tachyon/execution/api.py:1095-1120 | A token-expired refusal with a refresh token held ends the call with the renewal's own error, or lets it go on without any further renewal. |
| `Client.Ends` | src/tachyon/execution/api.py:1019-1142 | Every other reply, and one that exhausts the budget, ends the call with the meaning of that reply. |
| `Client.FullDoubtIff` | src/tachyon/execution/api.py:1019-1142 | A call reports unknown-outcome if and only if the last request it sent, its own or a renewal's, was left in doubt. |
| `Client.RenewalShape` | src/tachyon/execution/api.py:1108-1118 | A renewal starts with a refresh request, sends session requests only, numbered in sequence, and is unknown exactly when its last request was left in doubt. |
| `Client.RefusedIsUnknownIff` | src/tachyon/execution/api.py:1095-1120 | An order whose last attempt was refused never took effect, and it is reported unknown if and only if its first token-expired refusal met a refresh token and the last request of the renewal was left in doubt. |
| `Client.RefusedIsKnownWithoutToken` | src/tachyon/execution/api.py:1102 | Without a refresh token every refusal of an order is reported as a refusal. |
| `Client.FullIsRouted` | src/tachyon/execution/api.py:1002-1142 | A call sends its own payload on its own route first, then only that or session requests, each with the broker's own next exchange. |
| `Client.OrderedIsCarried` | src/tachyon/execution/api.py:910-951 | In PAPER an order route sends nothing and answers by the simulation switch; in LIVE it carries the order, with at most one effect, told by the answer. |
| `Client.ReadIsLatest` | src/tachyon/execution/api.py:859-906 | A read that returns normally returns what the latest reply of its route in the log says; so it cannot return stale or made-up rows. |
| `Client.AnswerIsFromNetwork` | src/tachyon/execution/api.py:900-906 | The data of a successful call is the data of some `status: true` reply of the broker. |
| `Client.SmartApiClient.Call` | src/tachyon/execution/api.py:985-1142 | Session, log and answer are those of `Called`, to which the laws above apply. The refresh lock is as it was, and a call that may refresh is never made with it held. |
| `Client.SmartApiClient.Attempts` | src/tachyon/execution/api.py:1002-1142 | The retry loop, whose invariant is that what has been sent followed by the rest is the whole call. |
| `Client.SmartApiClient.RefreshSession` | src/tachyon/execution/api.py:757-804 | Requires the non-reentrant lock free and leaves it free; tokens are replaced only by a successful refresh that carries a JWT. |
| `Client.SmartApiClient.RenewSession` | src/tachyon/execution/api.py:1108-1118 | Session, log and answer are those of the renewal, which `Renewals.RenewalIs` tells from the replies: one login exactly after a refused refresh. |
| `Client.SmartApiClient.LogIn` | src/tachyon/execution/api.py:645-717 | A cached session is adopted without a request; without credentials it fails unsent; otherwise the login's tokens are adopted. |
| `Client.SmartApiClient.LoginWithBackoff` | src/tachyon/execution/api.py:719-755 | Login requests are repeated only while the broker reports its login limit and the back-off list lasts. |
| `Client.SmartApiClient.PlaceOrder` | src/tachyon/execution/api.py:821-835 | What is sent and answered is `Ordered` on the place-order route, so `OrderedIsCarried` tells the caller what happened to the order. |
| `Client.SmartApiClient.CancelOrder` | src/tachyon/execution/api.py:847-857 | The same on the cancel route: nothing in PAPER, and in LIVE a cancel of this order that acts at most once and places nothing. |
| `Client.SmartApiClient.ReadOrders` | src/tachyon/execution/api.py:859-866 | The rows of the order book as `ReadIsLatest` has it, an empty book for `null`, or exactly the call's own failure. |
| `Client.SmartApiClient.ReadPositions` | src/tachyon/execution/api.py:872-874 | The same for positions. |
| `Renewals.CallPhases` | src/tachyon/execution/api.py:1002-1142 | Told from the replies in the log: a call refreshes exactly when its last attempt was refused as expired and a refresh token is held; logs in exactly when the last refresh reply was a refusal (no JSON, no success, or no JWT), no session is cached and credentials are held; sends its own payload again exactly when the refresh, the cache or an accepted login made the tokens good; and ends with the tokens and the answer of those replies. |
| `Renewals.RenewalIs` | src/tachyon/execution/api.py:1108-1118 | The same of a renewal on its own: refresh requests, then login requests if and only if the refresh was refused, nothing is cached and credentials are held; it succeeds exactly when the tokens are good again. |
| `Renewals.RefreshIs` | src/tachyon/execution/api.py:757-804 | A refresh succeeds exactly on success with a JWT, is refused exactly on any other reply, and is otherwise unsent or unknown; it keeps a feed token it held and always holds a refresh token after success. |
| `Renewals.LoginIs` | src/tachyon/execution/api.py:645-717 | A login sends exactly when no session is cached and credentials are held, and succeeds exactly on a cached session or a reply with JWT and feed token, whose refresh token it adopts. |
| `Renewals.LogsInAgainIff` | src/tachyon/execution/api.py:719-755 | Login calls follow one another exactly while each fails, the broker reports its login limit and a back-off is left; the outcome is that of the last. |
| `Renewals.SendsAgainIff` | src/tachyon/execution/api.py:1019-1059 | A request is sent again exactly while it never left, or, on the five reading routes only, got no answer, and attempts are left. |
| `Renewals.VerdictIs` | src/tachyon/execution/api.py:1019-1142 | What a last reply means, route by route: data exactly for JSON success; unknown exactly for an answer lost, or not JSON, on a route that neither reads nor opens a session; an authentication error exactly for a refused login or refresh. |
| `Renewals.PaperInterceptsIff` | src/tachyon/execution/api.py:910-951 | In PAPER exactly place, modify and cancel send nothing; every other route sends, and so does every route in LIVE. |
| `Wire.OpenUnlessOver` | src/tachyon/execution/api.py:91-93 | An order still works unless its status, in any case and with any blanks around it, is complete, cancelled, canceled or rejected; every other text still works. |
| `Texts.SaysIff` | src/tachyon/execution/api.py:1166-1168 | Stripped and lowered, a text equals a word exactly when it is that word in any case between blanks. |
| `Wire.LiveExitsOfOrder` | src/tachyon/execution/api.py:1002-1142 | Appending the requests of one order changes the count of live exits of its key by exactly what its own exchanges did, and of no other key. |
| `Wire.AtMostOneExitExtends` | src/tachyon/execution/executor.py:789-886 | The at-most-one history property survives a batch of requests that ends with every count at most one. |
| `ExitProtocol.AtMostOneExitPerInstrument` | src/tachyon/execution/executor.py:741-904 | Over any day of exit signals, square-off attempts, entries, other calls of the client and outside changes of registry and session, from any desk and whatever the broker answers: if every watchlist item and every broker row of an instrument gives one key, then at every moment at most one market exit of it has taken effect since it was last re-armed. |
| `ExitProtocol.DayKeepsProtected` | src/tachyon/execution/executor.py:448-1147 | Any sequence of such events keeps the invariant: a key whose exit took effect since its re-arm is latched, none ever had two, and the instrument's effects are filed under its one key. |
| `ExitProtocol.ExitKeepsLatch` | src/tachyon/execution/executor.py:858-886 | One exit for a free key, latched unless definitively refused, keeps the key-level invariant with no assumption on spelling. |
| `ExitProtocol.QuietKeepsLatch` | src/tachyon/execution/executor.py:1065-1093 | Requests of which none is an effective market exit keep it. |
| `ExitProtocol.RearmKeepsLatch` | src/tachyon/execution/executor.py:520 | Discarding the key when a new entry is recorded keeps it, because counting restarts there. |
| `ExitProtocol.SignalKeeps` | src/tachyon/execution/executor.py:748-904 | So does any per-tick exit signal, PAPER included. |
| `ExitProtocol.SquareOffKeeps` | src/tachyon/execution/executor.py:998-1147 | So does any square-off attempt, however it ends. |
| `ExitProtocol.EntryKeeps` | src/tachyon/execution/executor.py:448-640 | So does any entry, refused, simulated or partly accepted. |
| `ConcreteRuns.OneKeyPerInstrumentIff` | src/tachyon/execution/executor.py:1113-1115 | No broker, desk and day ever lets two exits of the instrument take effect between re-armings if and only if watchlist and broker rows spell it with one key. |
| `ConcreteRuns.ReverseByTwoKeys` | src/tachyon/execution/executor.py:789-1147 | With any two different keys, a fill recorded by an entry, a protective exit and one square-off attempt, made by calling the executor, leave two effective exits. |
| `SquareOffPass.RefusedExitLatchedIff` | src/tachyon/execution/executor.py:858-886 | A LIVE exit whose last attempt was refused took no effect, and its key is latched if and only if its first token-expired refusal met a refresh token and the last request of the renewal was left in doubt. |
| `SquareOffPass.RefusedExitIsFreeWithoutToken` | src/tachyon/execution/executor.py:858-886 | Without a refresh token every refused exit stays free for another try. |
| `AnyBroker.RefusedExitStaysFreeIff` | src/tachyon/execution/executor.py:858-886 | For a free key, any retry budget and any configuration: every fair LIVE broker leaves a refused exit free if and only if no refresh token is held as it is placed. |
| `AnyBroker.RefusedExitIsRaised` | src/tachyon/execution/executor.py:766-886 | A LIVE exit of a listed symbol whose last attempt was refused is raised as an error if its key stays free, and reported suppressed if it is latched. |
| `AnyBroker.RejectedIff` | src/tachyon/execution/executor.py:766-825 | An exit is reported rejected if and only if its symbol is recorded, its key free, and it is not on the watchlist; no answer of the broker leads there. |
| `ConcreteRuns.RaiseARefusedExit` | src/tachyon/execution/executor.py:766-886 | A run of the executor: one lot is bought, its protective exit is refused, an error is raised and the key stays free. |
| `ConcreteRuns.LatchARefusedExit` | src/tachyon/execution/executor.py:1113-1147 | A run of the client and the executor: the exit is refused as expired, the refresh goes unanswered, nothing took effect, and the key is latched. |
| `Executor.RoboExecutor.PlaceExit` | src/tachyon/execution/executor.py:1113-1147 | One placement, then the latch: the key is added exactly when the answer is normal or unknown. |
| `Executor.RoboExecutor.ExecuteExit` | src/tachyon/execution/executor.py:748-904 | Nothing is sent for a closed, latched or unlisted position, nor in PAPER; otherwise the one exit that `Protection.ExitTakesToZero` spells out, latched unless refused. |
| `Protection.ExitTakesToZero` | src/tachyon/execution/executor.py:748-904 | In LIVE, for a listed, recorded position with a free key and a signal in its direction: every order sent is a market order on the watchlist instrument for exactly minus the recorded position (a sale for a long, a purchase for a short), under that instrument's key, and the quantity reported is the size of the position. |
| `Protection.ExitFollowsSignal` | src/tachyon/execution/executor.py:820 | Whatever the record says, the order sells for a long signal and buys for a short one, by the recorded quantity. |
| `Protection.PaperExit` | src/tachyon/execution/executor.py:806-864 | In PAPER the same signal sends nothing, reports that size as simulated and latches just that key. |
| `Protection.SuppressedExit` | src/tachyon/execution/executor.py:773-805 | A position that is not recorded, or whose key is latched, is left alone entirely. |
| `Protection.Found` | src/tachyon/core/config.py:639-641 | The watchlist item of a symbol is the first with that symbol, and its exit key is its token, or the symbol if it has none. |
| `SquareOffPass.CancelsEveryOpenOrder` | src/tachyon/execution/executor.py:1074-1093 | In LIVE every order row whose status is none of the four for an order that is over gets its cancel request, nothing is placed, cancelled plus failed is the number of open orders, and effective cancels lie between the cancelled and those plus the failed. |
| `SquareOffPass.CancellingPass` | src/tachyon/execution/executor.py:1065-1093 | A cancelling pass places and latches nothing, and in LIVE stops early exactly when the order book could not be read. |
| `Executor.RoboExecutor.CancelWorkingOrders` | src/tachyon/execution/executor.py:1074-1093 | The loop is `WorkingCancelled`: the book is read in this call and each row handled in turn, stopping at a PAPER refusal. |
| `SquareOffPass.ExitsCloseTheRows` | src/tachyon/execution/executor.py:1095-1147 | Every order sent closes an open row whose key was free, for its whole quantity; the first open row of every free key is tried; submitted plus failed is the number of open rows, and effects lie between the two. |
| `SquareOffPass.ExitingPass` | src/tachyon/execution/executor.py:1095-1147 | The rows are the position book that the broker showed in this very call, and a LIVE pass stops early exactly when it could not be read. |
| `Executor.RoboExecutor.ExitOpenPositions` | src/tachyon/execution/executor.py:1095-1147 | The loop is `OpenExited`, to which `ExitingPass` applies; a latched key counts as a failure and sends nothing. |
| `SquareOffPass.ReReadingPass` | src/tachyon/execution/executor.py:1040-1055 | The residual counts are the number of order rows that are none of complete, cancelled, canceled and rejected, and of position rows that are not zero, in the books that the broker showed last. |
| `Executor.RoboExecutor.ReadBack` | src/tachyon/execution/executor.py:1040-1055 | Orders first, then positions, each read once; the first failure is what is raised. |
| `SquareOffPass.SquareOffAttempt` | src/tachyon/execution/executor.py:998-1063 | A LIVE attempt that reports read a book, closed only its open rows, tried each free key, reports residuals that the broker showed last and an exit count within one effect a failure, and clears the registry exactly when flat. |
| `SquareOffPass.SquareOffRaisesIff` | src/tachyon/execution/executor.py:998-1063 | A LIVE attempt raises if and only if one of its four readings gives no rows. |
| `Executor.RoboExecutor.FlattenEverything` | src/tachyon/execution/executor.py:998-1063 | PAPER sends nothing and clears the registry; LIVE is the attempt of `SquareOffPass.SquareOffAttempt`, and flat exactly as `SquareOffPass.RegistryClearedIff` says. |
| `SquareOffPass.RegistryClearedIff` | src/tachyon/execution/executor.py:998-1063 | A LIVE attempt that reports is flat, and clears the registry, if and only if every order row it was shown last says that it is over and every position row is zero; one that raises leaves the registry alone; PAPER clears it without a request. |
| `SquareOffPass.FlatIff` | src/tachyon/execution/executor.py:216-218 | No order row counts as open and no position row as open, which is what a flat report needs, if and only if every order row says complete, cancelled, canceled or rejected, and every position row is zero. |
| `EntryOrders.LegsGoOutInOrder` | src/tachyon/execution/executor.py:555-640 | In LIVE the sane legs go out in the order of the plan, each as one bracket with its side, price and distances, nothing else is ordered, and an unknown outcome stops the rest; each result tells accepted, refused or unknown. |
| `EntryOrders.RecordedIsAcceptedIff` | src/tachyon/execution/executor.py:497-519 | For any results of a plan's legs, the whole quantity equals the accepted quantity if and only if every leg was tried and accepted. |
| `EntryOrders.EntryRecordsAcceptedIff` | src/tachyon/execution/executor.py:497-519 | A LIVE entry enters with the results of its legs; if any was accepted the recorded quantity equals the accepted one exactly when none was refused, unknown or left out; otherwise nothing is recorded or re-armed. |
| `AnyBroker.EntryRecordsAcceptedOnEveryBrokerIff` | src/tachyon/execution/executor.py:497-640 | For positive quantities and any configuration: every fair LIVE broker leaves an entry recorded with exactly what it accepted if and only if the plan has one leg or the payload guard refuses all its legs. |
| `AnyBroker.PaperRaisesIff` | src/tachyon/execution/executor.py:522-537 | An entry raises on its offsets if and only if it is PAPER, authorised for its symbol, and the guard refuses one of its legs; then nothing is recorded or sent. |
| `AnyBroker.BuiltPlanRaisesIff` | src/tachyon/execution/executor.py:114-133 | For a plan that the builder returns, exactly when its farthest target or its trailing step exceeds two fifths of the entry. |
| `ConcreteRuns.RaiseInPaper` | src/tachyon/execution/executor.py:522-537 | A run of builder and PAPER executor: a plan is built for an entry of ten and an ATR of two, and placing it raises and records nothing. |
| `ConcreteRuns.RecordARefusedLeg` | src/tachyon/execution/executor.py:497-640 | A run of the executor in which one leg of two lots is accepted, one of one lot refused, and three lots are registered. |
| `Executor.RoboExecutor.SendLeg` | src/tachyon/execution/executor.py:555-640 | A leg with insane offsets is never sent; otherwise its one bracket goes out and the result is the broker's answer. |
| `Executor.RoboExecutor.SendLegs` | src/tachyon/execution/executor.py:555-640 | The loop is `LegsSent`, of which `LegsGoOutInOrder` speaks. |
| `Executor.RoboExecutor.Transmit` | src/tachyon/execution/executor.py:497-640 | The legs go out, and if any was accepted the plan is recorded and the exit key re-armed as `Protection.EntryRearms` spells out; otherwise neither changes. |
| `Executor.RoboExecutor.PlaceRoboOrder` | src/tachyon/execution/executor.py:448-553 | The refusals in their order, then the LIVE or PAPER entry with its effect on registry and dedup set; in PAPER every leg is accepted unless some leg's offsets are insane, when it raises before recording. |
| `Protection.EntryRearms` | src/tachyon/execution/executor.py:497-553 | If a leg was accepted, the registry holds the plan's whole quantity, long exactly when the plan buys, and the dedup set is the old one without the symbol's exit key, every other key untouched; otherwise registry and dedup set are as before. |
| `Protection.EntryEnds` | src/tachyon/execution/executor.py:448-553 | An entry is refused exactly when it is not authorised, authorised for another symbol, or without legs, and then leaves everything as it was; PAPER sends nothing, accepts every leg with its quantity, and marks the report as simulated, as LIVE never does. |
| `Protection.ExitAfterEntry` | src/tachyon/execution/executor.py:448-904 | Over two calls: after an entry of which a leg was accepted, the next exit signal for the symbol is not suppressed, even if its key was latched before the entry; in LIVE it sends the order that takes the recorded quantity to zero. |
| `Protection.BracketIsTheLeg` | src/tachyon/execution/executor.py:336-369 | The bracket sent for a leg of a built plan buys or sells as the plan does, at the entry, and its two distances are those to the leg's own target and stop. |
| `SquareOff.IterationIsNext` | src/tachyon/execution/executor.py:1113-1147 | One iteration of the executor's exit loop is one `Next` step of the square-off machine, enabled there, with the same keys latched and the same effect. |
| `SquareOff.PassIsARun` | src/tachyon/execution/executor.py:1095-1147 | A whole pass of the executor, with fills of live exits landing anywhere in between, is a run of the machine. |
| `Attempts.SquareOffNeverReverses` | src/tachyon/execution/executor.py:998-1147 | Over any number of whole square-off attempts of the executor on the true book, with fills landing while it cancels, exits and re-reads: from the first book to the last no net position changes sign or grows, at most one exit of each row takes effect, and the keys latched are the executor's own. |
| `Attempts.AttemptIsARun` | src/tachyon/execution/executor.py:998-1063 | One whole attempt, raising or not, is a run of the machine. |
| `Attempts.AttemptHappens` | src/tachyon/execution/executor.py:998-1063 | Such an attempt exists from every state that keeps the invariant, for every answer of the broker that is true to the book or unreadable. |
| `SquareOff.PassHappens` | src/tachyon/execution/executor.py:1095-1147 | A pass over the rows just read can always be made, one step a row. |
| `SquareOff.AttemptNeverReverses` | src/tachyon/execution/executor.py:1095-1147 | One exiting pass of the executor that reads the true book in any order, while earlier and present exits fill as they may: no net position changes sign or grows, and live exits keep matching what is open. |
| `SquareOff.StepKeepsInv` | src/tachyon/execution/executor.py:1095-1147 | Every read, exit and partial fill, in any interleaving, keeps: a live exit closes exactly what is open and its key is latched; positions only move towards zero. |
| `SquareOff.NoPositionReverses` | src/tachyon/execution/executor.py:371-391 | In any run no net position changes sign or grows. |
| `SquareOff.FreshIsSafe` | src/tachyon/execution/executor.py:1095-1147 | The same for any run that starts with nothing in flight, with no further assumption on it. |
| `SquareOff.OneExitPerRow` | src/tachyon/execution/executor.py:1113-1147 | Over a whole run at most one exit of a row takes effect, and none once its key is latched. |
| `SquareOff.FilledExitIsFlat` | src/tachyon/execution/executor.py:371-391 | A row whose exit took effect and has filled completely is flat. |
| `SquareOff.ClosesToZero` | src/tachyon/execution/executor.py:371-391 | Once open quantity and quantity still to fill cancel out, they do so at every later point of the run. |
| `Bucket.TokenBucket.Refill` | src/tachyon/execution/api.py:279-284 | Tokens become the least of capacity and what has flowed in since the last update. |
| `Bucket.TokenBucket.TryAcquire` | src/tachyon/execution/api.py:286-292 | Succeeds exactly when enough is available now, and then takes exactly that. |
| `Bucket.TokenBucket.DelayFor` | src/tachyon/execution/api.py:294-298 | The deficit over the rate, zero when there is none; only the refill is visible. |
| `Bucket.TokenBucket.Acquire` | src/tachyon/execution/api.py:300-311 | Undisturbed, a request within capacity ends after at most one exact sleep of the announced delay and leaves the bucket with exactly that much taken. |
| `Bucket.AcquireEndsIff` | src/tachyon/execution/api.py:300-311 | Some later instant has enough tokens if and only if the request is within capacity. |
| `Bucket.SleepFills` | src/tachyon/execution/api.py:294-298 | An exact sleep of the announced delay leaves exactly the tokens asked for. |
| `Bucket.RefillIsInvisible` | src/tachyon/execution/api.py:279-284 | Refilling early changes nothing that can be seen later. |
| `Bucket.TokensConserved` | src/tachyon/execution/api.py:279-311 | Over any history, what was granted plus what is left is at most what was there plus what flowed in. |
| `Bucket.WindowBound` | src/tachyon/execution/api.py:271-311 | Every window of any history grants at most capacity + rate * T; tokens stay within 0 and capacity. |
| `Bucket.PeeksDoNotMatter` | src/tachyon/execution/api.py:294-298 | Removing every peek and failed try from a history leaves a history with the same grants. |
| `Bucket.UnitGrantsObey` | src/tachyon/execution/api.py:300-311 | Grants of one token each obey the window bound at every pair of instants. |
| `Bucket.Throttle` | src/tachyon/execution/api.py:976-978 | First the endpoint's token, then the global one, each with its own exact wait. |
| `Throttling.Limiter.BucketFor` | src/tachyon/execution/api.py:953-959 | The endpoint's own bucket, made full at its first use and the same ever after; no bucket is shared. |
| `Throttling.Limiter.Serve` | src/tachyon/execution/api.py:976-978 | One call leaves at the instant, and the buckets in the state, that the specification of two buckets in a row gives. |
| `Throttling.Limiter.ServeAll` | src/tachyon/execution/api.py:976-978 | So does any sequence of calls to any endpoints. |
| `Throttling.GlobalHistory` | src/tachyon/execution/api.py:976-978 | Whatever endpoints they are for, the requests of a run are a history of unit grants of the global bucket. |
| `Throttling.GlobalBound` | src/tachyon/execution/api.py:575-576 | All requests of any run together obey the global capacity and rate in every window. |
| `Throttling.OwnHistory` | src/tachyon/execution/api.py:953-978 | One endpoint's requests, with any others in between, are a history of its own bucket at the instants their tokens were taken. |
| `Throttling.EndpointBound` | src/tachyon/execution/api.py:976-978 | For calls one after another, with other endpoints in between: a window exceeds its endpoint's bound by at most what flows in while its first request waits for the global token, and by at most one request; if that request did not wait, not at all. |
| `Throttling.ExceedsIff` | src/tachyon/execution/api.py:976-978 | The request just made can start a window that exceeds its endpoint's bound, under some further calls, if and only if the endpoint is slower than the global bucket and its bucket is less than one token down as the request leaves. |
| `Throttling.RunObeys` | src/tachyon/execution/api.py:976-978 | For calls one after another: if no request of the endpoint leaves in that state, every window of its requests obeys its bound. |
| `Throttling.FastEndpointObeys` | src/tachyon/execution/api.py:976-978 | An endpoint at least as fast as the global ceiling always obeys its own bound, however often it waits. |
| `Throttling.TwoPositionsInLessThanASecond` | src/tachyon/execution/api.py:575-576 | A run of the limiter with a ceiling of eight: two position requests seven eighths of a second apart from a bucket of one a second. |
| `Overlapping.GlobalBoundOverlapping` | src/tachyon/execution/api.py:953-982 | With any overlap of calls, cancelled ones included: between any two moments no more requests leave than the global capacity plus rate times the time between. |
| `Overlapping.EndpointBoundOverlapping` | src/tachyon/execution/api.py:953-982 | With any overlap of calls an endpoint exceeds its own bound by no more than the number of its requests that were waiting for a global token at the first of the two moments. |
| `Overlapping.ServedIsARun` | src/tachyon/execution/api.py:976-978 | A call on its own is one of these runs. |
| `Overlapping.ThreePositionsInTwoThirds` | src/tachyon/execution/api.py:953-982 | A first-come run of overlapping calls in which an endpoint exceeds its bound by more than one. |
| `RefreshBurst.OneAtATime` | src/tachyon/execution/api.py:764-804 | In every interleaving at most one refresh is under way, and its caller holds the lock. |
| `RefreshBurst.BurstRefreshes` | src/tachyon/execution/api.py:757-804 | A burst of n calls that saw their token expire makes exactly n refreshes, in every interleaving that finishes and loses no refresh token. |
| `RefreshBurst.AtMostOneEach` | src/tachyon/execution/api.py:757-804 | Whatever the logins bring, no caller refreshes twice. |
| `RefreshBurst.LogsInIff` | src/tachyon/execution/api.py:1108-1118 | Nor is a login shared: as long as no login loses the refresh token, a caller that is done has logged in if and only if its own refresh was refused. |
| `RefreshBurst.OneRefreshIff` | src/tachyon/execution/api.py:757-763 | Every interleaving of a burst makes at most one refresh if and only if the burst is of at most one call. |
| `Aggregator.TickAggregator.OnTick` | src/tachyon/math_engine/core.py:236-254 | The fields after a tick are those of the definition over the list of ticks, extended by this one. |
| `Aggregator.TickAggregator.VolumeDelta` | src/tachyon/math_engine/core.py:270-291 | Zero for the first or a fallen total, else the growth; the total is remembered. |
| `Aggregator.TickAggregator.HandleGap` | src/tachyon/math_engine/core.py:293-321 | Counts the gap, drops VWAP validity and everything accumulated. |
| `Aggregator.TickAggregator.Invalidate` | src/tachyon/math_engine/core.py:310-321 | Buffers, sums, last total and open candle are all dropped. |
| `Aggregator.TickAggregator.FoldCandle` | src/tachyon/math_engine/core.py:323-356 | One print opens, grows or closes the candle as the fold does, of which `Candles.CandlesByTheClock` says what five minutes each candle holds. |
| `Aggregator.TickAggregator.ResetSession` | src/tachyon/math_engine/core.py:456-468 | Everything but the last print's size returns to its initial value. |
| `Aggregator.TickAggregator.Tainted` | src/tachyon/math_engine/core.py:361-367 | True exactly while a gap was seen and fewer than the recovery number of prices are retained. |
| `Aggregator.TickAggregator.Vwap` | src/tachyon/math_engine/core.py:385-395 | The stored sums give the session VWAP or its absence. |
| `Aggregator.SessionIs` | src/tachyon/math_engine/core.py:236-321 | For every list of ticks since a reset: the gap count is the number of holes, buffers and candles are those of the ticks since the latest hole, and the session sums are exact as long as there was none. |
| `Aggregator.NoHolesIff` | src/tachyon/math_engine/core.py:241-246 | No gap is counted if and only if the numbers are consecutive. |
| `Aggregator.SinceGapIsLongestBlock` | src/tachyon/math_engine/core.py:310-321 | What is kept starts right after the latest hole and runs without a hole to the last tick. |
| `Aggregator.SessionVwapIff` | src/tachyon/math_engine/core.py:385-395 | Session VWAP is defined if and only if no tick was lost since reset and something traded; then it is turnover over volume. |
| `Aggregator.SizesTelescope` | src/tachyon/math_engine/core.py:270-291 | When totals never fall, the sizes of a block add up to last total minus first. |
| `Aggregator.PrintIs` | src/tachyon/math_engine/core.py:270-291 | Each print's size is what the cumulative total grew by since the tick before; nothing for the first print of a block and for a total that fell. |
| `Aggregator.SessionVwapIsAnAverage` | src/tachyon/math_engine/core.py:385-396 | A defined session VWAP lies between the least and the greatest price of the session. |
| `Aggregator.ResetIs` | src/tachyon/math_engine/core.py:456-468 | A reset forgets everything of the session but the last print's size, which is always that of the last print retained. |
| `Aggregator.NoGapsMeansExact` | src/tachyon/math_engine/core.py:236-254 | With one publisher run and any channel, zero gaps means the received ticks are a contiguous block of the published ones, and sums, buffers and candles are exactly that block's. |
| `Aggregator.PublishedToAggregated` | src/tachyon/math_engine/core.py:236-254 | The same end to end: of quotes published for any tokens, one token's ticks arrive over any channel, and zero gaps means the sums, buffers and candles are those of a contiguous block of that token's publications. |
| `Aggregator.TaintClearsIff` | src/tachyon/math_engine/core.py:361-367 | Taint lasts exactly until the recovery number of clean ticks has arrived, or for good when the buffer cannot hold that many. |
| `Candles.CandlesInAnyOrder` | src/tachyon/math_engine/core.py:323-356 | For prints in any order: starts strictly increase, low <= open and close <= high in every candle, and candle volumes add up to all volume. |
| `Candles.CandlesAreOfflineGrouping` | src/tachyon/math_engine/core.py:323-356 | For time-ordered prints the closed candles plus the open one are exactly the grouping by 300-second bucket: first, greatest, least, last and volume sum of each bucket that has a print. |
| `Candles.BucketIsFiveMinutes` | src/tachyon/math_engine/core.py:325 | A candle's start is the multiple of 300 seconds with start <= t < start + 300. |
| `Candles.CandlesByTheClock` | src/tachyon/math_engine/core.py:323-358 | For time-ordered prints: every candle starts on a multiple of 300 seconds, holds exactly the prints of its five minutes, opens with the first, closes with the last, spans and touches the extremes and adds up the sizes; two prints share a candle if and only if no multiple of 300 lies after the earlier and at or before the later. |
| `Candles.SameBucketIff` | src/tachyon/math_engine/core.py:54 | Two instants fall in one bucket if and only if no multiple of 300 seconds lies after the earlier and at or before the later. |
| `Candles.HighestIsMax` | src/tachyon/math_engine/core.py:334-341 | The grouping's high and low really are the greatest and least price, and are attained. |
| `Sequence.SequenceManager.NextFor` | src/tachyon/ingestion/sequence.py:43-47 | One more than the token's last number, 1 at first; other tokens are untouched. |
| `Sequence.SequenceManager.Reset` | src/tachyon/ingestion/sequence.py:61-67 | Only that token restarts at 1. |
| `Sequence.Publish` | src/tachyon/ingestion/service.py:237 | The publisher's loop numbers every quote with its token's next number, whatever tokens are interleaved. |
| `Sequence.PublishedIsConsecutive` | src/tachyon/ingestion/sequence.py:43-47 | One token's ticks of any publisher run are numbered without a hole. |
| `Sequence.NumberingIsPerToken` | src/tachyon/ingestion/sequence.py:43-47 | In any interleaving each token is given 1, 2, 3, ... |
| `Sequence.NoGapMeansContiguous` | src/tachyon/ingestion/sequence.py:43-47 | Ticks received without a hole in their numbers are a contiguous block of the published ones, whatever the channel dropped, repeated or reordered. |
| `Buffers.RingBuffer.Append` | src/tachyon/math_engine/buffers.py:62-69 | The history grows by the value, the two halves stay equal, and the window still shows its tail. |
| `Buffers.RingBuffer.Extend` | src/tachyon/math_engine/buffers.py:71-74 | The history grows by all the values in order. |
| `Buffers.RingBuffer.Clear` | src/tachyon/math_engine/buffers.py:76-81 | Nothing is retained. |
| `Buffers.RingBuffer.View` | src/tachyon/math_engine/buffers.py:83-93 | One contiguous slice that equals the last min(count, capacity) values since the last clear, in order. |
| `Buffers.RingBuffer.Last` | src/tachyon/math_engine/buffers.py:95-104 | The most recent n of those; for a negative n, everything but the oldest -n. |
| `Buffers.RingBuffer.Latest` | src/tachyon/math_engine/buffers.py:105-114 | The value appended last, or none. |
| `Buffers.AppendFills` | src/tachyon/math_engine/buffers.py:62-69 | Below capacity one double write extends the window at its end. |
| `Buffers.AppendSlides` | src/tachyon/math_engine/buffers.py:62-69 | At capacity one double write slides the window by one, across the wrap. |
| `Buffers.CandleBuffer.Push` | src/tachyon/math_engine/buffers.py:149-165 | All six series advance by the same candle. |
| `Buffers.CandleBuffer.Clear` | src/tachyon/math_engine/buffers.py:167-176 | All six series are emptied together. |
| `Buffers.SeriesAligned` | src/tachyon/math_engine/buffers.py:149-165 | The six series are equally long, and position k of each belongs to the same candle. |
| `Indicators.CalculateEma` | src/tachyon/math_engine/indicators.py:117-140 | The seed mean and the recurrence over the rest, or NaN, over uninterpreted arithmetic. |
| `Indicators.CalculateEmas` | src/tachyon/math_engine/indicators.py:144-186 | For every period that is not -1 the fused pass writes exactly the single-period result, by the same operations, NaN included; it raises if and only if some period is -1, and then writes nothing. |
| `Indicators.FusedPass` | src/tachyon/math_engine/indicators.py:171-180 | One price advances every period's running state, whatever stage each is in. |
| `Indicators.RunningStep` | src/tachyon/math_engine/indicators.py:171-180 | The fused update of one period is one step of the single-period recurrence. |
| `Indicators.EmaMoves` | src/tachyon/math_engine/indicators.py:118-142 | In exact arithmetic: undefined exactly without `period` samples, first the mean of them, and each later price pulls the EMA two parts in period + 1 of the way towards itself. |
| `Indicators.CalculateVwap` | src/tachyon/math_engine/indicators.py:84-113 | The loop computes the price-volume sum over the volume sum on the shorter length, or none. |
| `Indicators.VwapIsAnAverage` | src/tachyon/math_engine/indicators.py:84-113 | With non-negative volumes a defined VWAP lies between the least and the greatest price. |
| `Indicators.VwapMoves` | src/tachyon/math_engine/indicators.py:84-113 | Defined exactly when something was traded; each further print pulls it by its own volume. |
| `Indicators.CalculateWilderAtr` | src/tachyon/math_engine/indicators.py:190-242 | Seed mean of the first true ranges, then Wilder's smoothing, on the shortest length, or none. |
| `Indicators.AtrIsAnAverage` | src/tachyon/math_engine/indicators.py:190-242 | A defined ATR lies between the least and the greatest true range, and is non-negative when no low exceeds its high. |
| `Indicators.AtrStarts` | src/tachyon/math_engine/indicators.py:190-242 | Defined exactly from period + 1 candles on, and first the mean of the true ranges. |
| `Indicators.AtrMoves` | src/tachyon/math_engine/indicators.py:190-242 | Each later candle replaces one part in `period` of the ATR by its own true range. |
| `Indicators.TrueRangeIsGreatest` | src/tachyon/math_engine/indicators.py:190-242 | The true range is the greatest of the candle's range and its two distances from the previous close. |
| `Indicators.CalculateDepthWeightedObi` | src/tachyon/math_engine/indicators.py:265-316 | The loops compute the distance-weighted imbalance, with every zero-result case. |
| `Indicators.ObiIsBounded` | src/tachyon/math_engine/indicators.py:265-316 | With non-negative sizes the imbalance lies in [-1, 1]. |
| `Indicators.ObiIgnoresPriceScale` | src/tachyon/math_engine/indicators.py:265-316 | Multiplying every price by one positive factor changes nothing. |
| `Indicators.ObiIgnoresSizeScale` | src/tachyon/math_engine/indicators.py:265-316 | Nor does multiplying every size by one. |
| `Indicators.ObiPointsToTheHeavier` | src/tachyon/math_engine/indicators.py:265-316 | With non-negative sizes the imbalance is positive if and only if the weighted bid size exceeds the weighted ask size, and negative if and only if it falls short. |
| `Indicators.SwappingSidesNegates` | src/tachyon/math_engine/indicators.py:265-316 | Swapping the sizes of two ladders at equal distances from the mid negates the imbalance. |
| `Indicators.WeightsAre` | src/tachyon/math_engine/indicators.py:265-316 | A level weighs (ask - bid) / (ask - bid + twice its distance from the mid), one half at the best prices, when the quote is positive and uncrossed; otherwise one over its position. |
| `Indicators.OneLevelIsPlain` | src/tachyon/math_engine/indicators.py:265-316 | With one level a side it is the difference of the sizes over their sum. |
| `Builder.RoundsToNearestTick` | src/tachyon/execution/builder.py:156-170 | The result is a nearest multiple of the tick, ties away from zero. |
| `Builder.GeometryInTicks` | src/tachyon/execution/builder.py:463-521 | An accepted geometry in whole ticks: risk n, targets 1.5n and 2.5n rounded half up, every price the entry plus or minus those. |
| `Builder.GeometryHolds` | src/tachyon/execution/builder.py:477-519 | T1 >= 1.5R and T2 >= 2.5R, each by at most half a tick; T2 minus T1 is exactly R; risk and entry are within half a tick of what was asked. |
| `Builder.GeometryOnTick` | src/tachyon/execution/builder.py:477-519 | All nine prices and offsets are tick multiples. |
| `Builder.TrailHolds` | src/tachyon/execution/builder.py:496-504 | The trailing step is within half a tick of `trail_step_r` times R and at least a tick, or one tick if that product is below half a tick; the activation is within half a tick of `trail_activation_r` times R. |
| `Builder.ShortMirrorsLong` | src/tachyon/execution/builder.py:477-519 | The short is the long mirrored about the entry, and is accepted exactly when it is. |
| `Builder.BudgetIsBounded` | src/tachyon/execution/builder.py:438-459 | The budget is non-negative and, when positive, within both the per-trade risk and the headroom. |
| `Builder.BudgetIs` | src/tachyon/execution/builder.py:438-459 | A multiplier in (0, 1] scales the lesser of per-trade risk and headroom, one above 1 grants it whole, and one that is zero, negative, not finite or not a number grants nothing. |
| `Builder.SizeIsLargestAffordable` | src/tachyon/execution/builder.py:523-561 | The quantity fits the budget and one more lot would not. |
| `Builder.SizeRefusesOnlyUnaffordable` | src/tachyon/execution/builder.py:523-561 | A valid sizing is refused if and only if one lot exceeds the budget. |
| `Builder.SplitConserves` | src/tachyon/execution/builder.py:563-577 | Both legs are whole lots summing to the total, leg A never the smaller and within half a lot of 60 %. |
| `Builder.PlanIsSound` | src/tachyon/execution/builder.py:581-652 | Legs are whole lots summing to the sized quantity; their risks sum to `risk_inr`, which is within the budget, the per-trade risk and the headroom. |
| `Builder.BuildsIff` | src/tachyon/execution/builder.py:581-652 | A plan is built if and only if the symbol is listed, entry and ATR are finite and positive, 1.5 ATR is at least half a tick, and the budget covers one lot; it carries that symbol, side, budget and lot size. |
| `Builder.RefusalIsTruthful` | src/tachyon/execution/builder.py:581-652 | The reason given for a refusal is true of the input. |
| `Builder.LegsAimAtTargets` | src/tachyon/execution/builder.py:563-652 | Leg A comes first and aims 1.5R away, leg B, there exactly from two lots on, 2.5R, each within half a tick; both stop one R on the other side, the offsets are those distances, and leg B takes the whole number of lots nearest to two fifths. |
| `Builder.FindsFirst` | src/tachyon/core/config.py:639-641 | The first watchlist entry with the symbol is the one used, and none only if there is none. |
| `Builder.HeadroomIs` | src/tachyon/risk/tracker.py:213-220 | The headroom is what may still be lost before the limit, and nothing once it is reached. |
| `Builder.DailyLimitHolds` | src/tachyon/execution/builder.py:438-459 | Over any sequence of one-at-a-time trades sized on the remaining headroom and losing no more than planned, cumulative loss never exceeds the daily limit. |
| `Builder.SaneLegIsNearEntry` | src/tachyon/execution/executor.py:114-133 | A built leg that passes the payload guard has stop and target within 60 % to 140 % of a positive entry, on opposite sides. |
| `Builder.SaneIff` | src/tachyon/execution/executor.py:114-133 | A built leg passes the payload guard if and only if stop and target lie within 60 % to 140 % of the entry and the trailing step is at most 40 % of it. |
| `Builder.EntryIsPositiveIff` | src/tachyon/execution/builder.py:477-519 | An accepted geometry has a positive entry if and only if the entry asked for is at least half a tick; otherwise its entry is zero. |
| `Builder.ZeroEntryIsNeverSent` | src/tachyon/execution/executor.py:114-133 | A plan for an entry below half a tick is built, but the payload guard refuses every leg of it. |
| `Builder.TwoPaiseRoundToNothing` | src/tachyon/execution/builder.py:477-519 | An entry of two paise at a tick of five is accepted with entry zero. |
| `Builder.OrderTagSequencer.NextTag` | src/tachyon/execution/builder.py:231-237 | The next number of the day, 1 on a new date. |
| `Builder.TagsDistinctIff` | src/tachyon/execution/builder.py:211-237 | No two orders share a tag if and only if the date never returns to one that was left. |
| `Builder.StartIsIgnored` | src/tachyon/execution/builder.py:226-229 | The constructor's `start` never reaches a tag. |
| `Builder.OrderBuilder.Build` | src/tachyon/execution/builder.py:581-652 | The plan is the specification's; a refusal draws no tag, a plan draws one fresh tag a leg, in order. |
| `Charges.TrueBrokerageBounds` | src/tachyon/execution/charges.py:86-124 | However turnover is split, the per-order capped brokerage is at most the cap per order and at most the rate on all of it. |
| `Charges.EstimateCovers` | src/tachyon/execution/charges.py:86-124 | For two or more orders the estimate is at least the true cost of every split of the turnover. |
| `Charges.OneOrderUnderestimates` | src/tachyon/execution/charges.py:86-124 | A single buy of 10 000 rupees costs more than its estimate. |
| `Charges.CoversIff` | src/tachyon/execution/charges.py:86-124 | Under the default schedule the estimate covers every split if and only if the number of orders is not one. |
| `Charges.EstimateIsMonotone` | src/tachyon/execution/charges.py:86-124 | More turnover or more orders never lowers the estimate. |
| `Charges.EstimateIsClose` | src/tachyon/execution/charges.py:81-124 | Under the default schedule the estimate exceeds the unrounded formula by less than 1.18 * orders + 5.36 paise. |
| `Charges.ComponentsAre` | src/tachyon/execution/charges.py:38-124 | Under the default schedule, with its seven figures written out: each component is its rate on its own turnover, taken up to the next whole paisa; the brokerage is per order, on half the turnover, at most 20 rupees; GST is on brokerage, exchange and SEBI charges only; and the total is their sum. |
| `Watchdog.SessionWatchdog.Poll` | src/tachyon/core/clock.py:264-276 | The filter, the insertion sort and the latch, as loops: what is reported is chronological and holds a deadline if and only if it is armed, not latched before and elapsed; a later poll never reports it again (`ReportedOnce`). |
| `Watchdog.SessionWatchdog.NextPollDelay` | src/tachyon/core/clock.py:286-297 | The tick, or less when a deadline is nearer. |
| `Watchdog.SortByTargetSorts` | src/tachyon/core/clock.py:270-272 | The report is a chronological permutation. |
| `Watchdog.PollMembers` | src/tachyon/core/clock.py:264-276 | A poll reports a deadline if and only if it is armed, unfired and elapsed. |
| `Watchdog.SleepIsExact` | src/tachyon/core/clock.py:286-297 | After an exact sleep nothing is overslept, and the sleep is a whole tick or ends on a pending deadline. |
| `Watchdog.ReportedOnTime` | src/tachyon/core/clock.py:264-297 | Each event is reported at its own deadline, or at the first poll if it had passed. |
| `Watchdog.ReportedInOrder` | src/tachyon/core/clock.py:264-297 | Across the whole run events come in chronological order. |
| `Watchdog.ReportedOnce` | src/tachyon/core/clock.py:264-297 | No event is reported twice in a run. |
| `Watchdog.SleepsAreTicks` | src/tachyon/core/clock.py:286-297 | All sleeps but one an event are whole ticks. |
| `Watchdog.ReportedWithinBound` | src/tachyon/core/clock.py:264-297 | A deadline at most k ticks away is reported within k + 1 polls plus one an event. |
| `Watchdog.JumpsChangeNothing` | src/tachyon/core/clock.py:182-203 | Any wall-clock jumps after arming leave every report of the driven run unchanged. |
| `Watchdog.RunWithJumps` | src/tachyon/core/clock.py:92-94 | The watchdog itself, driven by exact sleeps with `jump_wall_clock` called between the polls: its reports are those of the run without jumps. |
| `Watchdog.SessionDay` | src/tachyon/core/clock.py:220-276 | The four session events armed on one reading and driven with any positive tick: all reported, once each, in order, each at its deadline or at the first poll. |
| `Watchdog.SessionByTheClock` | src/tachyon/core/constants.py:60-71 | With the times written out: all four events are reported, entries open at 09:20, no new entries at 15:00, square-off at 15:15 and market close at 15:30 as the wall clock stood at arming, or at once if that is past; nothing else is. |
| `Watchdog.DelayIsNeverNegative` | src/tachyon/core/clock.py:286-297 | A sleep is never negative, and zero without a positive tick. |
| `ConfigWriter.BlockBounds` | src/tachyon/core/config_writer.py:152-178 | The loops find the bounds of the specification: missing, ambiguous, or one place. |
| `ConfigWriter.BoundsIff` | src/tachyon/core/config_writer.py:152-178 | Bounds [s, e) are returned if and only if s is the only line of the key and e is the next key line or the end; missing exactly when no line carries the key. |
| `ConfigWriter.ReplaceBlock` | src/tachyon/core/config_writer.py:181-192 | The in-place walk over trailing blanks yields the specified rewrite, or the error. |
| `ConfigWriter.RewriteLands` | src/tachyon/core/config_writer.py:181-192 | Afterwards the block reads as the replacement followed by the old trailing blanks. |
| `ConfigWriter.LastRewriteWins` | src/tachyon/core/config_writer.py:181-192 | A second rewrite of a key makes the first one unobservable. |
| `ConfigWriter.RepeatIsStableIff` | src/tachyon/core/config_writer.py:184-192 | Repeating a rewrite changes nothing if and only if the replacement does not end in a blank line; else its blanks are added again each time. |
| `ConfigWriter.BlanksSurvive` | src/tachyon/core/config_writer.py:184-192 | Trailing blanks survive any number of rewrites, and only the last rewrite shows. |
| `ConfigWriter.WriteBack` | src/tachyon/core/config_writer.py:181-192 | Writing back the block that is there leaves the file identical. |
| `ConfigWriter.RewriteKeepsOthers` | src/tachyon/core/config_writer.py:181-192 | Every other key reads as before: same text, absent, or ambiguous. |
| `ConfigWriter.PutsCommute` | src/tachyon/core/config_writer.py:181-192 | Rewrites of different keys commute. |
| `ConfigWriter.ReplaceScalar` | src/tachyon/core/config_writer.py:195-210 | The loop finds and rewrites the specified line, or reports which part is missing. |
| `ConfigWriter.SetScalarIs` | src/tachyon/core/config_writer.py:195-210 | A scalar edit changes exactly one line, the first match inside the block, and keeps the number of lines. |
| `ConfigWriter.AssignedReads` | src/tachyon/core/config_writer.py:198-208 | A rewritten line still matches the pattern, with its indentation and the comment that the new value leaves visible. |
| `ConfigWriter.LastSetWinsIff` | src/tachyon/core/config_writer.py:195-210 | The last assignment wins if and only if the earlier value holds no `#`. |
| `ConfigWriter.SetLands` | src/tachyon/core/config_writer.py:195-210 | After a scalar edit with a value without `#`, the block reads as that value, up to blanks around it. |
| `ConfigWriter.SetKeepsOthers` | src/tachyon/core/config_writer.py:195-210 | A scalar edit leaves every other key's block as it was. |
| `ConfigWriter.EditsCommute` | src/tachyon/core/config_writer.py:309-324 | A scalar edit in one block and a rewrite of another succeed in either order or in neither, with the same result. |
| `ConfigWriter.WatchlistBlockIsBlock` | src/tachyon/core/config_writer.py:104-143 | The generated block has one key line, first, and a non-blank last line, so the laws apply to it. |
| `ConfigWriter.RenderTwice` | src/tachyon/core/config_writer.py:309-324 | Rendering the result again with the same request changes nothing. |
| `ConfigWriter.CommentSurvivesIff` | src/tachyon/core/config_writer.py:152-192 | A column-zero comment is in the file after a rewrite if and only if the replacement has it or it stood somewhere other than between the block's key line and the next key line. |
| `Patterns.KeyIff` | src/tachyon/core/config_writer.py:61 | A line starts a block if and only if it is a key at column zero (a letter or underscore, then letters, digits, underscores and hyphens), white space or none, and a colon. |
| `Patterns.ScalarIff` | src/tachyon/core/config_writer.py:198 | For a key that does not start with white space: a line carries the scalar if and only if it is white space, the key, white space or none, a colon, and anything. |
| `Patterns.AssignedIs` | src/tachyon/core/config_writer.py:204-208 | A rewritten line is the old indentation, the key, a colon and a blank, the value, and two blanks before the old comment, which starts at the first `#`. |
| `Patterns.FirstScalarIs` | src/tachyon/core/config_writer.py:200-208 | It is the first matching line of the block that is rewritten. |
| `Patterns.RewriteErrsIff` | src/tachyon/core/config_writer.py:152-192 | A block is reported missing if and only if no line carries its key, and ambiguous if and only if two lines do. |
| `Patterns.SetErrsIff` | src/tachyon/core/config_writer.py:195-210 | The same for a scalar edit, and the scalar is reported missing if and only if its block is there and no line below the key line matches. |
| `Patterns.SplitIs` | src/tachyon/core/config_writer.py:309 | A text is its lines with one terminator after each, save perhaps after the last; CR LF is one terminator. |
| `Patterns.TerminatorsAre` | src/tachyon/core/config_writer.py:309 | The ten terminators of `splitlines`, by code point. |
| `Patterns.RenderLands` | src/tachyon/core/config_writer.py:309-324 | A rendering that succeeds leaves the watchlist block as asked for before its old blanks, the capital block's session budget as asked for, and every other block as it was. |
| `Rendering.RenderSettings` | src/tachyon/core/config_writer.py:309-331 | Split, edit, edit, join: the text, or the edit that failed. |
| `Rendering.RenderTextTwice` | src/tachyon/core/config_writer.py:309-331 | From text to text: for every text, whatever its terminators and however it ends, rendering the result again with the same request gives the same text. |
| `Rendering.SplitUndoesJoin` | src/tachyon/core/config_writer.py:309-328 | Lines joined with a final newline split into themselves. |
| `Rendering.RenderWithBlank` | src/tachyon/core/config_writer.py:309-324 | An empty last line is carried along by every edit and decides no error. |
| `Rendering.ClosedByACarriageReturn` | src/tachyon/core/config_writer.py:309-328 | A final blank line that a carriage return closes is lost by the first rendering, and the next changes nothing more. |
| `ConfigWriter.LinesHoldNoTerminator` | src/tachyon/core/config_writer.py:309 | No line produced by `splitlines` holds a terminator. |
| `ConfigWriter.TextSurvivesIff` | src/tachyon/core/config_writer.py:309-329 | Splitting and joining leaves a text byte for byte if and only if newline is its only line terminator. |
| `Decoder.IterPackets` | src/tachyon/ingestion/decoder.py:356-386 | The loop computes the specified framing, with both error cases and their offsets. |
| `Decoder.FramingUndoesConcat` | src/tachyon/ingestion/decoder.py:356-386 | Framing any concatenation of well-sized packets gives exactly those packets. |
| `Decoder.ConcatUndoesFraming` | src/tachyon/ingestion/decoder.py:356-386 | The output always concatenates back to the input, and every packet has its mode's size. |
| `Decoder.FramesIff` | src/tachyon/ingestion/decoder.py:356-386 | Framing succeeds if and only if the buffer is a concatenation of well-sized packets. |
| `Decoder.RefusalIsAtFirstFault` | src/tachyon/ingestion/decoder.py:371-381 | A refusal names the first offset where no whole packet starts; everything before it is framed; the kind of refusal is the right one. |
| `Decoder.UnpackUndoesPack` | src/tachyon/ingestion/decoder.py:84-97 | For any layout, unpacking little-endian fields undoes packing. |
| `Decoder.PackUndoesUnpack` | src/tachyon/ingestion/decoder.py:84-97 | And packing undoes unpacking: different bytes never read as the same fields. |
| `Decoder.LayoutWidths` | src/tachyon/ingestion/decoder.py:84-121 | The Mode 3 parts are 147, ten times 20 and 32 bytes wide. |
| `Decoder.SplitDepth` | src/tachyon/ingestion/decoder.py:233-255 | The loop builds both ladders in the order sent, by flag. |
| `Decoder.NoLevelIsLost` | src/tachyon/ingestion/decoder.py:244-255 | The two ladders together hold every level exactly as often as it was sent. |
| `Decoder.SideEmptyIff` | src/tachyon/ingestion/decoder.py:244-255 | A ladder is empty if and only if no entry carries its flag. |
| `Decoder.TokenRoundTrip` | src/tachyon/ingestion/decoder.py:209-223 | A clean token, padded with NULs to 25 bytes, reads back as itself. |
| `Decoder.UnpackedUndoesEncode` | src/tachyon/ingestion/decoder.py:258-301 | All 23 fields and ten depth entries of an encoded packet are read back. |
| `Decoder.DecodeUndoesEncode` | src/tachyon/ingestion/decoder.py:258-325 | Decoding an encoded packet gives its meaning, or the wrong-mode error exactly when its mode is not 3. |
| `Offsets.QuoteByOffset` | src/tachyon/ingestion/decoder.py:258-325 | For every Mode 3 payload of 379 bytes, without the layouts: each field is the signed little-endian number in its own eight bytes, prices over ten million for exchange 13 and over a hundred for any other. |
| `Offsets.LevelByOffset` | src/tachyon/ingestion/decoder.py:233-255 | Each of the ten entries of twenty bytes from byte 147 on is a level of its side, a bid exactly when its two-byte flag is 1, behind the entries of that side sent before it, with price, quantity and orders from its own bytes. |
| `Offsets.RefusedIff` | src/tachyon/ingestion/decoder.py:270-296 | A payload is refused for its length if and only if that is not 379, and for its mode if and only if its first byte is not 3. |
| `Offsets.WellSizedIff` | src/tachyon/ingestion/decoder.py:102-121 | A whole packet is 51 bytes in mode 1, 123 in mode 2, or 379 in mode 3. |
| `Offsets.TokenIs` | src/tachyon/ingestion/decoder.py:209-223 | For every token field: the token is its ASCII text without the NULs at the end and then without the white space at both ends, and nothing else is taken off. |
| `Offsets.OnlyAsciiIsKept` | src/tachyon/ingestion/decoder.py:223 | Bytes above 127 are dropped, wherever they stand, and every other byte is its character. |
| `States.StateMachine.TransitionTo` | src/tachyon/core/state.py:343-362 | Moves and records exactly when the table allows it, else raises and changes nothing; the history stays a legal chain. |
| `States.MovesIff` | src/tachyon/core/state.py:59-85 | The legal moves, spelled out state by state, and what a move or a refusal leaves. |
| `States.StateMachine.LockOut` | src/tachyon/core/state.py:364-380 | Undisturbed it never raises, ends LOCKED, and on a locked machine changes nothing. |
| `States.ChainAdvances` | src/tachyon/core/state.py:59-85 | A legal history strictly advances through the seven states: none is entered twice, and at most six moves are made. |
| `States.EveryRunIsAChain` | src/tachyon/core/state.py:343-380 | In every interleaving of transitions and two-step `lock_out` calls the history is a legal chain. |
| `States.LockedForGood` | src/tachyon/core/state.py:59-85 | Once LOCKED, no step of any thread changes state or history. |
| `States.LockedOnceLockOutEnds` | src/tachyon/core/state.py:364-380 | When a `lock_out` ends, by returning or raising, the machine is LOCKED and stays so. |
| `States.LoneLockOut` | src/tachyon/core/state.py:364-380 | Undisturbed, the two steps of a `lock_out` do what the method does: nothing on a locked machine, else exactly one more move to LOCKED. |
| `States.RaisesIffRaced` | src/tachyon/core/state.py:370-380 | A `lock_out` that found the machine unlocked raises if and only if another step locked it between its two critical sections. |
| `States.ARacedLockOutRaises` | src/tachyon/core/state.py:370-380 | Two interleaved calls of which the second raises. |
| `States.FailsSafe` | src/tachyon/core/state.py:141-163 | A boot is let through if and only if the lock file is absent or readably names another day. |
| `States.Boot` | src/tachyon/core/state.py:323-328 | The boot move is always legal; the state is the resolved one, LOCKED exactly when the lock is engaged. |
| `States.BootsAdvance` | src/tachyon/core/state.py:269-283 | A later boot of the day never lands in an earlier state; ACTIVE exactly from 09:15 to 15:00 without a lock. |
| `States.BootStateIs` | src/tachyon/core/state.py:250-283 | Each state exactly: LOCKED for a lock that is garbled, unreadable or of today, else PRE_MARKET before 09:15, ACTIVE before 15:00, NO_NEW_ENTRIES before 15:15, SQUARING_OFF before 15:30, SQUARED_OFF after. |
| `States.StaysLockedIff` | src/tachyon/core/state.py:188-248 | A lock in place survives all later calls of `engage`, overlapping as they may, if and only if no call that found a stale lock earlier is still to archive it. |
| `States.DailyLock.Engage` | src/tachyon/core/state.py:188-248 | With no other call under way the lock file ends up naming today and no temporary file is left, by the same accesses as the step-by-step account. |
| `States.EngageLocksTheDay` | src/tachyon/core/state.py:188-234 | An `engage` with no other call under way returns with today's date on disk, and every later boot that day is LOCKED whatever engages follow. |
| `States.OverlapUnlocks` | src/tachyon/core/state.py:200-248 | Two overlapping calls on a stale lock: the first returns, the second archives today's lock, and a boot at that moment is ACTIVE. |

## Left out

- HTTP, WebSocket, ZeroMQ, Telegram, journal and log writes, request statistics and the CLI.
- The token cache and symbol normalisation: `core/token_cache.py` and `core/symbols.py` are not part of
  this model, so whether a cached session is found, and whether a login refusal counts as rate-limited,
  is an arbitrary function of the request number.
- The contents of simulated PAPER orders, and order or position rows of a wrong shape.
- `open_position`, `RiskEngine`, `PnLTracker`, fill booking and the registry beyond a map: a risk decision
  and the headroom are inputs.
- Overlapping exit coroutines, cancellation of a coroutine other than while it waits for a global
  token, and transport exceptions that `_call` does
  not list.
- Float and `Decimal` rounding: reals and integers stand for both.
- `move_stop_to_breakeven`, `modify_order`, `seed_bars`, `on_orderbook`, snapshots and plain `calculate_obi`.
- `decode_ltp`, timestamp plausibility and the unused change-percent field; doubles in a packet stay eight
  raw bytes.
- `_validate`, `write_settings`, `format_decimal` and the request checks of `render_settings`: the YAML and
  the new values' texts are inputs.
- ConfigWriter.ReplaceScalar: its pattern is modelled for keys that do not start with white space, and
  for lines without terminators, which is all that `splitlines` yields.
- Listeners, timestamps in the transition history, and a boot or engage that straddles midnight.
- Throttling.EndpointBound: calls are taken one after another, and sleeps are exact; `Overlapping` has
  them overlap.  In both every bucket holds at least one token when full; with a smaller one no request
  ever leaves (`Bucket.AcquireEndsIff`).
- Rendering.RenderTextTwice: the generated lines and the budget are single lines, and the budget holds no
  `#`; a provenance text with a line break in it is not covered.
- SquareOff.NoPositionReverses: only our own market exits move positions; manual trades and the broker's
  own square-off do not occur.
- Builder.DailyLimitHolds: charges and slippage beyond the planned risk are excluded.
- RL environments, training scripts, root prototypes and `legacy_archive`.
