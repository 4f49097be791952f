/** What repeated square-off attempts do to the positions, when only our own exits move them and each
    of those fills partly and late.  The steps interleave freely: a fill may land between the read of
    the position book and the placement of any exit. */
module SquareOff {
  import opened Wire
  import opened Client
  import opened Executor
  import opened SquareOffPass
  import opened Options

  /** `book` holds the true net positions; `live[i]` is the signed quantity of row i's exit that is
      still to fill; `todo` is what is left of the pass: row numbers with the row as it was read. */
  datatype State = State(book: seq<PositionRow>, live: seq<int>, attempted: set<string>, todo: seq<(nat, PositionRow)>)

  datatype Step =
    | Read(order: seq<nat>)                    // a pass begins: the book is read, in this order
    | Next(answer: CallResult, acted: bool)    // the next row of the pass is handled
    | Fill(row: nat, quantity: int)            // part of a live exit fills

  ghost predicate Enabled(s: State, step: Step) {
    match step
    case Read(order) => forall k :: 0 <= k < |order| ==> order[k] < |s.book|
    case Next(answer, acted) => s.todo != [] && (answer.Ok? ==> acted) && (answer.Err? && !answer.kind.UnknownOutcome? ==> !acted)
    case Fill(row, quantity) => row < |s.live| == |s.book| && Within(quantity, s.live[row])
  }

  /** q lies between zero and n. */
  ghost predicate Within(q: int, n: int) { 0 <= q <= n || n <= q <= 0 }

  function Snapshot(book: seq<PositionRow>, order: seq<nat>): seq<(nat, PositionRow)>
    requires forall k :: 0 <= k < |order| ==> order[k] < |book|
  {
    if order == [] then []
    else (if book[order[0]].IsOpen() then [(order[0], book[order[0]])] else []) + Snapshot(book, order[1..])
  }

  function Apply(s: State, step: Step): State
    requires Enabled(s, step) && Shaped(s)
  {
    match step
    case Read(order) => s.(todo := Snapshot(s.book, order))
    case Next(answer, acted) =>
      var (i, row) := s.todo[0];
      if RowKey(row) in s.attempted then s.(todo := s.todo[1..])
      else s.(todo := s.todo[1..], attempted := AfterExit(s.attempted, RowKey(row), answer),
              live := if acted then s.live[i := s.live[i] + ExitFor(row).delta] else s.live)
    case Fill(i, quantity) =>
      s.(book := s.book[i := s.book[i].(net := s.book[i].net + quantity)], live := s.live[i := s.live[i] - quantity])
  }

  ghost predicate Shaped(s: State) {
    |s.live| == |s.book| && forall e <- s.todo :: e.0 < |s.book|
  }

  /** A row with a live exit is latched and the exit closes exactly what is left; a row that the pass
      may still exit is as it was read. */
  ghost predicate Inv(s: State) {
    && Shaped(s)
    && (forall i :: 0 <= i < |s.book| && s.live[i] != 0 ==>
          RowKey(s.book[i]) in s.attempted && s.book[i].net + s.live[i] == 0)
    && (forall e <- s.todo :: RowKey(e.1) == RowKey(s.book[e.0]) &&
          (RowKey(e.1) !in s.attempted ==> e.1 == s.book[e.0] && s.live[e.0] == 0))
  }

  lemma {:induction false} SnapshotIsCurrent(book: seq<PositionRow>, order: seq<nat>)
    requires forall k :: 0 <= k < |order| ==> order[k] < |book|
    ensures forall e <- Snapshot(book, order) :: e.0 < |book| && e.1 == book[e.0]
  {
    if order != [] {
      SnapshotIsCurrent(book, order[1..]);
    }
  }

  /** The rows are the same rows, and each net position is where it was or nearer to zero. */
  ghost predicate Shrunk(before: State, after: State) {
    && |before.book| == |after.book|
    && forall i :: 0 <= i < |before.book| ==>
         before.book[i].(net := after.book[i].net) == after.book[i] && Within(after.book[i].net, before.book[i].net)
  }

  lemma StepKeepsInv(s: State, step: Step)
    requires Inv(s) && Enabled(s, step)
    ensures Inv(Apply(s, step)) && Shrunk(s, Apply(s, step)) && s.attempted <= Apply(s, step).attempted
  {
    match step
    case Read(order) => SnapshotIsCurrent(s.book, order);
    case Next(answer, acted) => NextKeepsInv(s, answer, acted);
    case Fill(row, quantity) =>
  }

  lemma NextKeepsInv(s: State, answer: CallResult, acted: bool)
    requires Inv(s) && Enabled(s, Next(answer, acted))
    ensures Inv(Apply(s, Next(answer, acted)))
  {
    assert s.todo[0] in s.todo;
    assert forall e <- s.todo[1..] :: e in s.todo;
  }

  /** A run: any sequence of steps, each enabled where it happens. */
  ghost predicate Runs(s: State, steps: seq<Step>, t: State)
    decreases |steps|
  {
    if steps == [] then s == t
    else Shaped(s) && Enabled(s, steps[0]) && Runs(Apply(s, steps[0]), steps[1..], t)
  }

  /** Before the first attempt: nothing in flight. */
  ghost predicate Fresh(s: State) {
    |s.live| == |s.book| && s.todo == [] && forall n <- s.live :: n == 0
  }

  /** In any run, no net position changes sign or grows, and an exit that has filled completely
      leaves its row flat: what is left to fill is always exactly what is left open. */
  lemma {:induction false} NoPositionReverses(s: State, steps: seq<Step>, t: State)
    requires Inv(s) && Runs(s, steps, t)
    ensures Inv(t) && Shrunk(s, t)
    decreases |steps|
  {
    if steps != [] {
      StepKeepsInv(s, steps[0]);
      NoPositionReverses(Apply(s, steps[0]), steps[1..], t);
    }
  }

  lemma FreshIsSafe(s: State, steps: seq<Step>, t: State)
    requires Fresh(s) && Runs(s, steps, t)
    ensures Inv(t) && Shrunk(s, t)
  {
    assert Inv(s) by {
      forall i | 0 <= i < |s.live| ensures s.live[i] == 0 { assert s.live[i] in s.live; }
    }
    NoPositionReverses(s, steps, t);
  }

  /** Does this run, at this state, send an exit for row i that takes effect? */
  ghost predicate SendsExit(s: State, step: Step, i: nat) {
    step.Next? && s.todo != [] && s.todo[0].0 == i && RowKey(s.todo[0].1) !in s.attempted && step.acted
  }

  ghost function ExitsIn(s: State, steps: seq<Step>, i: nat): nat
    requires Inv(s)
    decreases |steps|
  {
    if steps == [] || !Enabled(s, steps[0]) then 0
    else
      StepKeepsInv(s, steps[0]);
      (if SendsExit(s, steps[0], i) then 1 else 0) + ExitsIn(Apply(s, steps[0]), steps[1..], i)
  }

  /** At most one exit per row takes effect in a whole run, and none once its key is latched. */
  lemma {:induction false} OneExitPerRow(s: State, steps: seq<Step>, t: State, i: nat)
    requires Inv(s) && Runs(s, steps, t) && i < |s.book|
    ensures ExitsIn(s, steps, i) <= if RowKey(s.book[i]) in s.attempted then 0 else 1
    decreases |steps|
  {
    if steps != [] {
      StepKeepsInv(s, steps[0]);
      OneExitPerRow(Apply(s, steps[0]), steps[1..], t, i);
      if s.todo != [] {
        assert s.todo[0] in s.todo;
      }
    }
  }

  /** A row whose exit took effect and has nothing left to fill is flat, and stays flat. */
  lemma {:induction false} FilledExitIsFlat(s: State, steps: seq<Step>, t: State, i: nat)
    requires Inv(s) && Runs(s, steps, t) && i < |s.book|
    ensures |t.book| == |t.live| == |s.book|
    ensures ExitsIn(s, steps, i) == 1 && t.live[i] == 0 ==> t.book[i].net == 0
    decreases |steps|
  {
    NoPositionReverses(s, steps, t);
    if steps != [] {
      StepKeepsInv(s, steps[0]);
      if SendsExit(s, steps[0], i) {
        assert s.todo[0] in s.todo;
        ClosesToZero(Apply(s, steps[0]), steps[1..], t, i);
      } else {
        FilledExitIsFlat(Apply(s, steps[0]), steps[1..], t, i);
      }
    }
  }

  /** Once what is open equals what is still to fill, it does so forever, as long as the row is latched. */
  lemma {:induction false} ClosesToZero(s: State, steps: seq<Step>, t: State, i: nat)
    requires Inv(s) && Runs(s, steps, t) && i < |s.book|
    requires s.book[i].net + s.live[i] == 0 && (RowKey(s.book[i]) in s.attempted || s.book[i].net == 0)
    ensures Inv(t) && |t.book| == |s.book| && t.book[i].net + t.live[i] == 0
    decreases |steps|
  {
    if steps != [] {
      StepKeepsInv(s, steps[0]);
      if s.todo != [] {
        assert s.todo[0] in s.todo;
      }
      ClosesToZero(Apply(s, steps[0]), steps[1..], t, i);
    }
  }

  // ---------- the executor's own passes ----------

  /** The step that the executor makes of an open row, given what the broker did. */
  ghost function NextOf(o: Office, p: Pass, row: PositionRow): Step {
    if RowKey(row) in p.desk.attempted then Next(Err(Plain), false)
    else
      var exit := ExitPlaced(o, p.desk, ExitFor(row));
      Next(exit.value, Orders(exit.sent) == 1)
  }

  /** The executor is where this state is: the same keys latched, the same open rows left. */
  ghost predicate Tracks(p: Pass, s: State, rest: seq<PositionRow>) {
    && p.raised.None? && p.desk.attempted == s.attempted && |s.todo| == |rest|
    && forall k :: 0 <= k < |rest| ==> s.todo[k].1 == rest[k] && rest[k].IsOpen()
  }

  /** One iteration of the executor's loop is one `Next`. */
  lemma IterationIsNext(o: Office, p: Pass, s: State, rest: seq<PositionRow>)
    requires o.setup.Fair() && o.setup.live && Shaped(s) && rest != [] && Tracks(p, s, rest)
    ensures var step, q := NextOf(o, p, rest[0]), ExitStep(o, p, rest[0]);
      && Enabled(s, step) && Tracks(q, Apply(s, step), rest[1..])
      && Orders(q.sent) == Orders(p.sent) + if SendsExit(s, step, s.todo[0].0) then 1 else 0
  {
    hide ExitPlaced, Orders;
    if RowKey(rest[0]) !in p.desk.attempted {
      ExitEffect(o, p.desk, ExitFor(rest[0]));
      OrdersConcat(p.sent, ExitPlaced(o, p.desk, ExitFor(rest[0])).sent);
    }
  }

  /** The client's answer tells the effect of an exit as far as `Next` requires. */
  lemma ExitEffect(o: Office, d: Desk, payload: Payload)
    requires o.setup.Fair() && o.setup.live && payload.Market?
    ensures var exit := ExitPlaced(o, d, payload);
      && Orders(exit.sent) <= 1
      && (exit.value.Ok? ==> Orders(exit.sent) == 1)
      && (exit.value.Err? && !exit.value.kind.UnknownOutcome? ==> Orders(exit.sent) == 0)
      && exit.value != Err(PaperRefused) && exit.desk.attempted == AfterExit(d.attempted, payload.key, exit.value)
  {
    OrderedIsCarried(o.setup, d.session, PlaceOrder, payload);
    hide Ordered, Own, Acted;
  }

  /** Such a pass can always be made: without fills it is one step a row. */
  lemma {:induction false} PassHappens(o: Office, p: Pass, rest: seq<PositionRow>, s: State) returns (steps: seq<Step>)
    requires o.setup.Fair() && o.setup.live && Inv(s) && Tracks(p, s, rest)
    ensures PassWithFills(o, p, rest, s, steps)
    decreases |rest|
  {
    hide ExitStep, NextOf;
    if rest == [] {
      steps := [];
    } else {
      IterationIsNext(o, p, s, rest);
      var step := NextOf(o, p, rest[0]);
      StepKeepsInv(s, step);
      var more := PassHappens(o, ExitStep(o, p, rest[0]), rest[1..], Apply(s, step));
      steps := [step] + more;
      assert steps[1..] == more;
      NextIsNotFill(o, p, rest[0]);
    }
  }

  lemma NextIsNotFill(o: Office, p: Pass, row: PositionRow)
    ensures NextOf(o, p, row).Next?
  {
  }

  /** A pass over `rest` from `p`, with fills of live exits landing anywhere in between. */
  ghost predicate PassWithFills(o: Office, p: Pass, rest: seq<PositionRow>, s: State, steps: seq<Step>)
    decreases |steps|
  {
    if steps == [] then rest == []
    else if steps[0].Fill? then Shaped(s) && Enabled(s, steps[0]) && PassWithFills(o, p, rest, Apply(s, steps[0]), steps[1..])
    else && Shaped(s) && rest != [] && steps[0] == NextOf(o, p, rest[0]) && Enabled(s, steps[0])
         && PassWithFills(o, ExitStep(o, p, rest[0]), rest[1..], Apply(s, steps[0]), steps[1..])
  }

  ghost function After(s: State, steps: seq<Step>): State
    decreases |steps|
  {
    if steps == [] || !Shaped(s) || !Enabled(s, steps[0]) then s else After(Apply(s, steps[0]), steps[1..])
  }

  /** Such a pass is a run, and leaves the executor and the state in step. */
  lemma {:induction false} PassIsARun(o: Office, p: Pass, rest: seq<PositionRow>, s: State, steps: seq<Step>)
    requires o.setup.Fair() && o.setup.live && Tracks(p, s, rest) && PassWithFills(o, p, rest, s, steps)
    ensures var t, q := After(s, steps), PassFront(o, p, rest);
      Runs(s, steps, t) && q.raised.None? && q.desk.attempted == t.attempted && t.todo == []
    decreases |steps|
  {
    hide ExitStep, NextOf;
    if steps != [] {
      if steps[0].Fill? {
        PassIsARun(o, p, rest, Apply(s, steps[0]), steps[1..]);
      } else {
        IterationIsNext(o, p, s, rest);
        PassIsARun(o, ExitStep(o, p, rest[0]), rest[1..], Apply(s, steps[0]), steps[1..]);
      }
    }
  }

  /** The loop's passes, taken from the front. */
  function PassFront(o: Office, p: Pass, rest: seq<PositionRow>): Pass
    decreases |rest|
  {
    if rest == [] then p else PassFront(o, ExitStep(o, p, rest[0]), rest[1..])
  }

  lemma {:induction false} PassFrontSnoc(o: Office, p: Pass, init: seq<PositionRow>, row: PositionRow)
    ensures PassFront(o, p, init + [row]) == ExitStep(o, PassFront(o, p, init), row)
    decreases |init|
  {
    hide ExitStep;
    if init == [] {
      assert [] + [row] == [row] && [row][1..] == [];
      assert PassFront(o, p, [row]) == PassFront(o, ExitStep(o, p, row), []);
    } else {
      assert (init + [row])[0] == init[0] && (init + [row])[1..] == init[1..] + [row];
      PassFrontSnoc(o, ExitStep(o, p, init[0]), init[1..], row);
    }
  }

  /** Closed rows are passed over, so a pass over a book is one over its open rows. */
  lemma {:induction false} PassOverOpenRows(o: Office, p: Pass, rows: seq<PositionRow>)
    ensures Executor.Exits(o, p, rows) == PassFront(o, p, OpenRows(rows))
  {
    if rows != [] {
      var init, row := rows[..|rows| - 1], rows[|rows| - 1];
      PassOverOpenRows(o, p, init);
      if row.IsOpen() {
        PassFrontSnoc(o, p, OpenRows(init), row);
      } else {
        assert OpenRows(init) + [] == OpenRows(init);
      }
    }
  }

  /** The rows of the book in the order the broker lists them. */
  function Listed(book: seq<PositionRow>, order: seq<nat>): seq<PositionRow>
    requires forall k :: 0 <= k < |order| ==> order[k] < |book|
  {
    seq(|order|, k requires 0 <= k < |order| => book[order[k]])
  }

  lemma {:induction false} SnapshotIsOpenRows(book: seq<PositionRow>, order: seq<nat>)
    requires forall k :: 0 <= k < |order| ==> order[k] < |book|
    ensures var todo, rows := Snapshot(book, order), OpenRows(Listed(book, order));
      |todo| == |rows| && forall k :: 0 <= k < |rows| ==> todo[k].1 == rows[k] && rows[k].IsOpen()
  {
    if order != [] {
      SnapshotIsOpenRows(book, order[1..]);
      assert Listed(book, order) == [book[order[0]]] + Listed(book, order[1..]);
      OpenRowsCons(book[order[0]], Listed(book, order[1..]));
    }
  }

  lemma {:induction false} OpenRowsCons(row: PositionRow, rows: seq<PositionRow>)
    ensures OpenRows([row] + rows) == (if row.IsOpen() then [row] else []) + OpenRows(rows)
  {
    if rows == [] {
      assert [row] + rows == [row] && [row][..0] == [];
    } else {
      var init, last := rows[..|rows| - 1], rows[|rows| - 1];
      assert ([row] + rows)[..|[row] + rows| - 1] == [row] + init;
      OpenRowsCons(row, init);
    }
  }

  /** A square-off attempt on the executor: it reads the true book, in whatever order the broker lists it,
      and makes its pass while earlier and present exits fill as they may.  Whatever the broker answers, no
      net position changes sign or grows, live exits keep matching what is open, and the keys latched are
      the executor's own. */
  lemma AttemptNeverReverses(o: Office, d: Desk, s: State, order: seq<nat>, steps: seq<Step>)
    requires o.setup.Fair() && o.setup.live && Inv(s) && d.attempted == s.attempted
    requires Enabled(s, Read(order)) && BookRead(o, d) == Rows(Listed(s.book, order))
    requires PassWithFills(o, Began(d, PositionRead(o, d), None), OpenRows(Listed(s.book, order)), Apply(s, Read(order)), steps)
    ensures var t := After(s, [Read(order)] + steps);
      Runs(s, [Read(order)] + steps, t) && Inv(t) && Shrunk(s, t) && OpenExited(o, d).desk.attempted == t.attempted
  {
    var p, rows, s1 := Began(d, PositionRead(o, d), None), Listed(s.book, order), Apply(s, Read(order));
    SnapshotIsOpenRows(s.book, order);
    PassIsARun(o, p, OpenRows(rows), s1, steps);
    PassOverOpenRows(o, p, rows);
    assert ([Read(order)] + steps)[1..] == steps;
    hide FullCall, PassFront, PassWithFills, Inv, Shrunk;
    NoPositionReverses(s, [Read(order)] + steps, After(s, [Read(order)] + steps));
  }
}
