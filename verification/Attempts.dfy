/** Square-off attempts, one after another, on the true book: whole attempts of the executor are runs of
    the square-off machine, and so is any sequence of them. */
module Attempts {
  import opened Options
  import opened Wire
  import opened Client
  import opened Executor
  import opened SquareOffPass
  import opened SquareOff

  /** Fills of live exits, and nothing else. */
  ghost predicate OnlyFills(s: State, steps: seq<Step>)
    decreases |steps|
  {
    steps == []
    || (steps[0].Fill? && Shaped(s) && Enabled(s, steps[0]) && OnlyFills(Apply(s, steps[0]), steps[1..]))
  }

  /** What happens during one attempt: fills while orders are cancelled; if the positions could be read, in
      this order, the pass with its fills; fills while both books are read again. */
  datatype Attempt = Attempt(before: seq<Step>, order: Option<seq<nat>>, pass: seq<Step>, after: seq<Step>) {
    function Passed(): seq<Step> { if order.Some? then [Read(order.value)] + pass else [] }

    function Steps(): seq<Step> { before + Passed() + after }
  }

  /** The attempt that the executor makes from this desk, on a broker that shows the true book. */
  ghost predicate Made(o: Office, d: Desk, s: State, a: Attempt) {
    var c, s1 := WorkingCancelled(o, d), After(s, a.before);
    && OnlyFills(s, a.before)
    && (if c.raised.Some? || BookRead(o, c.desk).NoRows? then a.order.None?
        else a.order.Some? && PassMade(o, c.desk, s1, a.order.value, a.pass))
    && OnlyFills(After(s1, a.Passed()), a.after)
  }

  ghost predicate PassMade(o: Office, d: Desk, s: State, order: seq<nat>, pass: seq<Step>) {
    && Shaped(s) && Enabled(s, Read(order)) && BookRead(o, d) == Rows(Listed(s.book, order))
    && PassWithFills(o, Began(d, PositionRead(o, d), None), OpenRows(Listed(s.book, order)), Apply(s, Read(order)), pass)
  }

  lemma {:induction false} FillsAreARun(s: State, steps: seq<Step>)
    requires OnlyFills(s, steps)
    ensures Runs(s, steps, After(s, steps)) && After(s, steps).attempted == s.attempted
    decreases |steps|
  {
    if steps != [] {
      FillsAreARun(Apply(s, steps[0]), steps[1..]);
    }
  }

  lemma {:induction false} RunsJoin(s: State, a: seq<Step>, t: State, b: seq<Step>, u: State)
    requires Runs(s, a, t) && Runs(t, b, u)
    ensures Runs(s, a + b, u)
    decreases |a|
  {
    if a == [] {
      assert a + b == b;
    } else {
      assert (a + b)[0] == a[0] && (a + b)[1..] == a[1..] + b;
      RunsJoin(Apply(s, a[0]), a[1..], t, b, u);
    }
  }

  /** Where an attempt ends. */
  ghost function EndOf(s: State, a: Attempt): State { After(After(After(s, a.before), a.Passed()), a.after) }

  lemma PassKeeps(o: Office, d: Desk, s: State, order: seq<nat>, pass: seq<Step>)
    requires o.setup.Fair() && o.setup.live && Inv(s) && d.attempted == s.attempted && PassMade(o, d, s, order, pass)
    ensures var t := After(s, [Read(order)] + pass);
      Runs(s, [Read(order)] + pass, t) && OpenExited(o, d).desk.attempted == t.attempted
  {
    hide FullCall, PassWithFills, Inv, Shrunk, Exits;
    AttemptNeverReverses(o, d, s, order, pass);
  }

  /** What an attempt latches, it latches while it exits. */
  lemma FlattenedLatches(o: Office, d: Desk)
    requires o.live
    ensures var c := WorkingCancelled(o, d);
      Flattened(o, d).desk.attempted == if c.raised.Some? then c.desk.attempted else OpenExited(o, c.desk).desk.attempted
  {
    hide FullCall, WorkingCancelled, OpenExited, ReRead;
    var c := WorkingCancelled(o, d);
    var e := OpenExited(o, c.desk);
    ReReadKeeps(o, e.desk, c.done, e.done, c.failures + e.failures);
  }

  /** The exiting part of an attempt, if there is one. */
  lemma ExitPart(o: Office, c: Pass, s: State, a: Attempt)
    requires o.setup.Fair() && o.setup.live && Inv(s) && c.desk.attempted == s.attempted
    requires if c.raised.Some? || BookRead(o, c.desk).NoRows? then a.order.None?
             else a.order.Some? && PassMade(o, c.desk, s, a.order.value, a.pass)
    ensures var t := After(s, a.Passed());
      && Runs(s, a.Passed(), t)
      && (if c.raised.Some? then c.desk.attempted else OpenExited(o, c.desk).desk.attempted) == t.attempted
  {
    hide FullCall, OpenExited, PassMade, Inv, Runs, LatestAnswer;
    if a.order.Some? {
      PassKeeps(o, c.desk, s, a.order.value, a.pass);
    } else {
      NothingRuns(s);
      var more := ExitingPass(o, c.desk, []);
    }
  }

  /** An attempt is a run of the machine, and it latches the keys that the executor latches. */
  lemma AttemptIsARun(o: Office, d: Desk, s: State, a: Attempt)
    requires o.setup.Fair() && o.setup.live && o.live && Inv(s) && d.attempted == s.attempted && Made(o, d, s, a)
    ensures Runs(s, a.Steps(), EndOf(s, a)) && Flattened(o, d).desk.attempted == EndOf(s, a).attempted
  {
    hide FullCall, WorkingCancelled, OpenExited, Flattened, PassMade, Inv, Shrunk, OnlyFills, Runs, After, BookRead,
         Attempt.Passed, LatestAnswer;
    var s1 := After(s, a.before);
    var s2 := After(s1, a.Passed());
    CancellingPass(o, d);
    FillsAreARun(s, a.before);
    NoPositionReverses(s, a.before, s1);
    ExitPart(o, WorkingCancelled(o, d), s1, a);
    FillsAreARun(s2, a.after);
    RunsJoin(s, a.before, s1, a.Passed(), s2);
    RunsJoin(s, a.before + a.Passed(), s2, a.after, EndOf(s, a));
    FlattenedLatches(o, d);
  }

  lemma NothingRuns(s: State)
    ensures Runs(s, [], s) && After(s, []) == s
  {
  }

  lemma ReReadKeeps(o: Office, d: Desk, cancelled: nat, exits: nat, failures: nat)
    ensures ReRead(o, d, cancelled, exits, failures).desk.attempted == d.attempted
  {
    hide FullCall;
  }

  // ---------- one attempt after another ----------

  /** The desk after these attempts. */
  function DeskAfter(o: Office, d: Desk, n: nat): Desk
    decreases n
  {
    if n == 0 then d else DeskAfter(o, Flattened(o, d).desk, n - 1)
  }

  ghost predicate AllMade(o: Office, d: Desk, s: State, attempts: seq<Attempt>)
    decreases |attempts|
  {
    attempts == []
    || (Made(o, d, s, attempts[0]) && AllMade(o, Flattened(o, d).desk, EndOf(s, attempts[0]), attempts[1..]))
  }

  function AllSteps(attempts: seq<Attempt>): seq<Step> {
    if attempts == [] then [] else attempts[0].Steps() + AllSteps(attempts[1..])
  }

  ghost function EndOfAll(s: State, attempts: seq<Attempt>): State
    decreases |attempts|
  {
    if attempts == [] then s else EndOfAll(EndOf(s, attempts[0]), attempts[1..])
  }

  lemma {:induction false} AttemptsAreARun(o: Office, d: Desk, s: State, attempts: seq<Attempt>)
    requires o.setup.Fair() && o.setup.live && o.live && Inv(s) && d.attempted == s.attempted
    requires AllMade(o, d, s, attempts)
    ensures Runs(s, AllSteps(attempts), EndOfAll(s, attempts))
    ensures DeskAfter(o, d, |attempts|).attempted == EndOfAll(s, attempts).attempted
    decreases |attempts|
  {
    hide Flattened, Made, Inv, Shrunk, Runs, EndOf;
    if attempts == [] {
      NothingRuns(s);
    } else {
      var a, rest := attempts[0], attempts[1..];
      var next := EndOf(s, a);
      AttemptIsARun(o, d, s, a);
      NoPositionReverses(s, a.Steps(), next);
      AttemptsAreARun(o, Flattened(o, d).desk, next, rest);
      RunsJoin(s, a.Steps(), next, AllSteps(rest), EndOfAll(next, rest));
    }
  }

  /** Over any number of square-off attempts on the true book, whatever the broker answers and whenever its
      fills land: from the first book to the last no net position changes sign or grows, at most one exit of
      each row takes effect, live exits keep matching what is open, and the keys latched are the executor's
      own. */
  lemma SquareOffNeverReverses(o: Office, d: Desk, s: State, attempts: seq<Attempt>)
    requires o.setup.Fair() && o.setup.live && o.live && Inv(s) && d.attempted == s.attempted
    requires AllMade(o, d, s, attempts)
    ensures var t := EndOfAll(s, attempts);
      && Runs(s, AllSteps(attempts), t) && Inv(t) && Shrunk(s, t)
      && DeskAfter(o, d, |attempts|).attempted == t.attempted
      && forall i :: 0 <= i < |s.book| ==> ExitsIn(s, AllSteps(attempts), i) <= 1
  {
    hide AllMade, Inv, Shrunk, Runs, ExitsIn, EndOfAll, DeskAfter, AllSteps;
    var t := EndOfAll(s, attempts);
    AttemptsAreARun(o, d, s, attempts);
    NoPositionReverses(s, AllSteps(attempts), t);
    forall i | 0 <= i < |s.book|
      ensures ExitsIn(s, AllSteps(attempts), i) <= 1
    {
      OneExitPerRow(s, AllSteps(attempts), t, i);
    }
  }

  /** An attempt can always be made: the passes raise on their own, or the true book is shown in some order
      and every open row of it is handled. */
  lemma AttemptHappens(o: Office, d: Desk, s: State, order: seq<nat>) returns (a: Attempt)
    requires o.setup.Fair() && o.setup.live && o.live && Inv(s) && d.attempted == s.attempted
    requires var c := WorkingCancelled(o, d);
      c.raised.Some? || BookRead(o, c.desk).NoRows?
      || (Enabled(s, Read(order)) && BookRead(o, c.desk) == Rows(Listed(s.book, order)))
    ensures Made(o, d, s, a)
  {
    hide FullCall, WorkingCancelled, Inv, PassWithFills, LatestAnswer, Listed, OpenRows;
    var c := WorkingCancelled(o, d);
    NothingRuns(s);
    if c.raised.Some? || BookRead(o, c.desk).NoRows? {
      a := Attempt([], None, [], []);
      NothingFills(s);
    } else {
      CancellingPass(o, d);
      var pass := APass(o, c.desk, s, order);
      a := Attempt([], Some(order), pass, []);
      NothingFills(s);
      NothingFills(After(s, a.Passed()));
    }
  }

  lemma NothingFills(s: State)
    ensures OnlyFills(s, [])
  {
  }

  lemma APass(o: Office, d: Desk, s: State, order: seq<nat>) returns (pass: seq<Step>)
    requires o.setup.Fair() && o.setup.live && Inv(s) && d.attempted == s.attempted
    requires Enabled(s, Read(order)) && BookRead(o, d) == Rows(Listed(s.book, order))
    ensures PassMade(o, d, s, order, pass)
  {
    StepKeepsInv(s, Read(order));
    SnapshotIsOpenRows(s.book, order);
    hide FullCall, PassWithFills, Listed, OpenRows;
    pass := PassHappens(o, Began(d, PositionRead(o, d), None), OpenRows(Listed(s.book, order)), Apply(s, Read(order)));
  }
}
