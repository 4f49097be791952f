/** The session state machine and the daily lock: which runs they allow, and what holds once either
    has locked.  Threads and processes are interleavings of atomic steps; a step is one critical
    section, or one access to the file system. */
module States {

  // ---------- the state machine ----------

  datatype State = Booting | PreMarket | Active | NoNewEntries | SquaringOff | SquaredOff | Locked

  function Targets(s: State): set<State> {
    match s
    case Booting => {PreMarket, Active, NoNewEntries, SquaringOff, SquaredOff, Locked}
    case PreMarket => {Active, SquaringOff, SquaredOff, Locked}
    case Active => {NoNewEntries, SquaringOff, Locked}
    case NoNewEntries => {SquaringOff, Locked}
    case SquaringOff => {SquaredOff, Locked}
    case SquaredOff => {Locked}
    case Locked => {}
  }

  /** Position in the session. */
  function Rank(s: State): (r: nat)
    ensures r <= 6 && (r == 6 <==> s == Locked)
  {
    match s
    case Booting => 0
    case PreMarket => 1
    case Active => 2
    case NoNewEntries => 3
    case SquaringOff => 4
    case SquaredOff => 5
    case Locked => 6
  }

  datatype Transition = Transition(from: State, to: State, reason: string)

  datatype Machine = Machine(state: State, history: seq<Transition>)

  datatype Outcome = Moved(t: Transition) | AlreadyLocked | Illegal

  /** One critical section of `transition_to`. */
  function Try(m: Machine, target: State, reason: string): (Machine, Outcome) {
    if target in Targets(m.state) then
      var t := Transition(m.state, target, reason);
      (Machine(target, m.history + [t]), Moved(t))
    else (m, Illegal)
  }

  /** The history leads from `initial` to the current state through legal moves. */
  ghost predicate Chain(initial: State, m: Machine)
    decreases |m.history|
  {
    if m.history == [] then m.state == initial
    else
      var last := m.history[|m.history| - 1];
      last.to == m.state && last.to in Targets(last.from)
      && Chain(initial, Machine(last.from, m.history[..|m.history| - 1]))
  }

  /** Which moves are made: none out of LOCKED; to LOCKED from any other state; from BOOTING to any other;
      and besides these, from PRE_MARKET to ACTIVE or straight to the square-off and its end, from ACTIVE
      to the end of entries or the square-off, and from there one by one. */
  lemma MovesIff(m: Machine, target: State, reason: string)
    ensures Try(m, target, reason).1.Moved? <==>
              m.state != Locked && target != Booting
              && (|| target == Locked || m.state == Booting
                  || (m.state == PreMarket && target in {Active, SquaringOff, SquaredOff})
                  || (m.state == Active && target in {NoNewEntries, SquaringOff})
                  || (m.state == NoNewEntries && target == SquaringOff)
                  || (m.state == SquaringOff && target == SquaredOff))
    ensures Try(m, target, reason) == if Try(m, target, reason).1.Moved?
              then (Machine(target, m.history + [Transition(m.state, target, reason)]), Moved(Transition(m.state, target, reason)))
              else (m, Illegal)
  {
  }

  class StateMachine {
    ghost const initial: State
    var state: State
    var history: seq<Transition>

    ghost predicate Valid() reads this { Chain(initial, View()) }

    function View(): Machine reads this { Machine(state, history) }

    constructor (start: State)
      ensures Valid() && initial == start && View() == Machine(start, [])
    {
      initial, state, history := start, start, [];
    }

    method TransitionTo(target: State, reason: string) returns (r: Outcome)
      requires Valid()
      modifies this
      ensures Valid() && (View(), r) == Try(old(View()), target, reason)
    {
      var current := state;
      if target !in Targets(current) {
        return Illegal;
      }
      var t := Transition(current, target, reason);
      state := target;
      history := history + [t];
      assert history[..|history| - 1] == old(history);
      r := Moved(t);
    }

    /** Undisturbed, it never raises and always ends locked. */
    method LockOut(reason: string) returns (r: Outcome)
      requires Valid()
      modifies this
      ensures Valid() && state == Locked && !r.Illegal?
      ensures if old(state) == Locked then View() == old(View()) && r == AlreadyLocked
              else (View(), r) == Try(old(View()), Locked, reason)
    {
      if state == Locked {
        return AlreadyLocked;
      }
      r := TransitionTo(Locked, reason);
    }
  }

  /** A chain advances strictly: no state is ever entered twice, and at most six moves are made. */
  lemma {:induction false} ChainAdvances(initial: State, m: Machine)
    requires Chain(initial, m)
    ensures forall i, j :: 0 <= i < j < |m.history| ==> Rank(m.history[i].to) < Rank(m.history[j].to)
    ensures forall i :: 0 <= i < |m.history| ==> Rank(initial) < Rank(m.history[i].to) <= Rank(m.state)
    ensures Rank(initial) + |m.history| <= Rank(m.state)
    decreases |m.history|
  {
    if m.history != [] {
      var n := |m.history| - 1;
      var last := m.history[n];
      var before := Machine(last.from, m.history[..n]);
      ChainAdvances(initial, before);
      assert Rank(last.from) < Rank(last.to);
      assert forall i :: 0 <= i < n ==> m.history[i] == before.history[i];
    }
  }

  // ---------- interleaved callers ----------

  /** `Move` is a whole `transition_to`; `lock_out` is `Test` and, unless that returned, `Force`. */
  datatype Step =
    | Move(thread: nat, target: State, reason: string)
    | Test(thread: nat)
    | Force(thread: nat, reason: string)

  /** `between` holds the threads that are between the two critical sections of a `lock_out`. */
  datatype World = World(machine: Machine, between: set<nat>)

  predicate CanStep(w: World, s: Step) { s.Force? <==> s.thread in w.between }

  function Next(w: World, s: Step): World {
    match s
    case Move(_, target, reason) => w.(machine := Try(w.machine, target, reason).0)
    case Test(thread) => if w.machine.state == Locked then w else w.(between := w.between + {thread})
    case Force(thread, reason) => World(Try(w.machine, Locked, reason).0, w.between - {thread})
  }

  function Result(w: World, s: Step): Outcome {
    match s
    case Move(_, target, reason) => Try(w.machine, target, reason).1
    case Test(_) => AlreadyLocked
    case Force(_, reason) => Try(w.machine, Locked, reason).1
  }

  /** The step that ends a call of `lock_out`. */
  predicate EndsLockOut(w: World, s: Step) { s.Force? || (s.Test? && w.machine.state == Locked) }

  ghost predicate IsRun(w: World, steps: seq<Step>)
    decreases |steps|
  {
    steps == [] || (CanStep(w, steps[0]) && IsRun(Next(w, steps[0]), steps[1..]))
  }

  function After(w: World, steps: seq<Step>): World
    decreases |steps|
  {
    if steps == [] then w else After(Next(w, steps[0]), steps[1..])
  }

  /** Undisturbed, the two steps of a `lock_out` do what the method does: on a locked machine the test ends
      it and nothing changes; otherwise the force ends it, with one more move to LOCKED in the history. */
  lemma LoneLockOut(w: World, thread: nat, reason: string)
    requires thread !in w.between
    ensures CanStep(w, Test(thread)) && (EndsLockOut(w, Test(thread)) <==> w.machine.state == Locked)
    ensures w.machine.state == Locked ==> Next(w, Test(thread)) == w && Result(w, Test(thread)) == AlreadyLocked
    ensures w.machine.state != Locked ==>
      var tested, force, moved := Next(w, Test(thread)), Force(thread, reason), Transition(w.machine.state, Locked, reason);
      && tested.machine == w.machine && CanStep(tested, force) && EndsLockOut(tested, force)
      && Result(tested, force) == Moved(moved)
      && Next(tested, force) == World(Machine(Locked, w.machine.history + [moved]), w.between)
  {
    if w.machine.state != Locked {
      assert Locked in Targets(w.machine.state);
      assert w.between + {thread} - {thread} == w.between;
    }
  }

  lemma TryKeepsChain(initial: State, m: Machine, target: State, reason: string)
    requires Chain(initial, m)
    ensures Chain(initial, Try(m, target, reason).0)
  {
    var next := Try(m, target, reason).0;
    if target in Targets(m.state) {
      assert next.history[..|next.history| - 1] == m.history;
      assert m == Machine(m.state, m.history);
    }
  }

  /** Whatever the interleaving, the history is a legal chain, hence strictly advancing. */
  lemma {:induction false} EveryRunIsAChain(initial: State, w: World, steps: seq<Step>)
    requires Chain(initial, w.machine)
    ensures Chain(initial, After(w, steps).machine)
    decreases |steps|
  {
    if steps != [] {
      var s := steps[0];
      if s.Move? {
        TryKeepsChain(initial, w.machine, s.target, s.reason);
      } else if s.Force? {
        TryKeepsChain(initial, w.machine, Locked, s.reason);
      }
      EveryRunIsAChain(initial, Next(w, s), steps[1..]);
    }
  }

  /** Once locked, no step of any thread changes the state or the history again. */
  lemma {:induction false} LockedForGood(w: World, steps: seq<Step>)
    requires w.machine.state == Locked
    ensures After(w, steps).machine == w.machine
    decreases |steps|
  {
    if steps != [] {
      LockedForGood(Next(w, steps[0]), steps[1..]);
    }
  }

  /** When a `lock_out` ends, by returning or by raising, the machine is locked, and stays so. */
  lemma LockedOnceLockOutEnds(w: World, s: Step, later: seq<Step>)
    requires CanStep(w, s) && EndsLockOut(w, s)
    ensures Next(w, s).machine.state == Locked
    ensures After(Next(w, s), later).machine == Next(w, s).machine
  {
    assert w.machine.state != Locked ==> Locked in Targets(w.machine.state);
    LockedForGood(Next(w, s), later);
  }

  /** Step `k` of the run is the one that locks the machine. */
  ghost predicate LocksAt(w: World, steps: seq<Step>, k: nat)
    requires k < |steps|
  {
    After(w, steps[..k]).machine.state != Locked && After(w, steps[..k + 1]).machine.state == Locked
  }

  lemma {:induction false} LockingStep(w: World, steps: seq<Step>, n: nat)
    requires n <= |steps| && w.machine.state != Locked
    ensures After(w, steps[..n]).machine.state == Locked <==> exists k :: 0 <= k < n && LocksAt(w, steps, k)
  {
    if n > 0 {
      LockingStep(w, steps, n - 1);
      assert steps[..n] == steps[..n - 1] + [steps[n - 1]];
      AfterConcat(w, steps[..n - 1], [steps[n - 1]]);
      hide After, Next;
      if After(w, steps[..n - 1]).machine.state == Locked {
        LockedForGood(After(w, steps[..n - 1]), [steps[n - 1]]);
      } else if After(w, steps[..n]).machine.state == Locked {
        assert LocksAt(w, steps, n - 1);
      }
    }
  }

  lemma {:induction false} AfterConcat(w: World, a: seq<Step>, b: seq<Step>)
    ensures After(w, a + b) == After(After(w, a), b)
    decreases |a|
  {
    if a == [] {
      assert a + b == b;
    } else {
      AfterConcat(Next(w, a[0]), a[1..], b);
      assert (a + b)[0] == a[0] && (a + b)[1..] == a[1..] + b;
    }
  }

  lemma ForceRaisesIff(m: Machine, reason: string)
    ensures Try(m, Locked, reason).1 == Illegal <==> m.state == Locked
  {
  }

  /** A `lock_out` that found the machine unlocked raises exactly when some step between its two
      critical sections locked it. */
  lemma RaisesIffRaced(w: World, thread: nat, reason: string, others: seq<Step>)
    requires w.machine.state != Locked
    ensures Result(After(Next(w, Test(thread)), others), Force(thread, reason)) == Illegal
            <==> exists k :: 0 <= k < |others| && LocksAt(Next(w, Test(thread)), others, k)
  {
    var tested := Next(w, Test(thread));
    assert tested.machine == w.machine;
    ForceRaisesIff(After(tested, others).machine, reason);
    hide After, Next, LocksAt, Try;
    LockingStep(tested, others, |others|);
    assert others[..|others|] == others;
  }

  /** So it can: two `lock_out` calls that both test before either forces. */
  lemma ARacedLockOutRaises()
    ensures var w := World(Machine(Active, []), {}); var steps := [Test(0), Test(1), Force(0, "limit")];
      IsRun(w, steps + [Force(1, "limit")]) && Result(After(w, steps), Force(1, "limit")) == Illegal
  {
    var w := World(Machine(Active, []), {});
    var w1 := Next(w, Test(0));
    var w2 := Next(w1, Test(1));
    var w3 := Next(w2, Force(0, "limit"));
    var steps := [Test(0), Test(1), Force(0, "limit")];
    assert steps[1..] == [Test(1), Force(0, "limit")] && steps[1..][1..] == [Force(0, "limit")];
    assert After(w, steps) == After(w1, [Test(1), Force(0, "limit")]) == After(w2, [Force(0, "limit")]) == After(w3, []) == w3;
    var all := steps + [Force(1, "limit")];
    assert all[1..] == [Test(1), Force(0, "limit"), Force(1, "limit")];
    assert all[1..][1..] == [Force(0, "limit"), Force(1, "limit")];
    assert all[1..][1..][1..] == [Force(1, "limit")] && all[1..][1..][1..][1..] == [];
    assert IsRun(w3, [Force(1, "limit")]);
    assert IsRun(w2, [Force(0, "limit"), Force(1, "limit")]);
    assert IsRun(w1, [Test(1), Force(0, "limit"), Force(1, "limit")]);
  }

  // ---------- the daily lock ----------

  /** What the first line of the lock file says. */
  datatype File = NoFile | Dated(day: int) | Garbled

  datatype LockStatus = NoLock | Engaged | Stale | Unreadable

  /** `readable` is false when the file system refuses the read. */
  function StatusOf(file: File, readable: bool, today: int): LockStatus {
    match file
    case NoFile => NoLock
    case Garbled => Unreadable
    case Dated(day) => if !readable then Unreadable else if day == today then Engaged else Stale
  }

  predicate IsEngaged(file: File, readable: bool, today: int) {
    StatusOf(file, readable, today).Engaged? || StatusOf(file, readable, today).Unreadable?
  }

  /** The lock fails safe: a boot is let through only when the file is absent or names another day. */
  lemma FailsSafe(file: File, readable: bool, today: int)
    ensures IsEngaged(file, readable, today) <==> !(file.NoFile? || (readable && file.Dated? && file.day != today))
  {
  }

  /** Seconds since midnight. */
  function Clock(hours: nat, minutes: nat): nat { 3600 * hours + 60 * minutes }

  function ResolveBootState(file: File, readable: bool, today: int, now: nat): State {
    if IsEngaged(file, readable, today) then Locked
    else if now < Clock(9, 15) then PreMarket
    else if now < Clock(15, 0) then Active
    else if now < Clock(15, 15) then NoNewEntries
    else if now < Clock(15, 30) then SquaringOff
    else SquaredOff
  }

  /** Boot: construct in BOOTING and move at once; the move is always legal. */
  method Boot(file: File, readable: bool, today: int, now: nat) returns (m: StateMachine)
    ensures fresh(m) && m.Valid() && m.initial == Booting
    ensures m.state == ResolveBootState(file, readable, today, now) && |m.history| == 1
    ensures m.state == Locked <==> IsEngaged(file, readable, today)
  {
    m := new StateMachine(Booting);
    var r := m.TransitionTo(ResolveBootState(file, readable, today, now), "boot resolution");
  }

  /** With the same lock, a later boot of the day never lands in an earlier state, and entries are
      possible only from 09:15 to 15:00. */
  lemma BootsAdvance(file: File, readable: bool, today: int, early: nat, late: nat)
    requires early <= late
    ensures Rank(ResolveBootState(file, readable, today, early)) <= Rank(ResolveBootState(file, readable, today, late))
    ensures ResolveBootState(file, readable, today, late) == Active
            <==> !IsEngaged(file, readable, today) && Clock(9, 15) <= late < Clock(15, 0)
  {
    hide IsEngaged;
  }

  /** Where a boot lands: LOCKED for a lock that is garbled, unreadable or of today, and otherwise by the
      clock, which changes the state at 09:15, 15:00, 15:15 and 15:30. */
  lemma BootStateIs(file: File, readable: bool, today: int, now: nat)
    ensures var s := ResolveBootState(file, readable, today, now);
      var locked := file.Garbled? || (file.Dated? && (!readable || file.day == today));
      && (s == Locked <==> locked)
      && (s == PreMarket <==> !locked && now < 9 * 3600 + 15 * 60)
      && (s == Active <==> !locked && 9 * 3600 + 15 * 60 <= now < 15 * 3600)
      && (s == NoNewEntries <==> !locked && 15 * 3600 <= now < 15 * 3600 + 15 * 60)
      && (s == SquaringOff <==> !locked && 15 * 3600 + 15 * 60 <= now < 15 * 3600 + 30 * 60)
      && (s == SquaredOff <==> !locked && 15 * 3600 + 30 * 60 <= now)
  {
  }

  // ---------- engaging the lock, step by step ----------

  /** Where a call of `engage` stands. */
  datatype Stage = Idle | MustArchive | MustWrite | Writing | MustReplace

  /** The lock file and the one temporary file that all callers share. */
  datatype Disk = Disk(file: File, temp: File, stages: map<nat, Stage>)

  datatype Destination = Temp | Lock | Nowhere

  /** One access by one caller.  An archive the file system refuses is skipped; the bytes of a fill land
      where the open file is by then, if another caller has moved it. */
  datatype Access =
    | Check(caller: nat, readable: bool)
    | Archive(caller: nat, moved: bool)
    | Truncate(caller: nat)
    | Fill(caller: nat, lands: Destination)
    | Replace(caller: nat)

  function StageOf(d: Disk, caller: nat): Stage { if caller in d.stages then d.stages[caller] else Idle }

  predicate CanAccess(d: Disk, a: Access) {
    match StageOf(d, a.caller)
    case Idle => a.Check?
    case MustArchive => a.Archive?
    case MustWrite => a.Truncate?
    case Writing => a.Fill?
    case MustReplace => a.Replace?
  }

  /** One access on day `today`. */
  function Accessed(d: Disk, a: Access, today: int): Disk {
    match a
    case Check(c, readable) =>
      d.(stages := d.stages[c := if StatusOf(d.file, readable, today).Stale? then MustArchive else MustWrite])
    case Archive(c, moved) =>
      d.(file := if moved then NoFile else d.file, stages := d.stages[c := MustWrite])
    case Truncate(c) => d.(temp := Garbled, stages := d.stages[c := Writing])
    case Fill(c, lands) =>
      Disk(if lands.Lock? then Dated(today) else d.file, if lands.Temp? then Dated(today) else d.temp,
           d.stages[c := MustReplace])
    case Replace(c) =>
      if d.temp.NoFile? then d.(stages := d.stages[c := Idle])
      else Disk(d.temp, NoFile, d.stages[c := Idle])
  }

  ghost predicate IsDay(d: Disk, day: seq<Access>, today: int)
    decreases |day|
  {
    day == [] || (CanAccess(d, day[0]) && IsDay(Accessed(d, day[0], today), day[1..], today))
  }

  function Through(d: Disk, day: seq<Access>, today: int): Disk
    decreases |day|
  {
    if day == [] then d else Through(Accessed(d, day[0], today), day[1..], today)
  }

  predicate IsLocked(f: File, today: int) { f.Garbled? || f == Dated(today) }

  /** Between a write and its replace the temporary file never names another day. */
  ghost predicate TempIsFresh(d: Disk, today: int) {
    forall c :: StageOf(d, c).Writing? || StageOf(d, c).MustReplace? ==> !d.temp.Dated? || d.temp.day == today
  }

  /** Some caller has found a stale lock and not archived it yet. */
  ghost predicate HasArchiver(d: Disk) { exists c :: StageOf(d, c) == MustArchive }

  lemma FreshStep(d: Disk, a: Access, today: int)
    requires TempIsFresh(d, today) && CanAccess(d, a)
    ensures TempIsFresh(Accessed(d, a, today), today)
  {
    var next := Accessed(d, a, today);
    forall c | StageOf(next, c).Writing? || StageOf(next, c).MustReplace?
      ensures !next.temp.Dated? || next.temp.day == today
    {
      assert c != a.caller ==> StageOf(next, c) == StageOf(d, c);
    }
  }

  lemma LockedStep(d: Disk, a: Access, today: int)
    requires TempIsFresh(d, today) && IsLocked(d.file, today) && !HasArchiver(d) && CanAccess(d, a)
    ensures var next := Accessed(d, a, today);
      TempIsFresh(next, today) && IsLocked(next.file, today) && !HasArchiver(next)
  {
    FreshStep(d, a, today);
    var next := Accessed(d, a, today);
    assert StageOf(d, a.caller) != MustArchive;
    forall c
      ensures StageOf(next, c) != MustArchive
    {
      assert c != a.caller ==> StageOf(next, c) == StageOf(d, c);
    }
  }

  lemma {:induction false} LockedAllDay(d: Disk, day: seq<Access>, today: int)
    requires TempIsFresh(d, today) && IsLocked(d.file, today) && !HasArchiver(d) && IsDay(d, day, today)
    ensures IsLocked(Through(d, day, today).file, today)
    decreases |day|
  {
    if day != [] {
      LockedStep(d, day[0], today);
      LockedAllDay(Accessed(d, day[0], today), day[1..], today);
    }
  }

  ghost predicate StaysLocked(d: Disk, today: int) {
    forall day :: IsDay(d, day, today) ==> IsLocked(Through(d, day, today).file, today)
  }

  /** A lock in place stays in force whatever calls of `engage` follow, overlapping as they may,
      exactly when no call that found a stale lock before it was written is still to archive. */
  lemma StaysLockedIff(d: Disk, today: int)
    requires TempIsFresh(d, today) && IsLocked(d.file, today)
    ensures StaysLocked(d, today) <==> !HasArchiver(d)
  {
    if !HasArchiver(d) {
      forall day | IsDay(d, day, today)
        ensures IsLocked(Through(d, day, today).file, today)
      {
        LockedAllDay(d, day, today);
      }
    } else {
      var c :| StageOf(d, c) == MustArchive;
      var day := [Archive(c, true)];
      assert day[1..] == [];
      assert IsDay(Accessed(d, day[0], today), day[1..], today);
      assert IsDay(d, day, today);
      assert Through(d, day, today) == Accessed(d, day[0], today);
      assert !IsLocked(Through(d, day, today).file, today);
    }
  }

  ghost predicate AllIdle(d: Disk) { forall c :: StageOf(d, c) == Idle }

  /** The accesses of one undisturbed call. */
  function OneCall(d: Disk, caller: nat, readable: bool, moved: bool, today: int): seq<Access> {
    [Check(caller, readable)]
    + (if StatusOf(d.file, readable, today).Stale? then [Archive(caller, moved)] else [])
    + [Truncate(caller), Fill(caller, Temp), Replace(caller)]
  }

  /** With no other call under way `engage` returns and leaves today's date on disk; from then on every
      boot that day is locked, whatever calls follow. */
  lemma EngageLocksTheDay(d: Disk, caller: nat, readable: bool, moved: bool, today: int, later: seq<Access>, now: nat)
    requires AllIdle(d)
    ensures var mine := OneCall(d, caller, readable, moved, today); var after := Through(d, mine, today);
      && IsDay(d, mine, today) && after.file == Dated(today) && AllIdle(after)
      && (IsDay(after, later, today) ==>
            forall readable2 :: ResolveBootState(Through(after, later, today).file, readable2, today, now) == Locked)
  {
    EngageReturns(d, caller, readable, moved, today);
    var after := Through(d, OneCall(d, caller, readable, moved, today), today);
    assert TempIsFresh(after, today) && !HasArchiver(after);
    hide OneCall, IsDay, Through;
    if IsDay(after, later, today) {
      LockedAllDay(after, later, today);
    }
  }

  ghost predicate OthersIdle(d: Disk, caller: nat) { forall c :: c != caller ==> StageOf(d, c) == Idle }

  lemma OthersStayIdle(d: Disk, a: Access, today: int)
    requires OthersIdle(d, a.caller)
    ensures OthersIdle(Accessed(d, a, today), a.caller)
  {
    forall c | c != a.caller
      ensures StageOf(Accessed(d, a, today), c) == Idle
    {
      assert StageOf(d, c) == Idle;
    }
  }

  lemma EngageReturns(d: Disk, caller: nat, readable: bool, moved: bool, today: int)
    requires AllIdle(d)
    ensures var mine := OneCall(d, caller, readable, moved, today); var after := Through(d, mine, today);
      IsDay(d, mine, today) && after.file == Dated(today) && after.temp == NoFile && AllIdle(after)
  {
    var mine := OneCall(d, caller, readable, moved, today);
    var tail := [Truncate(caller), Fill(caller, Temp), Replace(caller)];
    var d1 := Accessed(d, Check(caller, readable), today);
    assert StageOf(d, caller) == Idle;
    OthersStayIdle(d, Check(caller, readable), today);
    OthersStayIdle(d1, Archive(caller, moved), today);
    if StatusOf(d.file, readable, today).Stale? {
      assert mine[1..] == [Archive(caller, moved)] + tail && mine[1..][1..] == tail;
      WriteReturns(Accessed(d1, Archive(caller, moved), today), caller, today);
    } else {
      assert mine[1..] == tail;
      WriteReturns(d1, caller, today);
    }
  }

  lemma WriteReturns(d: Disk, caller: nat, today: int)
    requires StageOf(d, caller) == MustWrite && OthersIdle(d, caller)
    ensures var tail := [Truncate(caller), Fill(caller, Temp), Replace(caller)]; var after := Through(d, tail, today);
      IsDay(d, tail, today) && after.file == Dated(today) && after.temp == NoFile && AllIdle(after)
  {
    var tail := [Truncate(caller), Fill(caller, Temp), Replace(caller)];
    assert tail[1..] == [Fill(caller, Temp), Replace(caller)] && tail[1..][1..] == [Replace(caller)];
    assert tail[1..][1..][1..] == [];
    var d1 := Accessed(d, tail[0], today);
    var d2 := Accessed(d1, tail[1], today);
    var d3 := Accessed(d2, tail[2], today);
    assert Through(d2, [Replace(caller)], today) == d3 && IsDay(d2, [Replace(caller)], today);
    assert Through(d1, tail[1..], today) == d3 && IsDay(d1, tail[1..], today);
    forall c
      ensures StageOf(d3, c) == Idle
    {
      assert c != caller ==> StageOf(d3, c) == StageOf(d, c);
    }
  }

  /** The lock as one caller sees it, with no other call under way. */
  class DailyLock {
    var file: File
    var temp: File

    constructor (file: File, temp: File)
      ensures this.file == file && this.temp == temp
    {
      this.file, this.temp := file, temp;
    }

    /** The same accesses in the same order as the step-by-step account. */
    method Engage(readable: bool, moved: bool, today: int)
      modifies this
      ensures file == Dated(today) && temp == NoFile
      ensures var d := Disk(old(file), old(temp), map[]); var after := Through(d, OneCall(d, 0, readable, moved, today), today);
        file == after.file && temp == after.temp
    {
      EngageReturns(Disk(file, temp, map[]), 0, readable, moved, today);
      if StatusOf(file, readable, today).Stale? {
        ArchiveStale(moved);
      }
      temp := Garbled;
      temp := Dated(today);
      file, temp := temp, NoFile;
    }

    method ArchiveStale(moved: bool)
      modifies this`file
      ensures file == if moved then NoFile else old(file)
    {
      if moved {
        file := NoFile;
      }
    }
  }

  lemma ThroughOne(d: Disk, a: Access, rest: seq<Access>, today: int)
    ensures Through(d, [a] + rest, today) == Through(Accessed(d, a, today), rest, today)
    ensures IsDay(d, [a] + rest, today) <==> CanAccess(d, a) && IsDay(Accessed(d, a, today), rest, today)
  {
    assert ([a] + rest)[1..] == rest;
  }

  lemma NoLockTrades(today: int)
    ensures ResolveBootState(NoFile, true, today, Clock(10, 0)) == Active
  {
  }

  /** The first call on a stale lock, while a second call has already found it stale: the first returns
      with today's date on disk; the second then archives that, and a boot at that moment trades. */
  lemma OverlapUnlocks(yesterday: int, today: int)
    requires yesterday != today
    ensures var d := Accessed(Disk(Dated(yesterday), NoFile, map[]), Check(1, true), today);
      var first := OneCall(d, 0, true, true, today);
      && CanAccess(Disk(Dated(yesterday), NoFile, map[]), Check(1, true))
      && IsDay(d, first, today) && Through(d, first, today).file == Dated(today)
      && CanAccess(Through(d, first, today), Archive(1, true))
      && ResolveBootState(Accessed(Through(d, first, today), Archive(1, true), today).file, true, today, Clock(10, 0)) == Active
  {
    var d := Accessed(Disk(Dated(yesterday), NoFile, map[]), Check(1, true), today);
    var tail := [Truncate(0), Fill(0, Temp), Replace(0)];
    assert OneCall(d, 0, true, true, today) == [Check(0, true)] + ([Archive(0, true)] + tail);
    assert tail == [Truncate(0)] + ([Fill(0, Temp)] + ([Replace(0)] + []));
    var d1 := Accessed(d, Check(0, true), today);
    var d2 := Accessed(d1, Archive(0, true), today);
    var d3 := Accessed(d2, Truncate(0), today);
    var d4 := Accessed(d3, Fill(0, Temp), today);
    ThroughOne(d, Check(0, true), [Archive(0, true)] + tail, today);
    ThroughOne(d1, Archive(0, true), tail, today);
    ThroughOne(d2, Truncate(0), [Fill(0, Temp)] + ([Replace(0)] + []), today);
    ThroughOne(d3, Fill(0, Temp), [Replace(0)] + [], today);
    ThroughOne(d4, Replace(0), [], today);
    NoLockTrades(today);
    hide OneCall, Through, IsDay, ResolveBootState;
  }
}
