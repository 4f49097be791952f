/** Latching session deadlines, pinned once to the monotonic clock and driven by exact sleeps. */
module Watchdog {
  import opened Reals
  import Lists

  /** Wall time and monotonic time, which may move independently. */
  class ManualClock {
    var wall: real
    var mono: real

    constructor (wall: real, mono: real)
      ensures this.wall == wall && this.mono == mono
    {
      this.wall, this.mono := wall, mono;
    }

    method Advance(seconds: real)
      modifies this
      ensures wall == old(wall) + seconds && mono == old(mono) + seconds
    {
      wall, mono := wall + seconds, mono + seconds;
    }

    method JumpWallClock(seconds: real)
      modifies this`wall
      ensures wall == old(wall) + seconds
    {
      wall := wall + seconds;
    }
  }

  datatype Event = Event(name: string, at: real)

  datatype Deadline = Deadline(name: string, target: real, mono: real)

  /** Pin a wall-clock time to the monotonic clock. */
  function Arm(e: Event, wall: real, mono: real): Deadline {
    Deadline(e.name, e.at, mono + (e.at - wall))
  }

  function ArmAll(events: seq<Event>, wall: real, mono: real): seq<Deadline> {
    seq(|events|, i requires 0 <= i < |events| => Arm(events[i], wall, mono))
  }

  /** The unfired deadlines that have elapsed, in the order they were armed. */
  function Elapsed(ds: seq<Deadline>, fired: set<string>, mono: real): seq<Deadline> {
    if ds == [] then []
    else
      var d := ds[|ds| - 1];
      Elapsed(ds[..|ds| - 1], fired, mono) + if d.name !in fired && d.mono - mono <= 0.0 then [d] else []
  }

  /** Stable insertion: after everything that is not later. */
  function Insert(ds: seq<Deadline>, d: Deadline): seq<Deadline> {
    if ds == [] || ds[|ds| - 1].target <= d.target then ds + [d]
    else Insert(ds[..|ds| - 1], d) + [ds[|ds| - 1]]
  }

  function SortByTarget(ds: seq<Deadline>): seq<Deadline> {
    if ds == [] then [] else Insert(SortByTarget(ds[..|ds| - 1]), ds[|ds| - 1])
  }

  /** What one poll reports. */
  function PollAt(ds: seq<Deadline>, fired: set<string>, mono: real): seq<Deadline> {
    SortByTarget(Elapsed(ds, fired, mono))
  }

  function Labels(ds: seq<Deadline>): set<string> { set d <- ds :: d.name }

  function FiredAfter(ds: seq<Deadline>, fired: set<string>, mono: real): set<string> {
    fired + Labels(PollAt(ds, fired, mono))
  }

  /** The least positive time to an unfired deadline, if there is one below `best`. */
  function Soonest(ds: seq<Deadline>, fired: set<string>, mono: real, best: real): real {
    if ds == [] then best
    else
      var d := ds[|ds| - 1];
      var rest := Soonest(ds[..|ds| - 1], fired, mono, best);
      var left := d.mono - mono;
      if d.name !in fired && left > 0.0 && left < rest then left else rest
  }

  /** How long to sleep: a tick, or less if a deadline that has not fired is nearer. */
  function PollDelay(ds: seq<Deadline>, fired: set<string>, mono: real, tick: real): real {
    var delay := Soonest(ds, fired, mono, tick);
    if delay < 0.0 then 0.0 else delay
  }

  /** A sleep is never negative, and with no positive tick there is none. */
  lemma {:induction false} DelayIsNeverNegative(ds: seq<Deadline>, fired: set<string>, mono: real, tick: real)
    ensures 0.0 <= PollDelay(ds, fired, mono, tick)
    ensures tick <= 0.0 ==> PollDelay(ds, fired, mono, tick) == 0.0
    ensures tick <= 0.0 ==> Soonest(ds, fired, mono, tick) == tick
  {
    if ds != [] {
      DelayIsNeverNegative(ds[..|ds| - 1], fired, mono, tick);
    }
  }

  lemma WholeSplit(ds: seq<Deadline>)
    ensures ds[..|ds|] == ds && ds[|ds|..] == []
  {
  }

  lemma InsertAtEnd(ds: seq<Deadline>, d: Deadline)
    requires ds == [] || ds[|ds| - 1].target <= d.target
    ensures Insert(ds, d) == ds + [d]
  {
  }

  lemma InsertBeforeLast(ds: seq<Deadline>, d: Deadline, p: nat)
    requires 0 < p <= |ds| && ds[p - 1].target > d.target
    ensures Insert(ds[..p], d) + ds[p..] == Insert(ds[..p - 1], d) + ds[p - 1..]
  {
    var init := Insert(ds[..p - 1], d);
    assert Insert(ds[..p], d) == init + [ds[p - 1]] by {
      assert ds[..p][..p - 1] == ds[..p - 1];
    }
    hide Insert;
    assert ds[p - 1..] == [ds[p - 1]] + ds[p..];
    Lists.Associates(init, [ds[p - 1]], ds[p..]);
  }

  method InsertInto(ds: seq<Deadline>, d: Deadline) returns (longer: seq<Deadline>)
    ensures longer == Insert(ds, d)
  {
    hide Insert;
    var p := |ds|;
    WholeSplit(ds);
    while p > 0 && ds[p - 1].target > d.target
      invariant 0 <= p <= |ds|
      invariant Insert(ds, d) == Insert(ds[..p], d) + ds[p..]
    {
      InsertBeforeLast(ds, d, p);
      p := p - 1;
    }
    InsertAtEnd(ds[..p], d);
    longer := ds[..p] + [d] + ds[p..];
  }

  /** Each deadline in turn goes in after those that are not later. */
  method Sort(ds: seq<Deadline>) returns (sorted: seq<Deadline>)
    ensures sorted == SortByTarget(ds)
  {
    sorted := [];
    for i := 0 to |ds|
      invariant sorted == SortByTarget(ds[..i])
    {
      assert ds[..i + 1][..i] == ds[..i];
      sorted := InsertInto(sorted, ds[i]);
    }
    assert ds[..|ds|] == ds;
  }

  lemma LabelsSnoc(ds: seq<Deadline>, i: nat)
    requires i < |ds|
    ensures Labels(ds[..i + 1]) == Labels(ds[..i]) + {ds[i].name}
  {
    assert ds[..i + 1] == ds[..i] + [ds[i]];
  }

  class SessionWatchdog {
    const deadlines: seq<Deadline>
    const clock: ManualClock
    var fired: set<string>

    /** Arm every event on one reading of the clock. */
    constructor (events: seq<Event>, clock: ManualClock)
      ensures this.clock == clock && fired == {} && deadlines == ArmAll(events, clock.wall, clock.mono)
    {
      this.clock := clock;
      deadlines := ArmAll(events, clock.wall, clock.mono);
      fired := {};
    }

    /** Report the deadlines that are due and not latched, earliest target first, and latch them. */
    method Poll() returns (events: seq<Deadline>)
      modifies this
      ensures events == PollAt(deadlines, old(fired), clock.mono)
      ensures fired == FiredAfter(deadlines, old(fired), clock.mono)
      ensures Chronological(events)
      ensures forall d :: d in events <==> d in deadlines && d.name !in old(fired) && d.mono <= clock.mono
    {
      hide SortByTarget, Elapsed, Chronological, Labels;
      PollMembers(deadlines, fired, clock.mono);
      var newlyFired := Due();
      events := Sort(newlyFired);
      Latch(events);
    }

    /** The filter, in the order the deadlines were armed. */
    method Due() returns (due: seq<Deadline>)
      ensures due == Elapsed(deadlines, fired, clock.mono)
    {
      due := [];
      for i := 0 to |deadlines|
        invariant due == Elapsed(deadlines[..i], fired, clock.mono)
      {
        assert deadlines[..i + 1][..i] == deadlines[..i];
        if deadlines[i].name !in fired && deadlines[i].mono - clock.mono <= 0.0 {
          due := due + [deadlines[i]];
        }
      }
      assert deadlines[..|deadlines|] == deadlines;
    }

    method Latch(events: seq<Deadline>)
      modifies this
      ensures fired == old(fired) + Labels(events)
    {
      for i := 0 to |events|
        invariant fired == old(fired) + Labels(events[..i])
      {
        LabelsSnoc(events, i);
        fired := fired + {events[i].name};
      }
      assert events[..|events|] == events;
    }

    method NextPollDelay(tick: real) returns (delay: real)
      ensures delay == PollDelay(deadlines, fired, clock.mono, tick)
    {
      delay := tick;
      for i := 0 to |deadlines|
        invariant delay == Soonest(deadlines[..i], fired, clock.mono, tick)
      {
        assert deadlines[..i + 1][..i] == deadlines[..i];
        var left := deadlines[i].mono - clock.mono;
        if deadlines[i].name !in fired && left > 0.0 && left < delay {
          delay := left;
        }
      }
      assert deadlines[..|deadlines|] == deadlines;
      delay := if delay < 0.0 then 0.0 else delay;
    }
  }

  // ---------- one poll ----------

  ghost predicate Distinct(ds: seq<Deadline>) {
    forall i, j :: 0 <= i < j < |ds| ==> ds[i].name != ds[j].name
  }

  ghost predicate Chronological(ds: seq<Deadline>) {
    forall i, j :: 0 <= i < j < |ds| ==> ds[i].target <= ds[j].target
  }

  ghost predicate AllBy(ds: seq<Deadline>, target: real) {
    forall d <- ds :: d.target <= target
  }

  lemma {:induction false} InsertMembers(ds: seq<Deadline>, d: Deadline)
    ensures multiset(Insert(ds, d)) == multiset(ds) + multiset{d}
  {
    if ds != [] && ds[|ds| - 1].target > d.target {
      InsertMembers(ds[..|ds| - 1], d);
      assert ds == ds[..|ds| - 1] + [ds[|ds| - 1]];
    }
  }

  lemma InsertBounded(ds: seq<Deadline>, d: Deadline, target: real)
    requires AllBy(ds, target) && d.target <= target
    ensures AllBy(Insert(ds, d), target)
  {
    InsertMembers(ds, d);
    forall x | x in Insert(ds, d) ensures x.target <= target {
      assert x in multiset(Insert(ds, d));
      assert x in multiset(ds) + multiset{d};
    }
  }

  lemma {:induction false} InsertSorts(ds: seq<Deadline>, d: Deadline)
    requires Chronological(ds)
    ensures Chronological(Insert(ds, d))
  {
    if ds != [] && ds[|ds| - 1].target > d.target {
      var init, last := ds[..|ds| - 1], ds[|ds| - 1];
      InsertSorts(init, d);
      assert AllBy(init, last.target);
      InsertBounded(init, d, last.target);
      var t := Insert(init, d);
      assert Insert(ds, d) == t + [last];
      assert forall i :: 0 <= i < |t| ==> t[i] in t;
    }
  }

  /** A poll reports exactly the unfired elapsed deadlines, each as often as it was armed, in order. */
  lemma {:induction false} SortByTargetSorts(ds: seq<Deadline>)
    ensures Chronological(SortByTarget(ds)) && multiset(SortByTarget(ds)) == multiset(ds)
  {
    if ds != [] {
      SortByTargetSorts(ds[..|ds| - 1]);
      InsertSorts(SortByTarget(ds[..|ds| - 1]), ds[|ds| - 1]);
      InsertMembers(SortByTarget(ds[..|ds| - 1]), ds[|ds| - 1]);
      assert ds == ds[..|ds| - 1] + [ds[|ds| - 1]];
    }
  }

  lemma {:induction false} ElapsedMembers(ds: seq<Deadline>, fired: set<string>, mono: real)
    ensures forall d :: d in Elapsed(ds, fired, mono) <==> d in ds && d.name !in fired && d.mono <= mono
  {
    if ds != [] {
      ElapsedMembers(ds[..|ds| - 1], fired, mono);
      assert ds == ds[..|ds| - 1] + [ds[|ds| - 1]];
    }
  }

  lemma PollMembers(ds: seq<Deadline>, fired: set<string>, mono: real)
    ensures Chronological(PollAt(ds, fired, mono))
    ensures forall d :: d in PollAt(ds, fired, mono) <==> d in ds && d.name !in fired && d.mono <= mono
  {
    var e := Elapsed(ds, fired, mono);
    ElapsedMembers(ds, fired, mono);
    SortByTargetSorts(e);
    forall d ensures d in SortByTarget(e) <==> d in e {
      assert d in SortByTarget(e) <==> d in multiset(SortByTarget(e));
      assert d in e <==> d in multiset(e);
    }
  }

  // ---------- the driven run ----------

  datatype Report = Report(deadline: Deadline, at: real)

  function Stamped(ds: seq<Deadline>, at: real): seq<Report> {
    seq(|ds|, i requires 0 <= i < |ds| => Report(ds[i], at))
  }

  /** When the next poll happens: this one, then an exact sleep. */
  function NextPoll(ds: seq<Deadline>, fired: set<string>, mono: real, tick: real): real {
    mono + PollDelay(ds, FiredAfter(ds, fired, mono), mono, tick)
  }

  /** Everything reported in `n` polls, starting now. */
  function Drive(ds: seq<Deadline>, fired: set<string>, mono: real, tick: real, n: nat): seq<Report>
    decreases n
  {
    if n == 0 then []
    else
      Stamped(PollAt(ds, fired, mono), mono)
      + Drive(ds, FiredAfter(ds, fired, mono), NextPoll(ds, fired, mono, tick), tick, n - 1)
  }

  /** The time of the n-th poll. */
  function PollTime(ds: seq<Deadline>, fired: set<string>, mono: real, tick: real, n: nat): real
    requires n >= 1
    decreases n
  {
    if n == 1 then mono else PollTime(ds, FiredAfter(ds, fired, mono), NextPoll(ds, fired, mono, tick), tick, n - 1)
  }

  /** Nothing unfired lies in the past. */
  ghost predicate CaughtUp(ds: seq<Deadline>, fired: set<string>, mono: real) {
    forall d <- ds :: d.name !in fired ==> d.mono >= mono
  }

  lemma {:induction false} SoonestIs(ds: seq<Deadline>, fired: set<string>, mono: real, tick: real)
    requires tick > 0.0
    ensures var s := Soonest(ds, fired, mono, tick);
      && 0.0 < s <= tick
      && (forall d <- ds :: d.name !in fired && d.mono > mono ==> mono + s <= d.mono)
      && (s == tick || exists d <- ds :: d.name !in fired && d.mono == mono + s)
  {
    if ds != [] {
      var init, last := ds[..|ds| - 1], ds[|ds| - 1];
      assert ds == init + [last] && last in ds;
      SoonestIs(init, fired, mono, tick);
      var rest := Soonest(init, fired, mono, tick);
      if Soonest(ds, fired, mono, tick) == rest && rest != tick {
        var d :| d in init && d.name !in fired && d.mono == mono + rest;
        assert d in ds;
      }
    }
  }

  lemma FiredMembers(ds: seq<Deadline>, fired: set<string>, mono: real)
    ensures forall d <- ds :: d.mono <= mono ==> d.name in FiredAfter(ds, fired, mono)
    ensures Distinct(ds) ==> forall d <- ds :: d.name in FiredAfter(ds, fired, mono) ==> d.name in fired || d.mono <= mono
    ensures fired <= FiredAfter(ds, fired, mono) <= fired + Labels(ds)
  {
    PollMembers(ds, fired, mono);
    forall d | d in ds && d.mono <= mono ensures d.name in FiredAfter(ds, fired, mono) {
      if d.name !in fired {
        assert d in PollAt(ds, fired, mono);
      }
    }
    forall x | x in Labels(PollAt(ds, fired, mono)) ensures x in Labels(ds) {
      var d :| d in PollAt(ds, fired, mono) && d.name == x;
      assert d in ds;
    }
    if Distinct(ds) {
      forall d | d in ds && d.name in FiredAfter(ds, fired, mono) && d.name !in fired ensures d.mono <= mono {
        var e :| e in PollAt(ds, fired, mono) && e.name == d.name;
        assert e in ds;
        SameLabel(ds, d, e);
      }
    }
  }

  lemma SameLabel(ds: seq<Deadline>, d: Deadline, e: Deadline)
    requires Distinct(ds) && d in ds && e in ds && d.name == e.name
    ensures d == e
  {
  }

  /** After a poll and an exact sleep nothing is overslept, and the sleep is either a whole tick or
      ends on a deadline that is still to fire. */
  lemma SleepIsExact(ds: seq<Deadline>, fired: set<string>, mono: real, tick: real)
    requires tick > 0.0 && Distinct(ds)
    ensures var fired', next := FiredAfter(ds, fired, mono), NextPoll(ds, fired, mono, tick);
      && mono < next <= mono + tick
      && CaughtUp(ds, fired', next)
      && (forall d <- ds :: d.name !in fired' ==> d.mono > mono)
      && (next == mono + tick || exists d <- ds :: d.name !in fired' && d.mono == next)
  {
    FiredMembers(ds, fired, mono);
    SoonestIs(ds, FiredAfter(ds, fired, mono), mono, tick);
  }

  lemma {:induction false} PollTimesGrow(ds: seq<Deadline>, fired: set<string>, mono: real, tick: real, n: nat)
    requires tick > 0.0 && Distinct(ds) && n >= 1
    ensures PollTime(ds, fired, mono, tick, n) >= mono
    decreases n
  {
    if n > 1 {
      SleepIsExact(ds, fired, mono, tick);
      PollTimesGrow(ds, FiredAfter(ds, fired, mono), NextPoll(ds, fired, mono, tick), tick, n - 1);
    }
  }

  /** The deadlines reported in a run. */
  function Reported(rs: seq<Report>): seq<Deadline> {
    seq(|rs|, i requires 0 <= i < |rs| => rs[i].deadline)
  }

  lemma {:induction false} ReportedMembers(ds: seq<Deadline>, fired: set<string>, mono: real, tick: real, n: nat, d: Deadline)
    requires tick > 0.0 && Distinct(ds) && n >= 1
    ensures d in Reported(Drive(ds, fired, mono, tick, n))
       <==> d in ds && d.name !in fired && d.mono <= PollTime(ds, fired, mono, tick, n)
    decreases n
  {
    var fired', next := FiredAfter(ds, fired, mono), NextPoll(ds, fired, mono, tick);
    var now, later := PollAt(ds, fired, mono), Drive(ds, fired', next, tick, n - 1);
    ReportedSplit(now, mono, later);
    PollMembers(ds, fired, mono);
    FiredMembers(ds, fired, mono);
    if n > 1 {
      SleepIsExact(ds, fired, mono, tick);
      PollTimesGrow(ds, fired', next, tick, n - 1);
      ReportedMembers(ds, fired', next, tick, n - 1, d);
    }
  }

  lemma ReportedSplit(now: seq<Deadline>, at: real, later: seq<Report>)
    ensures Reported(Stamped(now, at) + later) == now + Reported(later)
  {
  }

  lemma DriveUnfold(ds: seq<Deadline>, fired: set<string>, mono: real, tick: real, n: nat)
    requires n >= 1
    ensures Drive(ds, fired, mono, tick, n)
         == Stamped(PollAt(ds, fired, mono), mono)
            + Drive(ds, FiredAfter(ds, fired, mono), NextPoll(ds, fired, mono, tick), tick, n - 1)
    ensures |Stamped(PollAt(ds, fired, mono), mono)| == |PollAt(ds, fired, mono)|
    ensures forall k :: 0 <= k < |PollAt(ds, fired, mono)| ==>
              Stamped(PollAt(ds, fired, mono), mono)[k] == Report(PollAt(ds, fired, mono)[k], mono)
  {
    hide PollAt, FiredAfter, NextPoll;
  }

  lemma ReportedHas(rs: seq<Report>, k: nat)
    requires k < |rs|
    ensures rs[k].deadline in Reported(rs)
  {
    assert Reported(rs)[k] == rs[k].deadline;
  }

  /** Exactly once, exactly on time: each deadline reached by the last poll is reported, at its own
      instant, or at the first poll if it had already passed. */
  lemma {:induction false} ReportedOnTime(ds: seq<Deadline>, fired: set<string>, mono: real, tick: real, n: nat, k: nat)
    requires tick > 0.0 && Distinct(ds) && k < |Drive(ds, fired, mono, tick, n)|
    ensures var r := Drive(ds, fired, mono, tick, n)[k];
      r.at == if r.deadline.mono < mono then mono else r.deadline.mono
    decreases n
  {
    var fired', next := FiredAfter(ds, fired, mono), NextPoll(ds, fired, mono, tick);
    hide *;
    NoneDriven(ds, fired, Clock(mono, mono), tick);
    if n >= 1 {
      var now, later := PollAt(ds, fired, mono), Drive(ds, fired', next, tick, n - 1);
      DriveUnfold(ds, fired, mono, tick, n);
      PollMembers(ds, fired, mono);
      if k < |now| {
        assert now[k] in now;
      } else {
        SleepIsExact(ds, fired, mono, tick);
        ReportedOnTime(ds, fired', next, tick, n - 1, k - |now|);
        ReportedHas(later, k - |now|);
        NoneDriven(ds, fired', Clock(next, next), tick);
        ReportedMembers(ds, fired', next, tick, n - 1, later[k - |now|].deadline);
        CaughtUpAt(ds, fired', next, later[k - |now|].deadline);
      }
    }
  }

  lemma NoneDriven(ds: seq<Deadline>, fired: set<string>, clock: Clock, tick: real)
    ensures Drive(ds, fired, clock.mono, tick, 0) == [] == DriveWithJumps(ds, fired, clock, tick, [])
  {
  }

  lemma CaughtUpAt(ds: seq<Deadline>, fired: set<string>, mono: real, d: Deadline)
    requires CaughtUp(ds, fired, mono) && d in ds && d.name !in fired
    ensures d.mono >= mono
  {
  }

  /** All armed on one reading of the clock. */
  ghost predicate OneReading(ds: seq<Deadline>, offset: real) {
    forall d <- ds :: d.mono - d.target == offset
  }

  lemma ArmedOnOneReading(events: seq<Event>, wall: real, mono: real)
    ensures OneReading(ArmAll(events, wall, mono), mono - wall)
  {
  }

  lemma ChronologicalConcat(a: seq<Deadline>, b: seq<Deadline>)
    requires Chronological(a) && Chronological(b) && forall x <- a, y <- b :: x.target <= y.target
    ensures Chronological(a + b)
  {
    forall i, j | 0 <= i < j < |a + b| ensures (a + b)[i].target <= (a + b)[j].target {
      if i < |a| <= j {
        assert a[i] in a && b[j - |a|] in b;
      }
    }
  }

  lemma {:induction false} ReportedInOrder(ds: seq<Deadline>, fired: set<string>, mono: real, tick: real, n: nat,
                                           offset: real)
    requires tick > 0.0 && Distinct(ds) && OneReading(ds, offset)
    ensures Chronological(Reported(Drive(ds, fired, mono, tick, n)))
    decreases n
  {
    hide PollAt, FiredAfter, NextPoll, Stamped, Reported, Chronological, Drive;
    if n == 0 {
      NothingReported(ds, fired, mono, tick);
    } else {
      var fired', next := FiredAfter(ds, fired, mono), NextPoll(ds, fired, mono, tick);
      var now, later := PollAt(ds, fired, mono), Drive(ds, fired', next, tick, n - 1);
      DriveUnfold(ds, fired, mono, tick, n);
      ReportedInOrder(ds, fired', next, tick, n - 1, offset);
      ReportedSplit(now, mono, later);
      PollMembers(ds, fired, mono);
      forall x, y | x in now && y in Reported(later)
        ensures x.target <= y.target
      {
        LaterIsLater(ds, fired, mono, tick, n, offset, x, y);
      }
      ChronologicalConcat(now, Reported(later));
    }
  }

  lemma NothingReported(ds: seq<Deadline>, fired: set<string>, mono: real, tick: real)
    ensures Reported(Drive(ds, fired, mono, tick, 0)) == [] && Chronological([])
  {
  }

  /** What a later poll reports was armed for a later time. */
  lemma LaterIsLater(ds: seq<Deadline>, fired: set<string>, mono: real, tick: real, n: nat, offset: real, x: Deadline,
                     y: Deadline)
    requires tick > 0.0 && Distinct(ds) && OneReading(ds, offset) && n >= 1 && x in PollAt(ds, fired, mono)
    requires y in Reported(Drive(ds, FiredAfter(ds, fired, mono), NextPoll(ds, fired, mono, tick), tick, n - 1))
    ensures x.target <= y.target
  {
    var fired', next := FiredAfter(ds, fired, mono), NextPoll(ds, fired, mono, tick);
    if n == 1 {
      NothingReported(ds, fired', next, tick);
    } else {
      hide PollAt, FiredAfter, NextPoll, Reported, Drive, PollTime, CaughtUp, Distinct;
      PollMembers(ds, fired, mono);
      ReportedMembers(ds, fired', next, tick, n - 1, y);
      SleepIsExact(ds, fired, mono, tick);
    }
  }

  lemma DistinctAppend(ds: seq<Deadline>, d: Deadline)
    requires Distinct(ds) && forall e <- ds :: e.name != d.name
    ensures Distinct(ds + [d]) && forall e :: e in ds + [d] <==> e in ds || e == d
  {
  }

  lemma DistinctInit(ds: seq<Deadline>)
    requires Distinct(ds) && ds != []
    ensures var init, last := ds[..|ds| - 1], ds[|ds| - 1];
      ds == init + [last] && Distinct(init) && last in ds && forall e <- init :: e.name != last.name && e in ds
  {
    var init := ds[..|ds| - 1];
    forall e <- init
      ensures e.name != ds[|ds| - 1].name && e in ds
    {
      var i :| 0 <= i < |init| && init[i] == e;
      assert ds[i] == e;
    }
  }

  lemma {:induction false} InsertDistinct(ds: seq<Deadline>, d: Deadline)
    requires Distinct(ds) && forall e <- ds :: e.name != d.name
    ensures Distinct(Insert(ds, d)) && forall e :: e in Insert(ds, d) <==> e in ds || e == d
  {
    hide Distinct;
    if ds != [] && ds[|ds| - 1].target > d.target {
      DistinctInit(ds);
      InsertDistinct(ds[..|ds| - 1], d);
      DistinctAppend(Insert(ds[..|ds| - 1], d), ds[|ds| - 1]);
    } else {
      DistinctAppend(ds, d);
    }
  }

  lemma {:induction false} SortDistinct(ds: seq<Deadline>)
    requires Distinct(ds)
    ensures Distinct(SortByTarget(ds)) && forall e :: e in SortByTarget(ds) <==> e in ds
  {
    if ds != [] {
      var init, last := ds[..|ds| - 1], ds[|ds| - 1];
      assert ds == init + [last];
      SortDistinct(init);
      InsertDistinct(SortByTarget(init), last);
    }
  }

  lemma {:induction false} ElapsedDistinct(ds: seq<Deadline>, fired: set<string>, mono: real)
    requires Distinct(ds)
    ensures Distinct(Elapsed(ds, fired, mono))
  {
    if ds != [] {
      var init, last := ds[..|ds| - 1], ds[|ds| - 1];
      ElapsedDistinct(init, fired, mono);
      ElapsedMembers(init, fired, mono);
      forall e | e in Elapsed(init, fired, mono) ensures e.name != last.name {
        var i :| 0 <= i < |init| && init[i] == e;
        assert ds[i].name != ds[|init|].name;
      }
    }
  }

  /** No event is reported twice in a run. */
  lemma {:induction false} ReportedOnce(ds: seq<Deadline>, fired: set<string>, mono: real, tick: real, n: nat)
    requires tick > 0.0 && Distinct(ds)
    ensures Distinct(Reported(Drive(ds, fired, mono, tick, n)))
    decreases n
  {
    if n > 0 {
      var fired', next := FiredAfter(ds, fired, mono), NextPoll(ds, fired, mono, tick);
      var now, later := PollAt(ds, fired, mono), Drive(ds, fired', next, tick, n - 1);
      ReportedOnce(ds, fired', next, tick, n - 1);
      ReportedSplit(now, mono, later);
      ElapsedDistinct(ds, fired, mono);
      SortDistinct(Elapsed(ds, fired, mono));
      PollMembers(ds, fired, mono);
      forall x, y | x in now && y in Reported(later) ensures x.name != y.name {
        if n > 1 {
          ReportedMembers(ds, fired', next, tick, n - 1, y);
        }
      }
    }
  }

  // ---------- in bounded time, whatever the wall clock does ----------

  function FiredBy(ds: seq<Deadline>, fired: set<string>, mono: real, tick: real, n: nat): set<string>
    decreases n
  {
    if n == 0 then fired else FiredBy(ds, FiredAfter(ds, fired, mono), NextPoll(ds, fired, mono, tick), tick, n - 1)
  }

  lemma {:induction false} FiredBySubset(ds: seq<Deadline>, fired: set<string>, mono: real, tick: real, n: nat)
    requires fired <= Labels(ds)
    ensures fired <= FiredBy(ds, fired, mono, tick, n) <= Labels(ds)
    decreases n
  {
    hide FiredAfter, NextPoll, Labels;
    if n > 0 {
      FiredMembers(ds, fired, mono);
      FiredBySubset(ds, FiredAfter(ds, fired, mono), NextPoll(ds, fired, mono, tick), tick, n - 1);
    }
  }

  /** Every sleep but one per event is a whole tick. */
  lemma {:induction false} SleepsAreTicks(ds: seq<Deadline>, fired: set<string>, mono: real, tick: real, n: nat)
    requires tick > 0.0 && Distinct(ds) && n >= 1 && fired <= Labels(ds)
    ensures PollTime(ds, fired, mono, tick, n) - mono
         >= Mul((n - 1 - (|FiredBy(ds, fired, mono, tick, n)| - |FiredAfter(ds, fired, mono)|)) as real, tick)
    decreases n
  {
    hide Mul, FiredAfter, NextPoll;
    var fired', next := FiredAfter(ds, fired, mono), NextPoll(ds, fired, mono, tick);
    FiredMembers(ds, fired, mono);
    MulUnits(tick);
    if n > 1 {
      SleepIsExact(ds, fired, mono, tick);
      SleepsAreTicks(ds, fired', next, tick, n - 1);
      FiredMembers(ds, fired', next);
      var fired'' := FiredAfter(ds, fired', next);
      SubsetSize(fired', fired'');
      if next == mono + tick {
        var m := n - 2 - (|FiredBy(ds, fired', next, tick, n - 1)| - |fired''|);
        MulAdds(m as real, 1.0, tick);
        MulOrder((n - 1 - (|FiredBy(ds, fired, mono, tick, n)| - |fired'|)) as real, m as real + 1.0, tick);
      } else {
        var d :| d in ds && d.name !in fired' && d.mono == next;
        assert d.name in fired'';
        SubsetSize(fired' + {d.name}, fired'');
        MulOrder((n - 1 - (|FiredBy(ds, fired, mono, tick, n)| - |fired'|)) as real,
                 (n - 2 - (|FiredBy(ds, fired', next, tick, n - 1)| - |fired''|)) as real, tick);
      }
    }
  }

  lemma SubsetSize<T>(a: set<T>, b: set<T>)
    requires a <= b
    ensures |a| <= |b|
  {
    assert b == a + (b - a);
  }

  lemma {:induction false} LabelsSize(ds: seq<Deadline>)
    ensures |Labels(ds)| <= |ds|
  {
    if ds != [] {
      LabelsSize(ds[..|ds| - 1]);
      assert Labels(ds) == Labels(ds[..|ds| - 1]) + {ds[|ds| - 1].name};
    }
  }

  /** A deadline at most `k` ticks away is reported within `k + 1` polls plus one per event. */
  lemma ReportedWithinBound(ds: seq<Deadline>, mono: real, tick: real, k: nat, d: Deadline)
    requires tick > 0.0 && Distinct(ds) && d in ds && d.mono <= mono + Mul(k as real, tick)
    ensures d in Reported(Drive(ds, {}, mono, tick, |ds| + k + 1))
  {
    hide Mul, FiredBy, FiredAfter, PollTime, Drive, Labels, NextPoll;
    var n := |ds| + k + 1;
    SleepsAreTicks(ds, {}, mono, tick, n);
    FiredBySubset(ds, {}, mono, tick, n);
    FiredMembers(ds, {}, mono);
    LabelsSize(ds);
    SubsetSize(FiredBy(ds, {}, mono, tick, n), Labels(ds));
    MulOrder(k as real, (n - 1 - (|FiredBy(ds, {}, mono, tick, n)| - |FiredAfter(ds, {}, mono)|)) as real, tick);
    ReportedMembers(ds, {}, mono, tick, n, d);
  }

  datatype Clock = Clock(wall: real, mono: real)

  /** The same run with the wall clock moved by `jumps[i]` before poll i. */
  function DriveWithJumps(ds: seq<Deadline>, fired: set<string>, clock: Clock, tick: real, jumps: seq<real>): seq<Report>
    decreases |jumps|
  {
    if jumps == [] then []
    else
      var jumped := clock.(wall := clock.wall + jumps[0]);
      var fired' := FiredAfter(ds, fired, jumped.mono);
      var delay := PollDelay(ds, fired', jumped.mono, tick);
      Stamped(PollAt(ds, fired, jumped.mono), jumped.mono)
      + DriveWithJumps(ds, fired', Clock(jumped.wall + delay, jumped.mono + delay), tick, jumps[1..])
  }

  lemma JumpsUnfold(ds: seq<Deadline>, fired: set<string>, clock: Clock, tick: real, jumps: seq<real>)
    requires jumps != []
    ensures var fired' := FiredAfter(ds, fired, clock.mono);
      var delay := PollDelay(ds, fired', clock.mono, tick);
      && NextPoll(ds, fired, clock.mono, tick) == clock.mono + delay
      && DriveWithJumps(ds, fired, clock, tick, jumps)
      == Stamped(PollAt(ds, fired, clock.mono), clock.mono)
         + DriveWithJumps(ds, fired', Clock(clock.wall + jumps[0] + delay, clock.mono + delay), tick, jumps[1..])
  {
    hide PollAt, FiredAfter, PollDelay, Stamped;
  }

  /** Wall-clock jumps after arming leave every poll's output unchanged. */
  lemma {:induction false} JumpsChangeNothing(ds: seq<Deadline>, fired: set<string>, clock: Clock, tick: real, jumps: seq<real>)
    ensures DriveWithJumps(ds, fired, clock, tick, jumps) == Drive(ds, fired, clock.mono, tick, |jumps|)
    decreases |jumps|
  {
    hide *;
    if jumps == [] {
      NoneDriven(ds, fired, clock, tick);
    } else {
      var fired' := FiredAfter(ds, fired, clock.mono);
      var delay := PollDelay(ds, fired', clock.mono, tick);
      JumpsUnfold(ds, fired, clock, tick, jumps);
      DriveUnfold(ds, fired, clock.mono, tick, |jumps|);
      JumpsChangeNothing(ds, fired', Clock(clock.wall + jumps[0] + delay, clock.mono + delay), tick, jumps[1..]);
    }
  }

  /** The watchdog driven from one thread: somebody moves the wall clock, it polls, and it sleeps for
      exactly the delay it was told.  What it reports is the run without any jumps. */
  method RunWithJumps(watchdog: SessionWatchdog, tick: real, jumps: seq<real>) returns (rs: seq<Report>)
    modifies watchdog, watchdog.clock
    ensures rs == DriveWithJumps(watchdog.deadlines, old(watchdog.fired),
                                 Clock(old(watchdog.clock.wall), old(watchdog.clock.mono)), tick, jumps)
    ensures rs == Drive(watchdog.deadlines, old(watchdog.fired), old(watchdog.clock.mono), tick, |jumps|)
  {
    hide *;
    ghost var ds, start := watchdog.deadlines, Clock(watchdog.clock.wall, watchdog.clock.mono);
    JumpsChangeNothing(ds, watchdog.fired, start, tick, jumps);
    rs := [];
    for k := 0 to |jumps|
      invariant rs + DriveWithJumps(ds, watchdog.fired, Clock(watchdog.clock.wall, watchdog.clock.mono), tick, jumps[k..])
             == DriveWithJumps(ds, old(watchdog.fired), start, tick, jumps)
    {
      JumpsUnfold(ds, watchdog.fired, Clock(watchdog.clock.wall, watchdog.clock.mono), tick, jumps[k..]);
      watchdog.clock.JumpWallClock(jumps[k]);
      var events := watchdog.Poll();
      var delay := watchdog.NextPollDelay(tick);
      var now := Stamped(events, watchdog.clock.mono);
      watchdog.clock.Advance(delay);
      assert jumps[k..][1..] == jumps[k + 1..];
      Lists.Associates(rs, now,
        DriveWithJumps(ds, watchdog.fired, Clock(watchdog.clock.wall, watchdog.clock.mono), tick, jumps[k + 1..]));
      rs := rs + now;
    }
    NoneDriven(ds, watchdog.fired, Clock(watchdog.clock.wall, watchdog.clock.mono), tick);
  }

  // ---------- the session ----------

  /** Seconds after midnight of the four session events. */
  function SessionEvents(midnight: real): seq<Event> {
    [Event("ENTRIES_OPEN", midnight + 33600.0), Event("NO_NEW_ENTRIES", midnight + 54000.0),
     Event("SQUARE_OFF", midnight + 54900.0), Event("MARKET_CLOSE", midnight + 55800.0)]
  }

  /** The whole day: armed on one reading and driven with any positive tick, all four events are
      reported, once each, in order, each at its deadline or at the first poll if that had passed. */
  lemma SessionDay(midnight: real, clock: Clock, tick: real, k: nat)
    requires tick > 0.0 && clock.mono + (midnight + 55800.0 - clock.wall) <= clock.mono + Mul(k as real, tick)
    ensures var ds := ArmAll(SessionEvents(midnight), clock.wall, clock.mono);
            var rs := Drive(ds, {}, clock.mono, tick, |ds| + k + 1);
      && Distinct(Reported(rs)) && Chronological(Reported(rs))
      && (forall d :: d in Reported(rs) <==> d in ds)
      && forall i :: 0 <= i < |rs| ==> rs[i].at == if rs[i].deadline.mono < clock.mono then clock.mono else rs[i].deadline.mono
  {
    var ds := ArmAll(SessionEvents(midnight), clock.wall, clock.mono);
    var n := |ds| + k + 1;
    hide Mul, Drive;
    ReportedOnce(ds, {}, clock.mono, tick, n);
    ArmedOnOneReading(SessionEvents(midnight), clock.wall, clock.mono);
    ReportedInOrder(ds, {}, clock.mono, tick, n, clock.mono - clock.wall);
    forall d ensures d in Reported(Drive(ds, {}, clock.mono, tick, n)) <==> d in ds {
      ReportedMembers(ds, {}, clock.mono, tick, n, d);
      if d in ds {
        ReportedWithinBound(ds, clock.mono, tick, k, d);
      }
    }
    forall i | 0 <= i < |Drive(ds, {}, clock.mono, tick, n)|
      ensures var r := Drive(ds, {}, clock.mono, tick, n)[i];
        r.at == if r.deadline.mono < clock.mono then clock.mono else r.deadline.mono
    {
      ReportedOnTime(ds, {}, clock.mono, tick, n, i);
    }
  }

  function SecondsAt(hours: int, minutes: int): real { 3600.0 * hours as real + 60.0 * minutes as real }

  /** Seconds after midnight by event. */
  function TimeTable(): map<string, real> {
    map["ENTRIES_OPEN" := SecondsAt(9, 20), "NO_NEW_ENTRIES" := SecondsAt(15, 0),
        "SQUARE_OFF" := SecondsAt(15, 15), "MARKET_CLOSE" := SecondsAt(15, 30)]
  }

  lemma ArmedByTimeTable(midnight: real, clock: Clock, d: Deadline)
    ensures d in ArmAll(SessionEvents(midnight), clock.wall, clock.mono)
        <==> d.name in TimeTable() && d.target == midnight + TimeTable()[d.name]
             && d.mono == clock.mono + (d.target - clock.wall)
  {
    var ds := ArmAll(SessionEvents(midnight), clock.wall, clock.mono);
    assert |ds| == 4;
    if d.name in TimeTable() {
      assert ds[0] in ds && ds[1] in ds && ds[2] in ds && ds[3] in ds;
    }
  }

  /** By the clock: entries open is reported at 09:20, no new entries at 15:00, square off at 15:15 and
      market close at 15:30, as the wall clock stood when they were armed, or at once if that is past. */
  lemma SessionByTheClock(midnight: real, clock: Clock, tick: real, k: nat)
    requires tick > 0.0
    requires clock.mono + (midnight + SecondsAt(15, 30) - clock.wall) <= clock.mono + Mul(k as real, tick)
    ensures var rs := Drive(ArmAll(SessionEvents(midnight), clock.wall, clock.mono), {}, clock.mono, tick, k + 5);
      && (forall name <- TimeTable().Keys :: exists r <- rs :: r.deadline.name == name)
      && forall r <- rs :: r.deadline.name in TimeTable() && ReportedAt(r, midnight + TimeTable()[r.deadline.name], clock)
  {
    var ds := ArmAll(SessionEvents(midnight), clock.wall, clock.mono);
    var rs := Drive(ds, {}, clock.mono, tick, k + 5);
    ArmedAreFour(midnight, clock);
    SessionDay(midnight, clock, tick, k);
    hide *;
    forall r <- rs
      ensures r.deadline.name in TimeTable() && ReportedAt(r, midnight + TimeTable()[r.deadline.name], clock)
    {
      var i :| 0 <= i < |rs| && rs[i] == r;
      IsReported(rs, i);
      ArmedByTimeTable(midnight, clock, r.deadline);
      AtItsDeadline(r, clock);
    }
    forall name <- TimeTable().Keys
      ensures exists r <- rs :: r.deadline.name == name
    {
      var at := midnight + TimeTable()[name];
      var d := Deadline(name, at, clock.mono + (at - clock.wall));
      ArmedByTimeTable(midnight, clock, d);
      ReportedIndex(rs, d);
    }
  }

  lemma IsReported(rs: seq<Report>, i: nat)
    requires i < |rs|
    ensures rs[i].deadline in Reported(rs)
  {
    assert Reported(rs)[i] == rs[i].deadline;
  }

  lemma AtItsDeadline(r: Report, clock: Clock)
    requires r.deadline.mono == clock.mono + (r.deadline.target - clock.wall)
    requires r.at == if r.deadline.mono < clock.mono then clock.mono else r.deadline.mono
    ensures ReportedAt(r, r.deadline.target, clock)
  {
  }

  /** At this wall-clock time, or at once. */
  ghost predicate ReportedAt(r: Report, wall: real, clock: Clock) {
    r.at == if wall < clock.wall then clock.mono else clock.mono + (wall - clock.wall)
  }

  lemma ArmedAreFour(midnight: real, clock: Clock)
    ensures |ArmAll(SessionEvents(midnight), clock.wall, clock.mono)| == 4
  {
  }

  lemma ReportedIndex(rs: seq<Report>, d: Deadline)
    requires d in Reported(rs)
    ensures exists r <- rs :: r.deadline.name == d.name
  {
    var i :| 0 <= i < |Reported(rs)| && Reported(rs)[i] == d;
    assert rs[i] in rs;
  }
}
