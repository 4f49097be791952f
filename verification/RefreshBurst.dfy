/** Calls that all saw their token expire, meeting at the refresh lock.  Each caller's own part is
    `Client.Renewed`; here its steps interleave with those of the others. */
module RefreshBurst {
  import opened Options

  /** Before the lock, holding it with a refresh under way, logging in after a refused refresh, or done. */
  datatype Stage = Waiting | Refreshing | LoggingIn | Done

  /** Is a refresh token held, who holds the lock, where each caller is, and how many refreshes were made. */
  datatype State = State(token: bool, holder: Option<nat>, stages: seq<Stage>, refreshes: nat)

  datatype Step =
    | Enter(caller: nat)                       // takes the free lock; without a token it fails unsent
    | Granted(caller: nat)
    | Refused(caller: nat)                     // the broker refuses the refresh token itself
    | Failed(caller: nat)                      // any other error goes to the caller
    | LoggedIn(caller: nat, token: bool)       // a login replaces the session, perhaps without a refresh token
    | LoginFailed(caller: nat)

  predicate At(s: State, caller: nat, stage: Stage) { caller < |s.stages| && s.stages[caller] == stage }

  predicate Enabled(s: State, step: Step) {
    match step
    case Enter(c) => At(s, c, Waiting) && s.holder.None?
    case Granted(c) => At(s, c, Refreshing)
    case Refused(c) => At(s, c, Refreshing)
    case Failed(c) => At(s, c, Refreshing)
    case LoggedIn(c, _) => At(s, c, LoggingIn)
    case LoginFailed(c) => At(s, c, LoggingIn)
  }

  function Apply(s: State, step: Step): State
    requires Enabled(s, step)
  {
    match step
    case Enter(c) =>
      if s.token then State(true, Some(c), s.stages[c := Refreshing], s.refreshes + 1)
      else s.(stages := s.stages[c := LoggingIn])
    case Granted(c) => s.(holder := None, stages := s.stages[c := Done])
    case Refused(c) => s.(holder := None, stages := s.stages[c := LoggingIn])
    case Failed(c) => s.(holder := None, stages := s.stages[c := Done])
    case LoggedIn(c, token) => s.(token := token, stages := s.stages[c := Done])
    case LoginFailed(c) => s.(stages := s.stages[c := Done])
  }

  ghost predicate Runs(s: State, steps: seq<Step>, t: State)
    decreases |steps|
  {
    if steps == [] then s == t else Enabled(s, steps[0]) && Runs(Apply(s, steps[0]), steps[1..], t)
  }

  /** `n` callers wait, a refresh token is held, and nobody refreshes. */
  function Burst(n: nat): State { State(true, None, seq(n, _ => Waiting), 0) }

  predicate AllDone(s: State) { forall stage <- s.stages :: stage.Done? }

  /** No login of the run loses the refresh token. */
  predicate KeepsToken(steps: seq<Step>) { forall step <- steps :: step.LoggedIn? ==> step.token }

  // ---------- one refresh at a time ----------

  ghost predicate Exclusive(s: State) { forall c: nat :: At(s, c, Refreshing) <==> s.holder == Some(c) }

  /** Never two refreshes at once: whoever has one under way holds the lock. */
  lemma {:induction false} OneAtATime(s: State, steps: seq<Step>, t: State)
    requires Exclusive(s) && Runs(s, steps, t)
    ensures Exclusive(t)
    decreases |steps|
  {
    if steps != [] {
      OneAtATime(Apply(s, steps[0]), steps[1..], t);
    }
  }

  // ---------- but one for every caller ----------

  function Entered(stages: seq<Stage>): nat {
    if stages == [] then 0 else Entered(stages[..|stages| - 1]) + if stages[|stages| - 1].Waiting? then 0 else 1
  }

  lemma {:induction false} EnteredUpdate(stages: seq<Stage>, c: nat, stage: Stage)
    requires c < |stages| && !stage.Waiting?
    ensures Entered(stages[c := stage]) == Entered(stages) + if stages[c].Waiting? then 1 else 0
  {
    var init := stages[..|stages| - 1];
    if c < |init| {
      EnteredUpdate(init, c, stage);
      assert stages[c := stage][..|init|] == init[c := stage];
    } else {
      assert stages[c := stage][..|init|] == init;
    }
  }

  lemma {:induction false} EnteredBounds(stages: seq<Stage>)
    ensures Entered(stages) <= |stages|
    ensures (forall stage <- stages :: !stage.Waiting?) ==> Entered(stages) == |stages|
    ensures (forall stage <- stages :: stage.Waiting?) ==> Entered(stages) == 0
  {
    if stages != [] {
      var init := stages[..|stages| - 1];
      assert forall stage <- init :: stage in stages;
      assert stages[|stages| - 1] in stages;
      EnteredBounds(init);
    }
  }

  /** Nothing is checked again after the lock is taken: as long as no login loses the token, every caller
      that has entered has made its own refresh. */
  lemma {:induction false} OneRefreshEach(s: State, steps: seq<Step>, t: State)
    requires Runs(s, steps, t) && s.token && KeepsToken(steps) && s.refreshes == Entered(s.stages)
    ensures t.token && t.refreshes == Entered(t.stages) && |t.stages| == |s.stages|
    decreases |steps|
  {
    if steps != [] {
      var step := steps[0];
      assert step in steps && forall x <- steps[1..] :: x in steps;
      EnteredUpdate(s.stages, step.caller, Apply(s, step).stages[step.caller]);
      OneRefreshEach(Apply(s, step), steps[1..], t);
    }
  }

  /** Whatever the logins bring, no caller refreshes twice. */
  lemma {:induction false} AtMostOneEach(s: State, steps: seq<Step>, t: State)
    requires Runs(s, steps, t) && s.refreshes <= Entered(s.stages)
    ensures t.refreshes <= Entered(t.stages) <= |s.stages|
    decreases |steps|
  {
    EnteredBounds(t.stages);
    if steps != [] {
      var step := steps[0];
      EnteredUpdate(s.stages, step.caller, Apply(s, step).stages[step.caller]);
      AtMostOneEach(Apply(s, step), steps[1..], t);
    }
  }

  /** A burst of n calls makes n refreshes, in every interleaving that finishes and loses no token. */
  lemma BurstRefreshes(n: nat, steps: seq<Step>, t: State)
    requires Runs(Burst(n), steps, t) && AllDone(t) && KeepsToken(steps)
    ensures t.refreshes == n
  {
    hide Entered, Runs;
    EnteredBounds(Burst(n).stages);
    OneRefreshEach(Burst(n), steps, t);
    EnteredBounds(t.stages);
  }

  predicate IsLogin(step: Step, caller: nat) { step.caller == caller && (step.LoggedIn? || step.LoginFailed?) }

  ghost predicate LogsIn(steps: seq<Step>, caller: nat) { exists step <- steps :: IsLogin(step, caller) }

  /** Nor does the burst share a login: a caller that is done has made one of its own exactly when its own
      refresh was refused, or when it was at its login to begin with. */
  lemma {:induction false} LogsInIff(s: State, steps: seq<Step>, t: State, caller: nat)
    requires Runs(s, steps, t) && s.token && KeepsToken(steps) && At(t, caller, Done)
    ensures caller < |s.stages|
    ensures LogsIn(steps, caller) <==> s.stages[caller] == LoggingIn || Refused(caller) in steps
    decreases |steps|
  {
    if steps != [] {
      var first, rest := steps[0], steps[1..];
      assert first in steps && forall x <- rest :: x in steps;
      LogsInIff(Apply(s, first), rest, t, caller);
      assert steps == [first] + rest;
      DoneForGood(s, steps, t, caller);
    }
  }

  /** A caller that is done takes no further step, and one that has entered is not waiting again. */
  lemma {:induction false} DoneForGood(s: State, steps: seq<Step>, t: State, caller: nat)
    requires Runs(s, steps, t) && caller < |s.stages|
    ensures s.stages[caller] == Done ==> forall step <- steps :: step.caller != caller
    ensures s.stages[caller] == LoggingIn ==> Refused(caller) !in steps
    decreases |steps|
  {
    if steps != [] {
      DoneForGood(Apply(s, steps[0]), steps[1..], t, caller);
      assert steps == [steps[0]] + steps[1..];
    }
  }

  // ---------- the promise of one refresh ----------

  /** The first `k` callers are done, one after the other, each refresh granted. */
  function Served(n: nat, k: nat): State
    requires k <= n
  {
    State(true, None, seq(k, _ => Done) + seq(n - k, _ => Waiting), k)
  }

  lemma {:induction false} InTurn(n: nat, k: nat) returns (steps: seq<Step>)
    requires k <= n
    ensures Runs(Served(n, k), steps, Served(n, n)) && KeepsToken(steps)
    decreases n - k
  {
    if k == n {
      steps := [];
    } else {
      var rest := InTurn(n, k + 1);
      var s := Served(n, k);
      var u := Apply(s, Enter(k));
      assert Apply(u, Granted(k)) == Served(n, k + 1);
      steps := [Enter(k), Granted(k)] + rest;
      assert steps[1..] == [Granted(k)] + rest && steps[1..][1..] == rest;
      assert steps[1..][0] == Granted(k);
    }
  }

  ghost predicate AtMostOneRefresh(n: nat, steps: seq<Step>, t: State) {
    Runs(Burst(n), steps, t) && AllDone(t) ==> t.refreshes <= 1
  }

  /** So the lock gives one refresh for a burst exactly when the burst is of one call. */
  lemma OneRefreshIff(n: nat)
    ensures (forall steps, t :: AtMostOneRefresh(n, steps, t)) <==> n <= 1
  {
    if n <= 1 {
      forall steps, t
        ensures AtMostOneRefresh(n, steps, t)
      {
        if Runs(Burst(n), steps, t) {
          EnteredBounds(Burst(n).stages);
          AtMostOneEach(Burst(n), steps, t);
        }
      }
    } else {
      var steps := InTurn(n, 0);
      assert Served(n, 0) == Burst(n);
      BurstRefreshes(n, steps, Served(n, n));
      assert !AtMostOneRefresh(n, steps, Served(n, n));
    }
  }
}
