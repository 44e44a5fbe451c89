/**
 The debouncer (pkg/debounce/debounce.go): two atomic flags, any number of callers, one routine.

 Every atomic operation is one step. A schedule is any sequence of steps; a step whose actor is not
 at that point does nothing, so the theorems range over all interleavings.
 */
module Debounce {

  type Caller = int

  /** What a call of Debounce still has to do. */
  datatype CallerPC = Stored | Won

  datatype RoutinePC =
    | Sleeping    // about to clear calledDuringExecution
    | Cleared     // about to start the function
    | Running     // inside the function
    | Deciding    // the function returned nil, about to compare-and-swap
    | Stopping    // the compare-and-swap failed, about to clear scheduled

  /** What happened, in order. */
  datatype Event =
    | Requested(caller: Caller)   // calledDuringExecution.Store(true) in Debounce
    | FlagCleared                 // calledDuringExecution.Store(false) in the routine
    | RunStarted                  // the function is called
    | RunFailed                   // it returns an error
    | RunSucceeded                // it returns nil
    | GoesOn                      // the routine's compare-and-swap succeeds
    | Quit                        // it fails
    | Stopped                     // scheduled.Store(false)

  datatype State = State(
    scheduled: bool,
    called: bool,
    callers: map<Caller, CallerPC>,
    routines: seq<RoutinePC>,
    log: seq<Event>)

  const INITIAL := State(false, false, map[], [], [])

  datatype Step =
    | Store(caller: Caller)       // Debounce: calledDuringExecution := true
    | TrySchedule(caller: Caller) // Debounce: compare-and-swap on scheduled
    | Spawn(caller: Caller)       // Debounce: go debounceRoutine
    | Clear(routine: nat)
    | Start(routine: nat)
    | Fail(routine: nat)          // the function returns an error: sleep and try again
    | Succeed(routine: nat)
    | Decide(routine: nat)        // compare-and-swap on calledDuringExecution
    | Stop(routine: nat)

  predicate At(s: State, r: nat, pc: RoutinePC) {
    r < |s.routines| && s.routines[r] == pc
  }

  function Next(s: State, step: Step): State {
    match step
    case Store(c) =>
      if c in s.callers then s
      else s.(called := true, callers := s.callers[c := Stored], log := s.log + [Requested(c)])
    case TrySchedule(c) =>
      if c !in s.callers || s.callers[c] != Stored then s
      else if !s.scheduled then s.(scheduled := true, callers := s.callers[c := Won])
      else s.(callers := s.callers - {c})
    case Spawn(c) =>
      if c !in s.callers || s.callers[c] != Won then s
      else s.(callers := s.callers - {c}, routines := s.routines + [Sleeping])
    case Clear(r) =>
      if !At(s, r, Sleeping) then s else s.(called := false, routines := s.routines[r := Cleared], log := s.log + [FlagCleared])
    case Start(r) =>
      if !At(s, r, Cleared) then s else s.(routines := s.routines[r := Running], log := s.log + [RunStarted])
    case Fail(r) =>
      if !At(s, r, Running) then s else s.(routines := s.routines[r := Sleeping], log := s.log + [RunFailed])
    case Succeed(r) =>
      if !At(s, r, Running) then s else s.(routines := s.routines[r := Deciding], log := s.log + [RunSucceeded])
    case Decide(r) =>
      if !At(s, r, Deciding) then s
      else if s.called then s.(called := false, routines := s.routines[r := Sleeping], log := s.log + [GoesOn])
      else s.(routines := s.routines[r := Stopping], log := s.log + [Quit])
    case Stop(r) =>
      if !At(s, r, Stopping) then s
      else s.(scheduled := false, routines := s.routines[..r] + s.routines[r + 1..], log := s.log + [Stopped])
  }

  function Execute(s: State, steps: seq<Step>): State
    decreases |steps|
  {
    if steps == [] then s else Execute(Next(s, steps[0]), steps[1..])
  }

  /** The request at position i was followed by a run that started after it. */
  ghost predicate ServedAt(log: seq<Event>, i: nat) {
    exists j :: i < j < |log| && log[j] == RunStarted
  }

  /** The run that starts at j ends well at k. */
  predicate GoodRun(log: seq<Event>, j: nat, k: nat) {
    j < k < |log| && log[j] == RunStarted && log[k] == RunSucceeded && forall m :: j < m < k ==> log[m].Requested?
  }

  /** The request at position i was followed by a run that started after it and succeeded before position n. */
  ghost predicate DoneBy(log: seq<Event>, i: nat, n: nat) {
    exists j, k :: i < j < k < n && GoodRun(log, j, k)
  }

  ghost predicate Unserved(log: seq<Event>) {
    exists i :: 0 <= i < |log| && log[i].Requested? && !ServedAt(log, i)
  }

  // ---- The invariant ----

  ghost predicate NoWinner(s: State) {
    forall c :: c in s.callers ==> s.callers[c] != Won
  }

  ghost predicate SoleWinner(s: State, c: Caller) {
    c in s.callers && s.callers[c] == Won && forall d :: d in s.callers && s.callers[d] == Won ==> d == c
  }

  /** scheduled is a lock: one winning caller or one live routine holds it, or nobody. */
  ghost predicate OneOwner(s: State) {
    if !s.scheduled then s.routines == [] && NoWinner(s)
    else if s.routines == [] then exists c :: SoleWinner(s, c)
    else |s.routines| == 1 && NoWinner(s)
  }

  /** What the flag knows about unserved requests, by where the routine is. */
  ghost predicate FlagTracks(s: State) {
    if s.routines == [] || s.routines[0] == Stopping then s.called <==> Unserved(s.log)
    else if s.routines[0] == Running || s.routines[0] == Deciding then Unserved(s.log) ==> s.called
    else true
  }

  /** Every request before a routine's failed compare-and-swap was served before it. */
  ghost predicate ServedBeforeQuit(log: seq<Event>) {
    forall i, q :: 0 <= i < q < |log| && log[i].Requested? && log[q] == Quit ==>
      exists j :: i < j < q && log[j] == RunStarted
  }

  /** A routine quits right after a run that succeeded. */
  ghost predicate QuitsAfterSuccess(log: seq<Event>) {
    forall q :: 0 <= q < |log| && log[q] == Quit ==> q >= 2 && log[q - 1] == RunSucceeded && log[q - 2] == RunStarted
  }

  /** Unless it was called meanwhile, the routine's run is the last thing that happened. */
  ghost predicate RunIsLatest(s: State) {
    var n := |s.log|;
    && (At(s, 0, Running) && !s.called ==> n >= 1 && s.log[n - 1] == RunStarted)
    && (At(s, 0, Deciding) && !s.called ==> n >= 2 && s.log[n - 1] == RunSucceeded && s.log[n - 2] == RunStarted)
  }

  /** A request was made after the flag was last cleared before position n. */
  ghost predicate AskedSinceClear(log: seq<Event>, n: nat) {
    exists c, i :: 0 <= c < i < n <= |log| && log[c] == FlagCleared && log[i].Requested?
                   && forall m :: c < m < n ==> log[m] != FlagCleared
  }

  /** A routine goes on after a success only because it was asked to. */
  ghost predicate GoesOnAsked(log: seq<Event>) {
    forall a :: 0 <= a < |log| && log[a] == GoesOn ==> AskedSinceClear(log, a)
  }

  /** Once the routine has cleared the flag, a set flag means that a request came later. */
  ghost predicate FlagIsRecent(s: State) {
    && (At(s, 0, Cleared) || At(s, 0, Running) || At(s, 0, Deciding) ==> ClearedBefore(s.log) && (s.called ==> AskedSinceClear(s.log, |s.log|)))
  }

  ghost predicate ClearedBefore(log: seq<Event>) {
    exists c :: 0 <= c < |log| && log[c] == FlagCleared && forall m :: c < m < |log| ==> log[m] != FlagCleared
  }

  /** Between the quit at q and position k there are requests only. */
  ghost predicate QuitSince(log: seq<Event>, q: nat, k: nat) {
    q < k <= |log| && log[q] == Quit && forall j :: q < j < k ==> log[j].Requested?
  }

  ghost predicate StopsFollowQuits(s: State) {
    && (forall k :: 0 <= k < |s.log| && s.log[k] == Stopped ==> exists q :: QuitSince(s.log, q, k))
    && (At(s, 0, Stopping) ==> exists q :: QuitSince(s.log, q, |s.log|))
  }

  /** While nobody holds the lock, a request with no stop after it still has its call in flight. */
  ghost predicate RecentInFlight(s: State) {
    !s.scheduled ==>
      forall i :: 0 <= i < |s.log| && s.log[i].Requested? ==>
        s.log[i].caller in s.callers || exists k :: i < k < |s.log| && s.log[k] == Stopped
  }

  /** Once the routine has looked at the flag for the last time, every run has a quit after it. */
  ghost predicate RunsQuit(s: State) {
    s.routines == [] || s.routines[0] == Stopping ==>
      forall j :: 0 <= j < |s.log| && s.log[j] == RunStarted ==> exists q :: j < q < |s.log| && s.log[q] == Quit
  }

  ghost predicate Core(s: State) {
    OneOwner(s) && FlagTracks(s) && ServedBeforeQuit(s.log) && StopsFollowQuits(s) && RecentInFlight(s) && RunsQuit(s)
  }

  ghost predicate Invariant(s: State) {
    Core(s) && QuitsAfterSuccess(s.log) && RunIsLatest(s) && GoesOnAsked(s.log) && FlagIsRecent(s)
  }

  // ---- Preservation ----

  lemma LogRequest(log: seq<Event>, c: Caller)
    ensures Unserved(log + [Requested(c)])
  {
    var more := log + [Requested(c)];
    assert more[|log|].Requested? && !ServedAt(more, |log|);
  }

  lemma LogStart(log: seq<Event>)
    ensures !Unserved(log + [RunStarted])
  {
    var more := log + [RunStarted];
    forall i | 0 <= i < |more| && more[i].Requested? ensures ServedAt(more, i) {
      assert more[|log|] == RunStarted;
    }
  }

  lemma LogOther(log: seq<Event>, e: Event)
    requires !e.Requested? && e != RunStarted
    ensures Unserved(log + [e]) <==> Unserved(log)
  {
    var more := log + [e];
    forall i | 0 <= i < |log| ensures ServedAt(more, i) <==> ServedAt(log, i) {
      if ServedAt(log, i) {
        var j :| i < j < |log| && log[j] == RunStarted;
        assert more[j] == RunStarted;
      }
    }
    if Unserved(log) {
      var i :| 0 <= i < |log| && log[i].Requested? && !ServedAt(log, i);
      assert more[i].Requested? && !ServedAt(more, i);
    }
  }

  /** Appending an event keeps what the log says about its past. */
  lemma LogGrows(log: seq<Event>, e: Event)
    requires ServedBeforeQuit(log) && (e == Quit ==> !Unserved(log))
    ensures ServedBeforeQuit(log + [e])
    ensures forall q, k :: QuitSince(log, q, k) ==> QuitSince(log + [e], q, k)
  {
    var more := log + [e];
    forall i, q | 0 <= i < q < |more| && more[i].Requested? && more[q] == Quit
      ensures exists j :: i < j < q && more[j] == RunStarted
    {
      if q < |log| {
        var j :| i < j < q && log[j] == RunStarted;
        assert more[j] == RunStarted;
      } else {
        assert ServedAt(log, i);
        var j :| i < j < |log| && log[j] == RunStarted;
        assert more[j] == RunStarted;
      }
    }
  }

  /** Another event than a run keeps the quits behind the runs. */
  lemma RunsStillQuit(s: State, n: State, e: Event)
    requires RunsQuit(s) && n.log == s.log + [e] && e != RunStarted
    requires e == Quit || s.routines == [] || s.routines[0] == Stopping
    ensures RunsQuit(n)
  {
    forall j | 0 <= j < |n.log| && n.log[j] == RunStarted ensures exists q :: j < q < |n.log| && n.log[q] == Quit {
      if e == Quit {
        assert n.log[|s.log|] == Quit;
      } else {
        var q :| j < q < |s.log| && s.log[q] == Quit;
        assert n.log[q] == Quit;
      }
    }
  }

  lemma StoreStep(s: State, c: Caller)
    requires Core(s) && c !in s.callers
    ensures Core(Next(s, Store(c)))
  {
    var n := Next(s, Store(c));
    LogRequest(s.log, c);
    LogGrows(s.log, Requested(c));
    StoreOwner(s, c);
    StoreStops(s, c);
    StoreInFlight(s, c);
    StoreRunsQuit(s, c);
    hide OneOwner;
    hide RecentInFlight;
    hide RunsQuit;
    hide StopsFollowQuits;
    hide ServedBeforeQuit;
    hide QuitSince;
    hide Unserved;
  }

  lemma StoreOwner(s: State, c: Caller)
    requires OneOwner(s) && c !in s.callers
    ensures OneOwner(Next(s, Store(c)))
  {
    assert forall d :: SoleWinner(s, d) ==> SoleWinner(Next(s, Store(c)), d);
  }

  lemma StoreStops(s: State, c: Caller)
    requires ServedBeforeQuit(s.log) && StopsFollowQuits(s) && c !in s.callers
    ensures StopsFollowQuits(Next(s, Store(c)))
  {
    var n := Next(s, Store(c));
    LogGrows(s.log, Requested(c));
    if At(s, 0, Stopping) {
      var q: nat :| QuitSince(s.log, q, |s.log|);
      assert QuitSince(n.log, q, |n.log|);
    }
  }

  lemma StoreRunsQuit(s: State, c: Caller)
    requires RunsQuit(s) && c !in s.callers
    ensures RunsQuit(Next(s, Store(c)))
  {
    if s.routines == [] || s.routines[0] == Stopping {
      RunsStillQuit(s, Next(s, Store(c)), Requested(c));
    }
  }

  lemma StoreInFlight(s: State, c: Caller)
    requires RecentInFlight(s) && c !in s.callers
    ensures RecentInFlight(Next(s, Store(c)))
  {
    var n := Next(s, Store(c));
    if !s.scheduled {
      forall i | 0 <= i < |n.log| && n.log[i].Requested?
        ensures n.log[i].caller in n.callers || exists k :: i < k < |n.log| && n.log[k] == Stopped
      {
        if i < |s.log| && s.log[i].caller !in s.callers {
          var k :| i < k < |s.log| && s.log[k] == Stopped;
          assert n.log[k] == Stopped;
        }
      }
    }
  }

  lemma TryScheduleStep(s: State, c: Caller)
    requires Core(s) && c in s.callers && s.callers[c] == Stored
    ensures Core(Next(s, TrySchedule(c)))
  {
    var n := Next(s, TrySchedule(c));
    if !s.scheduled {
      assert SoleWinner(n, c);
    } else {
      assert forall d :: SoleWinner(s, d) ==> SoleWinner(n, d);
    }
  }

  lemma SpawnStep(s: State, c: Caller)
    requires Core(s) && c in s.callers && s.callers[c] == Won
    ensures Core(Next(s, Spawn(c)))
  {
    assert s.routines == [] && SoleWinner(s, c);
  }

  lemma CallerStep(s: State, step: Step)
    requires Core(s) && (step.Store? || step.TrySchedule? || step.Spawn?)
    ensures Core(Next(s, step))
  {
    hide Core;
    if Next(s, step) != s {
      match step
      case Store(c) => StoreStep(s, c);
      case TrySchedule(c) => TryScheduleStep(s, c);
      case Spawn(c) => SpawnStep(s, c);
    }
  }

  /** The function returning changes nothing but where the routine is. */
  lemma ReturnStep(s: State, step: Step)
    requires Core(s) && (step.Fail? || step.Succeed?)
    ensures Core(Next(s, step))
  {
    var n := Next(s, step);
    if n != s {
      var e := n.log[|s.log|];
      LogOther(s.log, e);
      LogGrows(s.log, e);
    }
  }

  lemma RoutineStep(s: State, step: Step)
    requires Core(s) && (step.Clear? || step.Start? || step.Decide? || step.Stop?)
    ensures Core(Next(s, step))
  {
    var n := Next(s, step);
    if n != s {
      match step
      case Clear(r) =>
        LogOther(s.log, FlagCleared);
        LogGrows(s.log, FlagCleared);
      case Start(r) =>
        LogStart(s.log);
        LogGrows(s.log, RunStarted);
      case Decide(r) =>
        if s.called {
          LogOther(s.log, GoesOn);
          LogGrows(s.log, GoesOn);
        } else {
          LogOther(s.log, Quit);
          LogGrows(s.log, Quit);
          assert QuitSince(n.log, |s.log|, |n.log|);
          RunsStillQuit(s, n, Quit);
        }
      case Stop(r) =>
        LogOther(s.log, Stopped);
        LogGrows(s.log, Stopped);
        assert n.log[|s.log|] == Stopped;
        RunsStillQuit(s, n, Stopped);
    }
  }

  lemma QuitsStay(log: seq<Event>, e: Event)
    requires QuitsAfterSuccess(log)
    requires e == Quit ==> |log| >= 2 && log[|log| - 1] == RunSucceeded && log[|log| - 2] == RunStarted
    ensures QuitsAfterSuccess(log + [e])
  {
  }

  /** A quit comes right after a run that succeeded, step by step. */
  lemma SuccessStep(s: State, step: Step)
    requires |s.routines| <= 1 && QuitsAfterSuccess(s.log) && RunIsLatest(s)
    ensures QuitsAfterSuccess(Next(s, step).log)
  {
    var n := Next(s, step);
    if n.log != s.log {
      QuitsStay(s.log, n.log[|s.log|]);
    }
    hide QuitsAfterSuccess;
  }

  lemma LatestStep(s: State, step: Step)
    requires |s.routines| <= 1 && RunIsLatest(s)
    ensures RunIsLatest(Next(s, step))
  {
  }

  lemma AskedStays(log: seq<Event>, e: Event, n: nat)
    requires n <= |log| && AskedSinceClear(log, n)
    ensures AskedSinceClear(log + [e], n)
    ensures n == |log| && e != FlagCleared ==> AskedSinceClear(log + [e], n + 1)
  {
    var more := log + [e];
    var c, i :| 0 <= c < i < n && log[c] == FlagCleared && log[i].Requested? && forall m :: c < m < n ==> log[m] != FlagCleared;
    assert more[c] == FlagCleared && more[i].Requested?;
  }

  lemma ClearedStays(log: seq<Event>, e: Event)
    requires e == FlagCleared || ClearedBefore(log)
    ensures ClearedBefore(log + [e])
    ensures e.Requested? ==> AskedSinceClear(log + [e], |log| + 1)
  {
    var more := log + [e];
    if e == FlagCleared {
      assert more[|log|] == FlagCleared;
    } else {
      var c :| 0 <= c < |log| && log[c] == FlagCleared && forall m :: c < m < |log| ==> log[m] != FlagCleared;
      assert more[c] == FlagCleared && more[|log|] == e;
    }
  }

  lemma AskedGrows(log: seq<Event>, e: Event)
    requires GoesOnAsked(log) && (e == GoesOn ==> AskedSinceClear(log, |log|))
    ensures GoesOnAsked(log + [e])
  {
    hide AskedSinceClear;
    forall a | 0 <= a < |log + [e]| && (log + [e])[a] == GoesOn ensures AskedSinceClear(log + [e], a) {
      if a < |log| {
        assert log[a] == GoesOn;
      }
      AskedStays(log, e, a);
    }
  }

  /** A routine goes on only when asked, step by step. */
  lemma AskedStep(s: State, step: Step)
    requires |s.routines| <= 1 && GoesOnAsked(s.log) && FlagIsRecent(s)
    ensures GoesOnAsked(Next(s, step).log) && FlagIsRecent(Next(s, step))
  {
    hide GoesOnAsked;
    hide AskedSinceClear;
    hide ClearedBefore;
    var n := Next(s, step);
    if n.log != s.log {
      var e := n.log[|s.log|];
      assert n.log == s.log + [e];
      AskedGrows(s.log, e);
      if AskedSinceClear(s.log, |s.log|) {
        AskedStays(s.log, e, |s.log|);
      }
      if e == FlagCleared || ClearedBefore(s.log) {
        ClearedStays(s.log, e);
      }
    }
  }

  lemma {:induction false} ExecutePreserves(s: State, steps: seq<Step>)
    requires Invariant(s)
    ensures Invariant(Execute(s, steps))
    decreases |steps|
  {
    if steps != [] {
      SuccessStep(s, steps[0]);
      LatestStep(s, steps[0]);
      AskedStep(s, steps[0]);
      hide GoesOnAsked;
      hide FlagIsRecent;
      hide Core;
      hide QuitsAfterSuccess;
      hide RunIsLatest;
      if steps[0].Store? || steps[0].TrySchedule? || steps[0].Spawn? {
        CallerStep(s, steps[0]);
      } else if steps[0].Fail? || steps[0].Succeed? {
        ReturnStep(s, steps[0]);
      } else {
        RoutineStep(s, steps[0]);
      }
      ExecutePreserves(Next(s, steps[0]), steps[1..]);
    }
  }

  // ---- What holds of every schedule ----

  lemma {:induction false} Reached(steps: seq<Step>)
    ensures Invariant(Execute(INITIAL, steps))
  {
    ExecutePreserves(INITIAL, steps);
    hide Execute;
  }

  /** At most one routine is ever live. */
  lemma {:induction false} AtMostOneRoutine(steps: seq<Step>)
    ensures |Execute(INITIAL, steps).routines| <= 1
  {
    Reached(steps);
  }

  /** With no routine live or about to start, the flag is set exactly when a request is unserved. */
  lemma {:induction false} FlagIsUnserved(steps: seq<Step>)
    ensures var s := Execute(INITIAL, steps);
            s.routines == [] ==> (s.called <==> Unserved(s.log))
  {
    Reached(steps);
  }

  /** Requests made before a routine's last look at the flag are followed by a run that succeeds before that look. */
  lemma {:induction false} EarlyRequestsServed(steps: seq<Step>, i: nat, q: nat)
    requires i < q < |Execute(INITIAL, steps).log|
    requires Execute(INITIAL, steps).log[i].Requested? && Execute(INITIAL, steps).log[q] == Quit
    ensures DoneBy(Execute(INITIAL, steps).log, i, q)
  {
    Reached(steps);
    hide Execute;
    hide Core;
    hide RunIsLatest;
    hide GoesOnAsked;
    hide FlagIsRecent;
    DoneBeforeQuit(Execute(INITIAL, steps).log, i, q);
  }

  lemma DoneBeforeQuit(log: seq<Event>, i: nat, q: nat)
    requires QuitsAfterSuccess(log) && i < q < |log| && log[i].Requested? && log[q] == Quit
    ensures DoneBy(log, i, q)
  {
    assert GoodRun(log, q - 2, q - 1);
  }

  /** After a success a routine runs again only if a request came after it had cleared the flag. */
  lemma {:induction false} RerunsAreAsked(steps: seq<Step>, a: nat)
    requires a < |Execute(INITIAL, steps).log| && Execute(INITIAL, steps).log[a] == GoesOn
    ensures AskedSinceClear(Execute(INITIAL, steps).log, a)
  {
    Reached(steps);
    hide Execute;
    hide Core;
    hide AskedSinceClear;
    hide FlagIsRecent;
  }

  /** A routine never quits on a failed run: the run that ended last before it did so succeeded. */
  lemma {:induction false} FailedRunsAreRetried(steps: seq<Step>, f: nat, q: nat)
    requires f < q < |Execute(INITIAL, steps).log|
    requires Execute(INITIAL, steps).log[f] == RunFailed && Execute(INITIAL, steps).log[q] == Quit
    ensures exists j, k :: f < j < k < q && GoodRun(Execute(INITIAL, steps).log, j, k)
  {
    Reached(steps);
    hide Execute;
    hide Core;
    hide RunIsLatest;
    hide GoesOnAsked;
    hide FlagIsRecent;
    var log := Execute(INITIAL, steps).log;
    assert GoodRun(log, q - 2, q - 1);
  }

  predicate Quiescent(s: State) {
    s.routines == [] && s.callers == map[]
  }

  ghost predicate LastQuit(log: seq<Event>, q: nat) {
    q < |log| && log[q] == Quit && forall j :: q < j < |log| ==> log[j] != Quit
  }

  /** Position i lies between the last quit of the log and the stop that follows it. */
  ghost predicate InWindow(log: seq<Event>, i: nat) {
    exists q: nat, k: nat :: LastQuit(log, q) && q < i < k < |log| && log[k] == Stopped && forall j :: q < j < k ==> log[j] != Stopped
  }

  /**
   The promise that a request is followed by a run fails in exactly one way: in a quiescent state a
   request is unserved if and only if it was made in the window between the last failed
   compare-and-swap of a routine and its clearing of scheduled.
   */
  lemma {:induction false} UnservedExactlyInWindow(steps: seq<Step>, i: nat)
    requires Quiescent(Execute(INITIAL, steps))
    requires i < |Execute(INITIAL, steps).log| && Execute(INITIAL, steps).log[i].Requested?
    ensures !ServedAt(Execute(INITIAL, steps).log, i) <==> InWindow(Execute(INITIAL, steps).log, i)
    ensures !DoneBy(Execute(INITIAL, steps).log, i, |Execute(INITIAL, steps).log|) <==> InWindow(Execute(INITIAL, steps).log, i)
  {
    Reached(steps);
    var s := Execute(INITIAL, steps);
    if !ServedAt(s.log, i) {
      UnservedIsInWindow(s, i);
    }
    if InWindow(s.log, i) {
      InWindowIsUnserved(s, i);
    }
    ServedIsDone(s, i);
  }

  lemma ServedIsDone(s: State, i: nat)
    requires Invariant(s) && Quiescent(s) && i < |s.log| && s.log[i].Requested?
    ensures ServedAt(s.log, i) <==> DoneBy(s.log, i, |s.log|)
  {
    if ServedAt(s.log, i) {
      var j :| i < j < |s.log| && s.log[j] == RunStarted;
      var q :| j < q < |s.log| && s.log[q] == Quit;
      DoneBeforeQuit(s.log, i, q);
    }
  }

  lemma UnservedIsInWindow(s: State, i: nat)
    requires Invariant(s) && Quiescent(s) && i < |s.log| && s.log[i].Requested? && !ServedAt(s.log, i)
    ensures InWindow(s.log, i)
  {
    hide FlagTracks;
    assert s.log[i].caller !in s.callers;
    var k :| i < k < |s.log| && s.log[k] == Stopped;
    var q: nat :| QuitSince(s.log, q, k);
    forall j | i < j < |s.log| ensures s.log[j] != Quit {
      NoQuitAfterUnserved(s.log, i, j);
    }
    assert LastQuit(s.log, q) && q < i;
  }

  lemma NoQuitAfterUnserved(log: seq<Event>, i: nat, j: nat)
    requires ServedBeforeQuit(log) && i < j < |log| && log[i].Requested? && !ServedAt(log, i)
    ensures log[j] != Quit
  {
  }

  lemma InWindowIsUnserved(s: State, i: nat)
    requires Invariant(s) && Quiescent(s) && InWindow(s.log, i)
    ensures !ServedAt(s.log, i)
  {
    var q: nat, k: nat :| LastQuit(s.log, q) && q < i < k < |s.log| && s.log[k] == Stopped;
  }

  lemma {:induction false} ExecuteThen(s: State, steps: seq<Step>, step: Step)
    ensures Execute(s, steps + [step]) == Next(Execute(s, steps), step)
    decreases |steps|
  {
    if steps == [] {
      assert [step][1..] == [];
    } else {
      assert (steps + [step])[1..] == steps[1..] + [step];
      ExecuteThen(Next(s, steps[0]), steps[1..], step);
    }
  }

  /** The window is real: this schedule of two callers ends quiescent with a request unserved. */
  lemma WindowIsReachable() returns (steps: seq<Step>)
    ensures Quiescent(Execute(INITIAL, steps)) && Unserved(Execute(INITIAL, steps).log)
  {
    var log := [Requested(1), FlagCleared, RunStarted, RunSucceeded, Quit, Requested(2), Stopped];
    steps := [];
    steps := Then(steps, Store(1), State(false, true, map[1 := Stored], [], log[..1]));
    steps := Then(steps, TrySchedule(1), State(true, true, map[1 := Won], [], log[..1]));
    steps := Then(steps, Spawn(1), State(true, true, map[], [Sleeping], log[..1]));
    steps := Then(steps, Clear(0), State(true, false, map[], [Cleared], log[..2]));
    steps := Then(steps, Start(0), State(true, false, map[], [Running], log[..3]));
    steps := Then(steps, Succeed(0), State(true, false, map[], [Deciding], log[..4]));
    steps := Then(steps, Decide(0), State(true, false, map[], [Stopping], log[..5]));
    steps := Then(steps, Store(2), State(true, true, map[2 := Stored], [Stopping], log[..6]));
    steps := Then(steps, TrySchedule(2), State(true, true, map[], [Stopping], log[..6]));
    steps := Then(steps, Stop(0), State(false, true, map[], [], log));
    FlagIsUnserved(steps);
  }

  lemma Then(steps: seq<Step>, step: Step, result: State) returns (more: seq<Step>)
    requires Next(Execute(INITIAL, steps), step) == result
    ensures more == steps + [step] && Execute(INITIAL, more) == result
  {
    more := steps + [step];
    ExecuteThen(INITIAL, steps, step);
  }
}
