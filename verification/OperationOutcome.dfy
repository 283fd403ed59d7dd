/**
 What decides whether the `main` of an operation runs, and what the operation ends with: its
 conditions, its dependencies, cancellation and the error.
 */
module OperationOutcome {
  import opened Common
  import opened AsyncOperation

  // ----- what the conditions decide

  /** Some condition has reported that it is not satisfied. */
  predicate Refused(o: Operation) {
    exists i | 0 <= i < |o.results| :: o.results[i] == Some(false)
  }

  lemma ReportedRefuses(o: Operation, index: nat, satisfied: bool)
    requires CanReport(o, index)
    ensures Refused(Reported(o, index, satisfied)) <==> Refused(o) || !satisfied
  {
    var t := Reported(o, index, satisfied);
    assert t.results[index] == Some(satisfied);
    if i :| 0 <= i < |o.results| && o.results[i] == Some(false) {
      assert t.results[i] == Some(false);
    }
    if i :| 0 <= i < |t.results| && t.results[i] == Some(false) {
      assert i != index ==> o.results[i] == Some(false);
    }
  }

  /** No queued block changes what conditions reported. */
  lemma TaskRunKeepsResults(o: Operation)
    requires o.tasks != []
    ensures TaskRun(o).results == o.results
  {
    match o.tasks[0]
    case StartTask => assert TaskRun(o) == Begin(Popped(o));
    case DidEvaluate => assert TaskRun(o) == ConditionsEvaluated(Popped(o));
    case _ =>
  }

  lemma ResultsStay(o: Operation, e: Event)
    requires !(e.Report? && Enabled(o, e))
    ensures var results := Next(o, e).results;
            results == o.results || (o.state == Pending && results == seq(o.conditions, _ => None))
  {
    if e.RunTask? && o.tasks != [] {
      TaskRunKeepsResults(o);
    } else if e.CheckReadiness? {
      assert Next(o, e) == ReadinessChecked(o, e.superReady);
    } else if e.Start? && Enabled(o, e) {
      assert Next(o, e) == StartCalled(o, e.direct);
    }
  }

  /** Reports stay, and a refusal is a report. */
  lemma NextRefuses(o: Operation, e: Event)
    requires ConditionsValid(o)
    ensures Refused(o) ==> Refused(Next(o, e))
    ensures Refused(Next(o, e)) ==> Refused(o) || (e.Report? && !e.satisfied)
  {
    if e.Report? && Enabled(o, e) {
      ReportedRefuses(o, e.index, e.satisfied);
    } else {
      ResultsStay(o, e);
    }
  }

  lemma AllTrueOrRefused(o: Operation)
    requires AllReported(o.results)
    ensures AllSatisfied(o.results) <==> !Refused(o)
  {
    if i :| 0 <= i < |o.results| && o.results[i] != Some(true) {
      var r := o.results[i];
      assert r.Some? && !r.value && r == Some(false);
    }
  }

  /** What cancels an operation: a call of `cancel`, or the evaluation of a refusal. */
  lemma NextCancels(o: Operation, e: Event)
    requires ConditionsValid(o)
    ensures o.cancelled || e == Cancel ==> Next(o, e).cancelled
    ensures Next(o, e).cancelled ==> o.cancelled || e == Cancel || Refused(o)
  {
    if e.RunTask? && o.tasks != [] && o.tasks[0] == DidEvaluate {
      PoppedKeepsConditions(o);
      AllTrueOrRefused(o);
    }
  }

  /**
   In every run an operation is cancelled only by a call of `cancel` or by a condition that reported
   it is not satisfied, and a call of `cancel` always does.
   */
  lemma {:induction false} CancelledOnlyForCause(conditions: nat, events: seq<Event>)
    ensures var o := Run(Init(conditions), events);
            && (Cancel in events ==> o.cancelled)
            && (o.cancelled ==> Cancel in events || Refused(o))
            && (Refused(o) ==> exists k | 0 <= k < |events| :: events[k].Report? && !events[k].satisfied)
  {
    if events != [] {
      var before, e := Front(events), Last(events);
      var o := Run(Init(conditions), before);
      CancelledOnlyForCause(conditions, before);
      RunKeepsConditions(conditions, before);
      NextCancels(o, e);
      NextRefuses(o, e);
      assert forall x | x in events :: x in before || x == e;
      if Refused(o) {
        var k :| 0 <= k < |before| && before[k].Report? && !before[k].satisfied;
        assert events[k] == before[k];
      }
      assert events[|before|] == e;
    }
  }

  lemma {:induction false} RefusedStays(o: Operation, events: seq<Event>)
    requires StartValid(o) && ConditionsValid(o) && Refused(o)
    ensures StartValid(Run(o, events)) && ConditionsValid(Run(o, events)) && Refused(Run(o, events))
  {
    if events != [] {
      RefusedStays(o, Front(events));
      NextKeepsStart(Run(o, Front(events)), Last(events));
      NextKeepsConditions(Run(o, Front(events)), Last(events));
      NextRefuses(Run(o, Front(events)), Last(events));
    }
  }

  /** An operation that neither began nor finished, and that nothing has stopped. */
  predicate Promising(o: Operation) {
    StartValid(o) && ConditionsValid(o) && !o.cancelled && !o.begun && o.state != Finished && !Refused(o)
  }

  lemma NextKeepsPromising(o: Operation, e: Event)
    requires Promising(o) && (e.DidEnqueue? || e.CheckReadiness? || (e.Report? && e.satisfied) || e.RunTask?)
    requires e.RunTask? ==> o.state == EvaluatingConditions
    ensures Promising(Next(o, e))
  {
    NextKeepsStart(o, e);
    NextKeepsConditions(o, e);
    NextCancels(o, e);
    NextRefuses(o, e);
  }

  /** Evaluation goes on once the conditions from `k` on report, and the queue runs. */
  lemma {:induction false} EvaluationEnds(o: Operation, k: nat) returns (events: seq<Event>)
    requires Promising(o) && o.state == EvaluatingConditions && k <= |o.results|
    requires forall i | 0 <= i < k :: o.results[i].Some?
    ensures Calm(events) && Promising(Run(o, events)) && Run(o, events).state == Ready
    decreases |o.results| - k, |o.tasks|
  {
    var e := if k == |o.results| || o.results[k].Some? then RunTask else Report(k, true);
    var p := Next(o, e);
    if k < |o.results| && o.results[k].Some? {
      events := EvaluationEnds(o, k + 1);
    } else {
      NextKeepsPromising(o, e);
      EvaluationStep(o, k);
      if p.state == Ready {
        events := [e];
        assert Front(events) == [];
      } else {
        var rest := EvaluationEnds(p, if e.Report? then k + 1 else k);
        RunCons(o, e, rest);
        events := [e] + rest;
      }
    }
  }

  lemma EvaluationStep(o: Operation, k: nat)
    requires Promising(o) && o.state == EvaluatingConditions && k <= |o.results|
    requires (forall i | 0 <= i < k :: o.results[i].Some?) && (k < |o.results| ==> o.results[k].None?)
    ensures var p := Next(o, if k == |o.results| then RunTask else Report(k, true));
            && |p.results| == |o.results| && (p.state == Ready || p.state == EvaluatingConditions)
            && (k < |o.results| ==> p.state == EvaluatingConditions && forall i | 0 <= i <= k :: p.results[i].Some?)
            && (k == |o.results| ==> p.results == o.results && |p.tasks| < |o.tasks|)
  {
    if k == |o.results| {
      assert AllReported(o.results) && o.tasks != [];
      StartIsNotQueued(o);
    }
  }

  lemma StartIsNotQueued(o: Operation)
    requires StartValid(o) && !o.started && o.tasks != []
    ensures o.tasks[0] != StartTask
  {
  }

  lemma {:induction false} RunAppend(o: Operation, a: seq<Event>, b: seq<Event>)
    ensures Run(o, a + b) == Run(Run(o, a), b)
  {
    if b == [] {
      assert a + b == a;
    } else {
      RunAppend(o, a, Front(b));
      assert Front(a + b) == a + Front(b);
    }
  }

  lemma EvaluatedBecomesReady(o: Operation) returns (events: seq<Event>)
    requires Promising(o) && (o.state == EvaluatingConditions || o.state == Ready)
    ensures Calm(events) && Promising(Run(o, events)) && Run(o, events).state == Ready
  {
    events := [];
    if o.state == EvaluatingConditions {
      events := EvaluationEnds(o, 0);
    }
  }

  lemma PendingBecomesReady(o: Operation) returns (events: seq<Event>)
    requires Promising(o) && o.state == Pending
    ensures Calm(events) && Promising(Run(o, events)) && Run(o, events).state == Ready
  {
    var e := CheckReadiness(true);
    NextKeepsPromising(o, e);
    assert Next(o, e) == EvaluateConditions(o);
    var rest := EvaluatedBecomesReady(Next(o, e));
    RunCons(o, e, rest);
    events := [e] + rest;
  }

  /** Enqueueing, readiness and satisfied conditions make a promising operation ready. */
  lemma PromisingBecomesReady(o: Operation) returns (events: seq<Event>)
    requires Promising(o)
    ensures Calm(events) && Promising(Run(o, events)) && Run(o, events).state == Ready
  {
    match o.state
    case Initialized =>
      NextKeepsPromising(o, DidEnqueue);
      var rest := PendingBecomesReady(Next(o, DidEnqueue));
      RunCons(o, DidEnqueue, rest);
      events := [DidEnqueue] + rest;
    case Pending => events := PendingBecomesReady(o);
    case _ => events := EvaluatedBecomesReady(o);
  }

  /** `main` can still run, without a call of `finish` that comes too early. */
  ghost predicate CanRunMain(o: Operation) {
    exists events: seq<Event> :: FinishInTime(o, events) && Run(o, events).mainRuns > 0
  }

  lemma CalmIsInTime(o: Operation, events: seq<Event>)
    requires Calm(events)
    ensures FinishInTime(o, events)
  {
  }

  /**
   `main` can still run, exactly: in every state of every run before `main` has run or the operation
   has finished, if and only if the operation is not cancelled and no condition has refused.
   */
  lemma {:induction false} CanRunMainIff(conditions: nat, events: seq<Event>)
    requires var o := Run(Init(conditions), events); o.mainRuns == 0 && o.state != Finished
    ensures var o := Run(Init(conditions), events); CanRunMain(o) <==> !o.cancelled && !Refused(o)
  {
    var o := Run(Init(conditions), events);
    RunKeepsStart(conditions, events);
    RunKeepsConditions(conditions, events);
    MainRunsOnce(conditions, events);
    if !o.cancelled && !Refused(o) {
      var ready := PromisingBecomesReady(o);
      var start := ReadyRunsMain(Run(o, ready));
      RunAppend(o, ready, start);
      CalmIsInTime(o, ready + start);
    } else {
      NeverRunsMain(o);
    }
  }

  lemma NeverRunsMain(o: Operation)
    requires StartValid(o) && MainValid(o) && ConditionsValid(o) && o.mainRuns == 0 && o.state != Finished
    requires o.cancelled || Refused(o)
    ensures !CanRunMain(o)
  {
    forall more: seq<Event> | FinishInTime(o, more)
      ensures Run(o, more).mainRuns == 0
    {
      if o.cancelled {
        CancelledNeverRunsMain(o, more);
      } else {
        RunKeepsUnspoiled(o, more);
        RefusedStays(o, more);
      }
    }
  }

  // ----- what main waits for

  /** The queue called `start` when the dependencies were finished. */
  predicate StartedReady(events: seq<Event>) {
    Start(true, true) in events || Start(true, false) in events
  }

  /** Conditions are evaluated only once the dependencies are finished. */
  predicate Unprepared(o: Operation) {
    && o.mainRuns == 0 && o.results == [] && DidEvaluate !in o.tasks
    && (o.state.RawValue() <= Pending.RawValue() || o.begun) && (o.started ==> o.cancelled)
  }

  lemma NextKeepsUnprepared(o: Operation, e: Event)
    requires StartValid(o) && MainValid(o) && Unprepared(o) && !e.Finish? && e != CheckReadiness(true)
    ensures Unprepared(Next(o, e))
  {
    if e.RunTask? && o.tasks != [] {
      assert o.tasks[0] in o.tasks;
      assert forall task | task in o.tasks[1..] :: task in o.tasks;
      if o.tasks[0] == StartTask {
        StartIsDueOnce(o);
      }
    }
  }

  lemma StartIsDueOnce(o: Operation)
    requires StartValid(o) && o.tasks != [] && o.tasks[0] == StartTask
    ensures o.started && !o.begun
  {
  }

  lemma NextStarts(o: Operation, e: Event)
    ensures Next(o, e).started ==> o.started || (e.Start? && e.superReady)
  {
  }

  /**
   In every run without a call of `finish`, `main` runs only after the dependencies were found
   finished twice: when the conditions were evaluated, and when the queue called `start`.
   */
  lemma {:induction false} MainWaitsForDependencies(conditions: nat, events: seq<Event>)
    requires forall e | e in events :: !e.Finish?
    ensures var o := Run(Init(conditions), events);
            && (CheckReadiness(true) in events || Unprepared(o)) && (o.started ==> StartedReady(events))
            && (o.mainRuns > 0 ==> CheckReadiness(true) in events && StartedReady(events))
  {
    if events != [] {
      var before, e := Front(events), Last(events);
      var o := Run(Init(conditions), before);
      assert forall x | x in before :: x in events;
      assert e in events;
      MainWaitsForDependencies(conditions, before);
      RunKeepsStart(conditions, before);
      MainRunsOnce(conditions, before);
      NextStarts(o, e);
      if CheckReadiness(true) !in events {
        NextKeepsUnprepared(o, e);
      }
    }
    RunKeepsStart(conditions, events);
    MainRunsOnce(conditions, events);
  }

  // ----- the error

  /**
   The step that finishes an operation sets its error: that of the call of `finish`, or the
   cancellation error when `_start` finds it cancelled. No other step changes it.
   */
  lemma FinishSetsError(o: Operation, e: Event)
    ensures var t := Next(o, e);
            if o.state != Finished && t.state == Finished
            then (if e.Finish? then t.error == e.error else Begins(o, e) && o.cancelled && t.error == Some(CancelledError))
            else t.error == o.error
  {
  }

  /** With guarded calls, the first result counts: a finished operation keeps its state and error. */
  lemma {:induction false} FirstResultCounts(o: Operation, events: seq<Event>)
    requires Told(o) && o.state == Finished && GuardedRun(o, events)
    ensures Run(o, events).state == Finished && Run(o, events).error == o.error
  {
    if events != [] {
      GuardedSnoc(o, events);
      FirstResultCounts(o, Front(events));
      RunKeepsTold(o, Front(events));
      StaysFinished(Run(o, Front(events)), Last(events));
    }
  }

  lemma StaysFinished(o: Operation, e: Event)
    requires Told(o) && o.state == Finished
    ensures Next(o, e).state == Finished && Next(o, e).error == o.error
  {
    NextKeepsStart(o, e);
  }
}
