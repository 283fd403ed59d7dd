/**
 The lifecycle of one asynchronous operation.

 Every section under `operationLock` is one step, with two exceptions. `_start` on a cancelled
 operation, which gives the notice in one section and finishes in the next, is one step as a whole, and
 so is `finish`, which queues its notice just after it has released the lock. Blocks sent to the
 operation's dispatch queue, a serial queue by default, wait in `tasks` and run in order. `trace` is
 what an observer attached before the start is told. Foundation's readiness (`superReady`) is an input,
 and the operation queue calls `start` at most once, when the operation says it is ready.
 */
module AsyncOperation {
  import opened Common

  datatype State = Initialized | Pending | EvaluatingConditions | Ready | Executing | Finished
  {
    function RawValue(): nat {
      match this
      case Initialized => 0
      case Pending => 1
      case EvaluatingConditions => 2
      case Ready => 3
      case Executing => 4
      case Finished => 5
    }
  }

  datatype Error = CancelledError | OtherError(code: nat)

  datatype Task = StartTask | DidEvaluate | CancelNote | FinishNote

  datatype Notice = DidStart | DidCancel | DidFinish

  /**
   `conditions` is the number of conditions and `results` what they reported once evaluation began.
   `started`: the queue called `start`; `begun`: `_start` has run; `asserted`: an assignment of the
   state did not increase it, which trips the source's assertion.
   */
  datatype Operation = Operation(state: State, cancelled: bool, error: Option<Error>, conditions: nat,
                                 results: seq<Option<bool>>, tasks: seq<Task>, started: bool, begun: bool,
                                 trace: seq<Notice>, mainRuns: nat, asserted: bool)

  function Init(conditions: nat): Operation {
    Operation(Initialized, false, None, conditions, [], [], false, false, [], 0, false)
  }

  datatype Event =
    | DidEnqueue
    | CheckReadiness(superReady: bool)
    | Report(index: nat, satisfied: bool)      // a condition calls back
    | Start(superReady: bool, direct: bool)    // `direct`: already on the dispatch queue
    | Cancel
    | Finish(error: Option<Error>)             // `finish` called from outside
    | RunTask                                  // the dispatch queue runs its next block

  // ----- the steps

  function Assign(o: Operation, state: State): Operation {
    o.(state := state, asserted := o.asserted || !(o.state.RawValue() < state.RawValue()))
  }

  function Enqueued(o: Operation): Operation {
    if o.state == Initialized then Assign(o, Pending) else o
  }

  function EvaluateConditions(o: Operation): Operation {
    if o.conditions == 0 then Assign(o, Ready)
    else Assign(o, EvaluatingConditions).(results := seq(o.conditions, _ => None))
  }

  function ReadinessChecked(o: Operation, superReady: bool): Operation {
    if o.state == Pending && !o.cancelled && superReady then EvaluateConditions(o) else o
  }

  predicate AllReported(results: seq<Option<bool>>) {
    forall i | 0 <= i < |results| :: results[i].Some?
  }

  predicate AllSatisfied(results: seq<Option<bool>>) {
    forall i | 0 <= i < |results| :: results[i] == Some(true)
  }

  predicate CanReport(o: Operation, index: nat) {
    index < |o.results| && o.results[index].None?
  }

  function Reported(o: Operation, index: nat, satisfied: bool): Operation
    requires CanReport(o, index)
  {
    var results := o.results[index := Some(satisfied)];
    o.(results := results, tasks := if AllReported(results) then o.tasks + [DidEvaluate] else o.tasks)
  }

  function Cancelled(o: Operation): Operation {
    if o.cancelled then o
    else o.(cancelled := true, tasks := if o.state == Executing then o.tasks + [CancelNote] else o.tasks)
  }

  function ConditionsEvaluated(o: Operation): Operation {
    if o.state.RawValue() >= Ready.RawValue() then o
    else Assign(if AllSatisfied(o.results) then o else Cancelled(o), Ready)
  }

  predicate IsReady(o: Operation, superReady: bool) {
    superReady && (o.cancelled || o.state.RawValue() >= Ready.RawValue())
  }

  function FinishedWith(o: Operation, error: Option<Error>): Operation {
    if o.state == Finished then o
    else Assign(o.(error := error), Finished).(tasks := o.tasks + [FinishNote])
  }

  function Begin(o: Operation): Operation {
    var b := o.(begun := true);
    if o.cancelled then FinishedWith(b.(trace := o.trace + [DidCancel]), Some(CancelledError))
    else Assign(b, Executing).(trace := o.trace + [DidStart], mainRuns := o.mainRuns + 1)
  }

  function StartCalled(o: Operation, direct: bool): Operation {
    if direct then Begin(o.(started := true)) else o.(started := true, tasks := o.tasks + [StartTask])
  }

  function Popped(o: Operation): Operation
    requires o.tasks != []
  {
    o.(tasks := o.tasks[1..])
  }

  function TaskRun(o: Operation): Operation
    requires o.tasks != []
  {
    match o.tasks[0]
    case StartTask => Begin(Popped(o))
    case DidEvaluate => ConditionsEvaluated(Popped(o))
    case CancelNote => Popped(o).(trace := o.trace + [DidCancel])
    case FinishNote => Popped(o).(trace := o.trace + [DidFinish])
  }

  predicate Enabled(o: Operation, e: Event) {
    match e
    case Report(index, _) => CanReport(o, index)
    case Start(superReady, _) => !o.started && IsReady(o, superReady)
    case RunTask => o.tasks != []
    case _ => true
  }

  /** One step; an event that cannot happen in `o` changes nothing. */
  function Next(o: Operation, e: Event): Operation {
    if !Enabled(o, e) then o
    else match e
      case DidEnqueue => Enqueued(o)
      case CheckReadiness(superReady) => ReadinessChecked(o, superReady)
      case Report(index, satisfied) => Reported(o, index, satisfied)
      case Start(_, direct) => StartCalled(o, direct)
      case Cancel => Cancelled(o)
      case Finish(error) => FinishedWith(o, error)
      case RunTask => TaskRun(o)
  }

  function Run(o: Operation, events: seq<Event>): Operation {
    if events == [] then o else Next(Run(o, Front(events)), Last(events))
  }

  // ----- the tasks in the queue

  /** The notice a block gives, in an operation that is then cancelled or not. */
  function Note(task: Task, cancelled: bool): seq<Notice> {
    match task
    case StartTask => if cancelled then [DidCancel] else [DidStart]
    case CancelNote => [DidCancel]
    case FinishNote => [DidFinish]
    case DidEvaluate => []
  }

  /** The notices that queued blocks give, in order. */
  function Notes(tasks: seq<Task>, cancelled: bool): seq<Notice> {
    if tasks == [] then [] else Note(tasks[0], cancelled) + Notes(tasks[1..], cancelled)
  }

  /** The number of queued `_start` blocks. */
  function Starts(tasks: seq<Task>): nat {
    if tasks == [] then 0 else Starts(tasks[1..]) + if tasks[0] == StartTask then 1 else 0
  }

  lemma {:induction false} StartsSnoc(tasks: seq<Task>, task: Task)
    ensures Starts(tasks + [task]) == Starts(tasks) + if task == StartTask then 1 else 0
  {
    if tasks != [] {
      StartsSnoc(tasks[1..], task);
      assert (tasks + [task])[1..] == tasks[1..] + [task];
    } else {
      assert (tasks + [task])[1..] == [];
    }
  }

  lemma {:induction false} NotesSnoc(tasks: seq<Task>, task: Task, cancelled: bool)
    ensures Notes(tasks + [task], cancelled) == Notes(tasks, cancelled) + Note(task, cancelled)
  {
    if tasks != [] {
      NotesSnoc(tasks[1..], task, cancelled);
      assert (tasks + [task])[1..] == tasks[1..] + [task];
    } else {
      assert (tasks + [task])[1..] == [];
    }
  }

  /** What becomes of the notices when the operation is cancelled. */
  lemma {:induction false} NotesWhenCancelled(tasks: seq<Task>)
    ensures Starts(tasks) == 0 ==> Notes(tasks, true) == Notes(tasks, false)
    ensures Notes(tasks, false) == [] ==> Notes(tasks, true) == []
    ensures Notes(tasks, false) == [DidStart] ==> Notes(tasks, true) == [DidCancel]
  {
    if tasks != [] {
      NotesWhenCancelled(tasks[1..]);
      if Notes(tasks, false) == [DidStart] {
        StartIsOnlyNotice(tasks);
      }
    }
  }

  lemma StartIsOnlyNotice(tasks: seq<Task>)
    requires tasks != [] && Notes(tasks, false) == [DidStart]
    ensures tasks[0] == DidEvaluate || (tasks[0] == StartTask && Notes(tasks[1..], false) == [])
  {
    assert tasks[0] != DidEvaluate ==> Note(tasks[0], false)[0] == Notes(tasks, false)[0];
    if tasks[0] == StartTask {
      assert Notes(tasks[1..], false) == Notes(tasks, false)[1..];
    }
  }

  // ----- when the state assertion can fail

  /** `_start` runs in this step. */
  predicate Begins(o: Operation, e: Event) {
    Enabled(o, e) && ((e.Start? && e.direct) || (e.RunTask? && o.tasks[0] == StartTask))
  }

  /** `_start` runs at most once, and nothing else makes the operation execute. */
  predicate StartValid(o: Operation) {
    && Starts(o.tasks) == (if o.started && !o.begun then 1 else 0)
    && (o.begun ==> o.started)
    && (!o.begun ==> o.state != Executing)
  }

  lemma CancelledKeepsStart(o: Operation)
    requires StartValid(o)
    ensures StartValid(Cancelled(o))
  {
    StartsSnoc(o.tasks, CancelNote);
  }

  lemma TaskRunKeepsStart(o: Operation)
    requires StartValid(o) && o.tasks != []
    ensures StartValid(TaskRun(o))
    ensures o.tasks[0] == StartTask ==> !o.begun
  {
    match o.tasks[0]
    case StartTask => StartsSnoc(o.tasks[1..], FinishNote);
    case DidEvaluate => CancelledKeepsStart(Popped(o));
    case _ =>
  }

  lemma NextKeepsStart(o: Operation, e: Event)
    requires StartValid(o)
    ensures StartValid(Next(o, e))
    ensures Begins(o, e) ==> !o.begun
  {
    if Enabled(o, e) {
      match e
      case Report(_, _) => StartsSnoc(o.tasks, DidEvaluate);
      case Start(_, _) => StartsSnoc(o.tasks, StartTask); StartsSnoc(o.tasks, FinishNote);
      case Cancel => CancelledKeepsStart(o);
      case Finish(_) => StartsSnoc(o.tasks, FinishNote);
      case RunTask => TaskRunKeepsStart(o);
      case _ =>
    }
  }

  lemma {:induction false} RunKeepsStart(conditions: nat, events: seq<Event>)
    ensures StartValid(Run(Init(conditions), events))
  {
    if events != [] {
      RunKeepsStart(conditions, Front(events));
      NextKeepsStart(Run(Init(conditions), Front(events)), Last(events));
    }
  }

  /** One step trips the assertion exactly when it begins an operation that was finished before, uncancelled. */
  lemma StepAsserts(o: Operation, e: Event)
    requires StartValid(o)
    ensures Next(o, e).asserted <==> o.asserted || (Begins(o, e) && o.state == Finished && !o.cancelled)
  {
    if Enabled(o, e) {
      match e
      case Start(_, _) => BeginAsserts(o.(started := true));
      case RunTask => TaskRunKeepsStart(o); BeginAsserts(Popped(o));
      case _ =>
    }
  }

  lemma BeginAsserts(o: Operation)
    requires o.state != Executing || o.begun
    ensures !o.begun ==> (Begin(o).asserted <==> o.asserted || (o.state == Finished && !o.cancelled))
  {
  }

  lemma StepFinishes(o: Operation, e: Event)
    ensures o.begun ==> Next(o, e).begun
    ensures !Next(o, e).begun ==> (Next(o, e).state == Finished <==> o.state == Finished || e.Finish?)
  {
  }

  predicate HasFinish(events: seq<Event>) {
    exists j | 0 <= j < |events| :: events[j].Finish?
  }

  lemma HasFinishSnoc(events: seq<Event>)
    requires events != []
    ensures HasFinish(events) <==> HasFinish(Front(events)) || Last(events).Finish?
  {
    if j :| 0 <= j < |Front(events)| && Front(events)[j].Finish? {
      assert events[j].Finish?;
    }
    if j :| 0 <= j < |events| && events[j].Finish? {
      assert j < |events| - 1 ==> Front(events)[j].Finish?;
    }
  }

  /** Before `_start` has run, only a call of `finish` finishes the operation. */
  lemma {:induction false} FinishedBeforeBegin(conditions: nat, events: seq<Event>)
    ensures var o := Run(Init(conditions), events); !o.begun ==> (o.state == Finished <==> HasFinish(events))
  {
    if events != [] {
      FinishedBeforeBegin(conditions, Front(events));
      HasFinishSnoc(events);
      StepFinishes(Run(Init(conditions), Front(events)), Last(events));
    }
  }

  /** At step `k` the operation begins, not cancelled, although `finish` was called earlier. */
  predicate BeginsAfterFinish(conditions: nat, events: seq<Event>, k: nat)
    requires k < |events|
  {
    var o := Run(Init(conditions), events[..k]);
    Begins(o, events[k]) && !o.cancelled && HasFinish(events[..k])
  }

  /**
   The state strictly increases at every assignment of a run, unless `_start` runs after `finish`
   was called and before the operation was cancelled: exactly then an assignment goes backwards.
   */
  lemma {:induction false} StateIncreasesUnless(conditions: nat, events: seq<Event>)
    ensures Run(Init(conditions), events).asserted <==>
            exists k | 0 <= k < |events| :: BeginsAfterFinish(conditions, events, k)
  {
    if events != [] {
      var n, before := |events| - 1, Front(events);
      StateIncreasesUnless(conditions, before);
      forall k | 0 <= k < n
        ensures BeginsAfterFinish(conditions, before, k) <==> BeginsAfterFinish(conditions, events, k)
      {
        assert before[..k] == events[..k];
      }
      assert events[..n] == before;
      LastStepAsserts(conditions, before, events[n]);
      assert Run(Init(conditions), events).asserted <==>
             Run(Init(conditions), before).asserted || BeginsAfterFinish(conditions, events, n);
    }
  }

  lemma LastStepAsserts(conditions: nat, before: seq<Event>, e: Event)
    ensures var o := Run(Init(conditions), before);
            Next(o, e).asserted <==> o.asserted || (Begins(o, e) && !o.cancelled && HasFinish(before))
  {
    var o := Run(Init(conditions), before);
    RunKeepsStart(conditions, before);
    FinishedBeforeBegin(conditions, before);
    StepAsserts(o, e);
    NextKeepsStart(o, e);
  }

  // ----- observers

  /** The only notices an operation gives in all: start-finish, start-cancel-finish or cancel-finish. */
  predicate CompleteTrace(trace: seq<Notice>) {
    trace == [DidStart, DidFinish] || trace == [DidStart, DidCancel, DidFinish] || trace == [DidCancel, DidFinish]
  }

  /** A beginning of one of them. */
  predicate ProperTrace(trace: seq<Notice>) {
    trace <= [DidStart, DidFinish] || trace <= [DidStart, DidCancel, DidFinish] || trace <= [DidCancel, DidFinish]
  }

  /** What observers have been told and what queued blocks, `_start` among them, tell them. */
  function Said(o: Operation): seq<Notice> {
    o.trace + Notes(o.tasks, o.cancelled)
  }

  /** What is queued before `_start` has run. */
  function Due(o: Operation): seq<Notice> {
    if !o.started then []
    else if !o.cancelled then [DidStart]
    else if o.state == Finished then [DidCancel, DidFinish]
    else [DidCancel]
  }

  /** Only a cancelled operation finishes before `_start` has run, and then behind the queued `_start`. */
  predicate TraceValid(o: Operation) {
    if !o.begun then
      && o.trace == [] && CancelNote !in o.tasks && Notes(o.tasks, o.cancelled) == Due(o)
      && (o.state == Finished ==> o.cancelled && o.started)
    else if o.state == Executing then Said(o) == if o.cancelled then [DidStart, DidCancel] else [DidStart]
    else o.state == Finished && CompleteTrace(Said(o))
  }

  /** Observers have been told properly so far, and the state never went back. */
  predicate Told(o: Operation) {
    StartValid(o) && TraceValid(o) && !o.asserted
  }

  lemma BeginKeepsTrace(o: Operation)
    requires !o.begun && o.trace == [] && (o.state == Finished ==> o.cancelled)
    requires Notes(o.tasks, o.cancelled) == if o.state == Finished then [DidFinish] else []
    ensures TraceValid(Begin(o))
  {
    NotesSnoc(o.tasks, FinishNote, o.cancelled);
  }

  lemma StartCalledKeepsTrace(o: Operation, direct: bool)
    requires StartValid(o) && TraceValid(o) && !o.started
    ensures TraceValid(StartCalled(o, direct))
  {
    if direct {
      BeginKeepsTrace(o.(started := true));
    } else {
      NotesSnoc(o.tasks, StartTask, o.cancelled);
    }
  }

  lemma CancelledKeepsTrace(o: Operation)
    requires StartValid(o) && TraceValid(o)
    ensures TraceValid(Cancelled(o))
  {
    if !o.cancelled {
      NotesWhenCancelled(o.tasks);
      NotesSnoc(o.tasks, CancelNote, true);
      assert o.trace + (Notes(o.tasks, true) + [DidCancel]) == o.trace + Notes(o.tasks, true) + [DidCancel];
    }
  }

  /**
   A call of `finish` that keeps the notices in order: it comes after `_start` has run, it is not the
   first, or it stands behind a `_start` that will find the operation cancelled.
   */
  predicate Guarded(o: Operation, e: Event) {
    e.Finish? ==> o.begun || o.state == Finished || (o.cancelled && o.started)
  }

  lemma FinishedAfterBegin(o: Operation, error: Option<Error>)
    requires TraceValid(o) && o.begun
    ensures TraceValid(FinishedWith(o, error))
  {
    NotesSnoc(o.tasks, FinishNote, o.cancelled);
    assert o.trace + (Notes(o.tasks, o.cancelled) + [DidFinish]) == Said(o) + [DidFinish];
  }

  lemma FinishedKeepsTrace(o: Operation, error: Option<Error>)
    requires StartValid(o) && TraceValid(o) && Guarded(o, Finish(error))
    ensures TraceValid(FinishedWith(o, error))
  {
    if o.begun {
      FinishedAfterBegin(o, error);
    } else {
      NotesSnoc(o.tasks, FinishNote, o.cancelled);
    }
  }

  lemma SilentHead(tasks: seq<Task>, cancelled: bool)
    requires tasks != [] && tasks[0] == DidEvaluate
    ensures Notes(tasks[1..], cancelled) == Notes(tasks, cancelled) && Starts(tasks[1..]) == Starts(tasks)
    ensures CancelNote !in tasks ==> CancelNote !in tasks[1..]
  {
    assert [] + Notes(tasks[1..], cancelled) == Notes(tasks[1..], cancelled);
  }

  lemma PoppedKeepsTrace(o: Operation)
    requires StartValid(o) && TraceValid(o) && o.tasks != [] && o.tasks[0] == DidEvaluate
    ensures StartValid(Popped(o)) && TraceValid(Popped(o))
  {
    SilentHead(o.tasks, o.cancelled);
    assert Said(Popped(o)) == Said(o);
  }

  lemma EvaluatedKeepsTrace(o: Operation)
    requires StartValid(o) && TraceValid(o)
    ensures TraceValid(ConditionsEvaluated(o))
  {
    CancelledKeepsTrace(o);
  }

  lemma StartTaskKeepsTrace(o: Operation)
    requires StartValid(o) && TraceValid(o) && o.tasks != [] && o.tasks[0] == StartTask
    ensures TraceValid(TaskRun(o))
  {
    TaskRunKeepsStart(o);
    assert Notes(o.tasks[1..], o.cancelled) == Notes(o.tasks, o.cancelled)[1..];
    BeginKeepsTrace(Popped(o));
  }

  /** Giving a queued notice changes nothing in what is said in all. */
  lemma NoteRunKeepsTrace(o: Operation)
    requires TraceValid(o) && o.tasks != [] && (o.tasks[0] == CancelNote || o.tasks[0] == FinishNote)
    ensures o.begun && TraceValid(TaskRun(o))
  {
    assert o.tasks[0] in o.tasks;
    assert Notes(o.tasks, o.cancelled)[0] == Note(o.tasks[0], o.cancelled)[0];
    assert o.trace + Note(o.tasks[0], o.cancelled) + Notes(o.tasks[1..], o.cancelled) == Said(o);
  }

  lemma TaskRunKeepsTrace(o: Operation)
    requires StartValid(o) && TraceValid(o) && o.tasks != []
    ensures TraceValid(TaskRun(o))
  {
    match o.tasks[0]
    case StartTask => StartTaskKeepsTrace(o);
    case DidEvaluate => PoppedKeepsTrace(o); EvaluatedKeepsTrace(Popped(o));
    case _ => NoteRunKeepsTrace(o);
  }

  lemma ReportedKeepsTrace(o: Operation, index: nat, satisfied: bool)
    requires TraceValid(o) && CanReport(o, index)
    ensures TraceValid(Reported(o, index, satisfied))
  {
    NotesSnoc(o.tasks, DidEvaluate, o.cancelled);
  }

  lemma PreparedKeepsTrace(o: Operation, superReady: bool)
    requires TraceValid(o)
    ensures TraceValid(Enqueued(o)) && TraceValid(ReadinessChecked(o, superReady))
  {
  }

  lemma NextKeepsTrace(o: Operation, e: Event)
    requires StartValid(o) && TraceValid(o) && Guarded(o, e)
    ensures TraceValid(Next(o, e))
  {
    if Enabled(o, e) {
      match e
      case DidEnqueue => PreparedKeepsTrace(o, true);
      case CheckReadiness(superReady) => PreparedKeepsTrace(o, superReady);
      case Report(index, satisfied) => ReportedKeepsTrace(o, index, satisfied);
      case Start(_, direct) => StartCalledKeepsTrace(o, direct);
      case Cancel => CancelledKeepsTrace(o);
      case Finish(error) => FinishedKeepsTrace(o, error);
      case RunTask => TaskRunKeepsTrace(o);
    }
  }

  lemma NextKeepsTold(o: Operation, e: Event)
    requires Told(o) && Guarded(o, e)
    ensures Told(Next(o, e))
  {
    NextKeepsStart(o, e);
    NextKeepsTrace(o, e);
    StepAsserts(o, e);
  }

  predicate GuardedAt(o: Operation, events: seq<Event>, k: nat)
    requires k < |events|
  {
    Guarded(Run(o, events[..k]), events[k])
  }

  /** Every call of `finish` in the run is guarded. */
  ghost predicate GuardedRun(o: Operation, events: seq<Event>) {
    forall k | 0 <= k < |events| :: GuardedAt(o, events, k)
  }

  lemma GuardedSnoc(o: Operation, events: seq<Event>)
    requires events != []
    ensures GuardedRun(o, events) <==> GuardedRun(o, Front(events)) && Guarded(Run(o, Front(events)), Last(events))
  {
    var before := Front(events);
    forall k | 0 <= k < |before|
      ensures GuardedAt(o, before, k) == GuardedAt(o, events, k)
    {
      assert before[..k] == events[..k] && before[k] == events[k];
    }
    assert events[..|before|] == before;
    assert GuardedAt(o, events, |before|) == Guarded(Run(o, before), Last(events));
  }

  lemma {:induction false} RunKeepsTold(o: Operation, events: seq<Event>)
    requires Told(o) && GuardedRun(o, events)
    ensures Told(Run(o, events))
  {
    if events != [] {
      GuardedSnoc(o, events);
      RunKeepsTold(o, Front(events));
      NextKeepsTold(Run(o, Front(events)), Last(events));
    }
  }

  lemma ToldIsProper(o: Operation)
    requires Told(o)
    ensures ProperTrace(o.trace)
    ensures o.begun && o.state == Finished && o.tasks == [] ==> CompleteTrace(o.trace)
  {
    assert o.trace <= Said(o);
    if o.tasks == [] {
      assert o.trace == Said(o);
    }
  }

  /**
   In every run in which each call of `finish` is guarded, observers are told a beginning of
   start-finish, start-cancel-finish or cancel-finish, and all of one of them once the operation has
   run, finished and given its notices. The state never goes back.
   */
  lemma {:induction false} GuardedRunIsTold(conditions: nat, events: seq<Event>)
    requires GuardedRun(Init(conditions), events)
    ensures var o := Run(Init(conditions), events);
            && ProperTrace(o.trace) && !o.asserted
            && (o.begun && o.state == Finished && o.tasks == [] ==> CompleteTrace(o.trace))
  {
    RunKeepsTold(Init(conditions), events);
    ToldIsProper(Run(Init(conditions), events));
  }

  /** However the run goes on, if later calls of `finish` are guarded, observers are told properly. */
  ghost predicate AlwaysToldProperly(o: Operation) {
    forall events: seq<Event> | GuardedRun(o, events) :: ProperTrace(Run(o, events).trace)
  }

  lemma QueueTellsOne(o: Operation)
    requires o.tasks != [] && o.state.RawValue() >= Ready.RawValue() && (o.cancelled ==> Starts(o.tasks) == 0)
    ensures var p := Next(o, RunTask);
            && p.tasks == o.tasks[1..] && Said(p) == Said(o) && p.cancelled == o.cancelled
            && (if o.tasks[0] == StartTask then p.begun && p.state == Executing
                else p.begun == o.begun && p.state == o.state)
  {
    assert o.trace + Note(o.tasks[0], o.cancelled) + Notes(o.tasks[1..], o.cancelled) == Said(o);
    if o.tasks[0] == DidEvaluate {
      assert o.trace + [] == o.trace;
    }
  }

  /** A queue that nothing cancels gives its notices one by one. */
  lemma {:induction false} QueueTells(o: Operation) returns (events: seq<Event>)
    requires o.state.RawValue() >= Ready.RawValue() && (o.cancelled ==> Starts(o.tasks) == 0)
    ensures forall k | 0 <= k < |events| :: events[k] == RunTask
    ensures var t := Run(o, events);
            && t.tasks == [] && t.trace == Said(o)
            && (if Starts(o.tasks) > 0 then t.begun && t.state == Executing else t.begun == o.begun && t.state == o.state)
    decreases |o.tasks|
  {
    if o.tasks == [] {
      events := [];
    } else {
      QueueTellsOne(o);
      var rest := QueueTells(Next(o, RunTask));
      RunCons(o, RunTask, rest);
      events := [RunTask] + rest;
    }
  }

  lemma {:induction false} RunCons(o: Operation, e: Event, events: seq<Event>)
    ensures Run(o, [e] + events) == Run(Next(o, e), events)
  {
    if events == [] {
      assert [e] + events == [e] && Front([e]) == [];
    } else {
      RunCons(o, e, Front(events));
      assert Front([e] + events) == [e] + Front(events);
    }
  }

  lemma RunSnoc(o: Operation, events: seq<Event>, e: Event)
    ensures Run(o, events + [e]) == Next(Run(o, events), e)
  {
    assert Front(events + [e]) == events;
  }

  /** What an unguarded call leaves behind. */
  lemma UnguardedFinish(o: Operation, error: Option<Error>)
    requires Told(o) && !Guarded(o, Finish(error))
    ensures var p := Next(o, Finish(error));
            && p.state == Finished && !p.begun && (p.cancelled ==> Starts(p.tasks) == 0)
            && (if o.started then Starts(p.tasks) == 1 && Said(p) == [DidStart, DidFinish]
                else Starts(p.tasks) == 0 && Said(p) == [DidFinish])
  {
    StartsSnoc(o.tasks, FinishNote);
    NotesSnoc(o.tasks, FinishNote, o.cancelled);
  }

  /**
   After an unguarded call of `finish` observers are told of it first, if the operation was not
   started, and otherwise can be told of it twice.
   */
  lemma UnguardedFinishIsTold(o: Operation, error: Option<Error>) returns (events: seq<Event>)
    requires Told(o) && !Guarded(o, Finish(error))
    ensures var p := Next(o, Finish(error));
            && GuardedRun(p, events)
            && Run(p, events).trace == if o.started then [DidStart, DidFinish, DidFinish] else [DidFinish]
  {
    var p := Next(o, Finish(error));
    UnguardedFinish(o, error);
    events := QueueTells(p);
    if o.started {
      var told := events;
      var q := Run(p, told);
      RunSnoc(p, told, Finish(None));
      events := told + [Finish(None)];
      GuardedSnoc(p, events);
      assert Front(events) == told;
      RunSnoc(p, events, RunTask);
      assert Next(q, Finish(None)).tasks == [FinishNote];
      events := events + [RunTask];
      assert Front(events) == told + [Finish(None)];
      GuardedSnoc(p, events);
    }
  }

  lemma ImproperTraces()
    ensures !ProperTrace([DidFinish]) && !ProperTrace([DidStart, DidFinish, DidFinish])
  {
    assert [DidFinish][0] == DidFinish;
    assert [DidStart, DidFinish, DidFinish][1] == DidFinish && [DidStart, DidFinish, DidFinish][0] == DidStart;
  }

  /** The exact condition on one call of `finish`, or any other event, in a run that went well so far. */
  lemma ToldProperlyIffGuarded(o: Operation, e: Event)
    requires Told(o)
    ensures AlwaysToldProperly(Next(o, e)) <==> Guarded(o, e)
  {
    if Guarded(o, e) {
      NextKeepsTold(o, e);
      ToldStaysProper(Next(o, e));
    } else {
      var events := UnguardedFinishIsTold(o, e.error);
      ImproperTraces();
    }
  }

  lemma ToldStaysProper(o: Operation)
    requires Told(o)
    ensures AlwaysToldProperly(o)
  {
    forall events: seq<Event> | GuardedRun(o, events)
      ensures ProperTrace(Run(o, events).trace)
    {
      RunKeepsTold(o, events);
      ToldIsProper(Run(o, events));
    }
  }

  ghost predicate SureAfter(conditions: nat, events: seq<Event>) {
    AlwaysToldProperly(Run(Init(conditions), events))
  }

  /**
   Observer traces, exactly: in a run observers are at all times sure to be told a beginning of
   start-finish, start-cancel-finish or cancel-finish, if later calls of `finish` are guarded, if and
   only if all its calls of `finish` are: each comes after `_start` has run, or repeats an earlier
   one, or finds the operation started and cancelled.
   */
  lemma {:induction false} ObserverTraces(conditions: nat, events: seq<Event>)
    ensures (forall k | 0 <= k <= |events| :: SureAfter(conditions, events[..k])) <==> GuardedRun(Init(conditions), events)
  {
    if events == [] {
      ToldStaysProper(Init(conditions));
    } else {
      var before := Front(events);
      ObserverTraces(conditions, before);
      GuardedSnoc(Init(conditions), events);
      assert forall k | 0 <= k <= |before| :: before[..k] == events[..k];
      assert events[..|events|] == events;
      if GuardedRun(Init(conditions), before) {
        RunKeepsTold(Init(conditions), before);
        ToldProperlyIffGuarded(Run(Init(conditions), before), Last(events));
      }
    }
  }

  // ----- when `main` runs

  /** `main` runs at most once, exactly when observers are told of the start, unless the operation began cancelled. */
  predicate MainValid(o: Operation) {
    && o.mainRuns <= 1
    && (!o.begun ==> o.mainRuns == 0)
    && (o.begun && o.mainRuns == 0 ==> o.cancelled)
    && (o.mainRuns == 1 <==> DidStart in o.trace)
  }

  lemma BeginKeepsMain(o: Operation)
    requires MainValid(o) && !o.begun
    ensures MainValid(Begin(o))
  {
    assert DidStart in o.trace + [DidStart];
    assert DidStart in o.trace + [DidCancel] <==> DidStart in o.trace;
  }

  lemma TaskRunKeepsMain(o: Operation)
    requires StartValid(o) && MainValid(o) && o.tasks != []
    ensures MainValid(TaskRun(o))
  {
    TaskRunKeepsStart(o);
    if o.tasks[0] == StartTask {
      BeginKeepsMain(Popped(o));
    } else {
      assert forall n :: n == DidCancel || n == DidFinish ==> (DidStart in o.trace + [n] <==> DidStart in o.trace);
    }
  }

  lemma NextKeepsMain(o: Operation, e: Event)
    requires StartValid(o) && MainValid(o)
    ensures MainValid(Next(o, e))
  {
    if Enabled(o, e) {
      if e.Start? {
        BeginKeepsMain(o.(started := true));
      } else if e.RunTask? {
        TaskRunKeepsMain(o);
      }
    }
  }

  /** In every run `main` runs at most once, and exactly when observers are told of the start. */
  lemma {:induction false} MainRunsOnce(conditions: nat, events: seq<Event>)
    ensures var o := Run(Init(conditions), events);
            MainValid(o) && o.mainRuns <= 1 && (o.mainRuns == 1 <==> DidStart in o.trace)
  {
    if events != [] {
      MainRunsOnce(conditions, Front(events));
      RunKeepsStart(conditions, Front(events));
      NextKeepsMain(Run(Init(conditions), Front(events)), Last(events));
    }
  }

  /** Every condition has reported that it is satisfied. */
  predicate Satisfied(o: Operation) {
    |o.results| == o.conditions && AllSatisfied(o.results)
  }

  /** What every run keeps of the conditions. */
  predicate ConditionsValid(o: Operation) {
    && (o.state.RawValue() <= Pending.RawValue() ==> o.results == [])
    && (o.state == EvaluatingConditions || o.results != [] ==> |o.results| == o.conditions)
    && (DidEvaluate in o.tasks ==> |o.results| == o.conditions && AllReported(o.results))
    && (o.started && !o.begun ==> o.cancelled || o.state.RawValue() >= Ready.RawValue())
    && (o.begun ==> o.state.RawValue() >= Executing.RawValue())
    && (o.state == Ready && !o.cancelled ==> Satisfied(o))
    && (o.state == EvaluatingConditions ==> o.conditions > 0 && (AllReported(o.results) ==> DidEvaluate in o.tasks))
  }

  lemma BeginKeepsConditions(o: Operation)
    requires ConditionsValid(o) && !o.begun
    ensures ConditionsValid(Begin(o))
  {
  }

  lemma EvaluatedKeepsConditions(o: Operation)
    requires ConditionsValid(o) && o.tasks != [] && o.tasks[0] == DidEvaluate
    ensures ConditionsValid(ConditionsEvaluated(Popped(o)))
  {
    PoppedKeepsConditions(o);
  }

  lemma PoppedKeepsConditions(o: Operation)
    requires ConditionsValid(o) && o.tasks != []
    ensures o.tasks[0] != DidEvaluate ==> ConditionsValid(Popped(o))
    ensures o.tasks[0] == DidEvaluate ==> |o.results| == o.conditions && AllReported(o.results)
    ensures DidEvaluate in o.tasks[1..] ==> |o.results| == o.conditions && AllReported(o.results)
  {
    assert o.tasks[0] in o.tasks;
    assert forall task | task in o.tasks[1..] :: task in o.tasks;
    assert forall task | task in o.tasks :: task == o.tasks[0] || task in o.tasks[1..];
  }

  lemma TaskRunKeepsConditions(o: Operation)
    requires StartValid(o) && ConditionsValid(o) && o.tasks != []
    ensures ConditionsValid(TaskRun(o))
  {
    TaskRunKeepsStart(o);
    PoppedKeepsConditions(o);
    match o.tasks[0]
    case StartTask => BeginKeepsConditions(Popped(o));
    case DidEvaluate => EvaluatedKeepsConditions(o);
    case _ =>
  }

  lemma ReportedKeepsConditions(o: Operation, index: nat, satisfied: bool)
    requires ConditionsValid(o) && CanReport(o, index)
    ensures ConditionsValid(Reported(o, index, satisfied))
  {
    assert o.results[index] == None;
    assert Last(o.tasks + [DidEvaluate]) == DidEvaluate;
  }

  lemma StartCalledKeepsConditions(o: Operation, superReady: bool, direct: bool)
    requires ConditionsValid(o) && !o.begun && IsReady(o, superReady)
    ensures ConditionsValid(StartCalled(o, direct))
  {
    if direct {
      BeginKeepsConditions(o.(started := true));
    }
  }

  lemma ReadinessKeepsConditions(o: Operation, superReady: bool)
    requires ConditionsValid(o)
    ensures ConditionsValid(ReadinessChecked(o, superReady))
  {
    var t := ReadinessChecked(o, superReady);
    if t.state == EvaluatingConditions && o.state == Pending {
      assert t.results[0] == None;
    }
  }

  lemma NextKeepsConditions(o: Operation, e: Event)
    requires StartValid(o) && ConditionsValid(o)
    ensures ConditionsValid(Next(o, e))
  {
    if Enabled(o, e) {
      match e
      case CheckReadiness(superReady) => ReadinessKeepsConditions(o, superReady);
      case Report(index, satisfied) => ReportedKeepsConditions(o, index, satisfied);
      case Start(superReady, direct) => StartCalledKeepsConditions(o, superReady, direct);
      case RunTask => TaskRunKeepsConditions(o);
      case _ =>
    }
  }

  lemma {:induction false} RunKeepsConditions(conditions: nat, events: seq<Event>)
    ensures ConditionsValid(Run(Init(conditions), events))
  {
    if events != [] {
      RunKeepsConditions(conditions, Front(events));
      RunKeepsStart(conditions, Front(events));
      NextKeepsConditions(Run(Init(conditions), Front(events)), Last(events));
    }
  }

  lemma {:induction false} RunKeepsConditionCount(conditions: nat, events: seq<Event>)
    ensures Run(Init(conditions), events).conditions == conditions
  {
    if events != [] {
      RunKeepsConditionCount(conditions, Front(events));
      NextKeepsConditionCount(Run(Init(conditions), Front(events)), Last(events));
    }
  }

  lemma NextKeepsConditionCount(o: Operation, e: Event)
    ensures Next(o, e).conditions == o.conditions
  {
    if e.Start? && Enabled(o, e) {
      assert Next(o, e) == StartCalled(o, e.direct);
    }
  }

  /** A call of `finish`, if the event is one, finds the operation ready, further on, or cancelled. */
  predicate InTime(o: Operation, e: Event) {
    e.Finish? ==> o.cancelled || o.state.RawValue() >= Ready.RawValue()
  }

  ghost predicate FinishInTime(o: Operation, events: seq<Event>) {
    forall k | 0 <= k < |events| :: InTime(Run(o, events[..k]), events[k])
  }

  /** If `main` has run, every condition is satisfied. */
  predicate MainSatisfied(o: Operation) {
    o.mainRuns > 0 ==> Satisfied(o)
  }

  /** If `main` has run or will run on a finished operation, every condition is satisfied. */
  predicate Unspoiled(o: Operation) {
    MainSatisfied(o) && (o.state == Finished && !o.begun && !o.cancelled ==> Satisfied(o))
  }

  lemma BeginKeepsUnspoiled(o: Operation)
    requires ConditionsValid(o) && Unspoiled(o) && !o.begun && o.state != Executing
    requires o.cancelled || o.state.RawValue() >= Ready.RawValue()
    ensures Unspoiled(Begin(o))
  {
  }

  lemma TaskRunKeepsUnspoiled(o: Operation)
    requires StartValid(o) && MainValid(o) && ConditionsValid(o) && Unspoiled(o) && o.tasks != []
    ensures Unspoiled(TaskRun(o))
  {
    TaskRunKeepsStart(o);
    if o.tasks[0] == StartTask {
      PoppedKeepsConditions(o);
      StartIsDue(o.tasks);
      BeginKeepsUnspoiled(Popped(o));
    }
  }

  lemma StartIsDue(tasks: seq<Task>)
    requires tasks != [] && tasks[0] == StartTask
    ensures Starts(tasks) >= 1
  {
  }

  lemma ReportedKeepsUnspoiled(o: Operation, index: nat, satisfied: bool)
    requires Unspoiled(o) && CanReport(o, index)
    ensures Unspoiled(Reported(o, index, satisfied))
  {
    assert o.results[index] == None;
    assert !Satisfied(o);
  }

  lemma NextKeepsUnspoiled(o: Operation, e: Event)
    requires StartValid(o) && MainValid(o) && ConditionsValid(o) && Unspoiled(o) && InTime(o, e)
    ensures Unspoiled(Next(o, e))
  {
    if Enabled(o, e) {
      match e
      case Report(index, satisfied) => ReportedKeepsUnspoiled(o, index, satisfied);
      case Start(_, direct) => BeginKeepsUnspoiled(o.(started := true));
      case RunTask => TaskRunKeepsUnspoiled(o);
      case _ =>
    }
  }

  lemma {:induction false} RunKeepsUnspoiled(o: Operation, events: seq<Event>)
    requires StartValid(o) && MainValid(o) && ConditionsValid(o) && Unspoiled(o) && FinishInTime(o, events)
    ensures var t := Run(o, events); StartValid(t) && MainValid(t) && ConditionsValid(t) && Unspoiled(t)
  {
    if events != [] {
      var before := Front(events);
      assert forall k | 0 <= k < |before| :: before[..k] == events[..k] && before[k] == events[k];
      assert events[..|before|] == before && events[|before|] == Last(events);
      RunKeepsUnspoiled(o, before);
      NextKeepsStart(Run(o, before), Last(events));
      NextKeepsMain(Run(o, before), Last(events));
      NextKeepsConditions(Run(o, before), Last(events));
      NextKeepsUnspoiled(Run(o, before), Last(events));
    }
  }

  /** No event is a call of `finish` or `cancel`. */
  predicate Calm(events: seq<Event>) {
    forall k | 0 <= k < |events| :: !events[k].Finish? && !events[k].Cancel?
  }

  /** An operation that is ready or finished, neither begun nor cancelled, can run `main`, on the reports it has. */
  lemma {:induction false} ReadyRunsMain(o: Operation) returns (events: seq<Event>)
    requires StartValid(o) && o.state.RawValue() >= Ready.RawValue() && !o.begun && !o.cancelled
    ensures Calm(events) && FinishInTime(o, events)
    ensures var t := Run(o, events); t.mainRuns == o.mainRuns + 1 && t.results == o.results && t.conditions == o.conditions
    decreases |o.tasks|
  {
    if !o.started {
      events := [Start(true, true)];
      assert Front(events) == [];
    } else {
      assert o.tasks != [];
      var p := Next(o, RunTask);
      if o.tasks[0] == StartTask {
        events := [RunTask];
        assert Front(events) == [];
      } else {
        NextKeepsStart(o, RunTask);
        var rest := ReadyRunsMain(p);
        RunCons(o, RunTask, rest);
        events := [RunTask] + rest;
      }
    }
  }

  /** However the run goes on, unless `finish` is called too early, `main` runs only on satisfied conditions. */
  ghost predicate AlwaysSatisfied(o: Operation) {
    forall events: seq<Event> | FinishInTime(o, events) :: MainSatisfied(Run(o, events))
  }

  /**
   `main` runs only after every condition reported that it is satisfied, exactly: from a state of any
   run, before `main` has run, this is guaranteed if and only if the operation was not finished,
   uncancelled, before all conditions were satisfied.
   */
  lemma {:induction false} MainRunsOnlyIfSatisfied(conditions: nat, events: seq<Event>)
    requires Run(Init(conditions), events).mainRuns == 0
    ensures var o := Run(Init(conditions), events);
            && o.conditions == conditions
            && (AlwaysSatisfied(o) <==> o.state != Finished || o.cancelled || Satisfied(o))
  {
    var o := Run(Init(conditions), events);
    RunKeepsConditionCount(conditions, events);
    RunKeepsStart(conditions, events);
    RunKeepsConditions(conditions, events);
    MainRunsOnce(conditions, events);
    if o.state != Finished || o.cancelled || Satisfied(o) {
      forall more: seq<Event> | FinishInTime(o, more)
        ensures MainSatisfied(Run(o, more))
      {
        RunKeepsUnspoiled(o, more);
      }
    } else {
      var more := ReadyRunsMain(o);
      assert !MainSatisfied(Run(o, more));
    }
  }

  /** In particular in every run in which no call of `finish` comes too early. */
  lemma {:induction false} TimelyFinishKeepsConditions(conditions: nat, events: seq<Event>)
    requires FinishInTime(Init(conditions), events)
    ensures MainSatisfied(Run(Init(conditions), events))
  {
    RunKeepsUnspoiled(Init(conditions), events);
  }

  /** `finish` before the only condition has reported, and then `start`, runs `main` regardless. */
  lemma EarlyFinishRunsMainUnsatisfied()
    ensures var o := Run(Init(1), [Finish(None), Start(true, true)]);
            o.mainRuns == 1 && o.results == [] && !Satisfied(o)
  {
    var events := [Finish(None), Start(true, true)];
    assert Front(events) == [Finish(None)] && Front([Finish(None)]) == [];
    assert Run(Init(1), [Finish(None)]) == Next(Init(1), Finish(None));
  }

  lemma CancelledStep(o: Operation, e: Event)
    requires o.cancelled
    ensures Next(o, e).cancelled && Next(o, e).mainRuns == o.mainRuns
  {
  }

  /** Once cancelled, an operation stays so, and `main` does not run any more. */
  lemma {:induction false} CancelledNeverRunsMain(o: Operation, events: seq<Event>)
    requires o.cancelled
    ensures Run(o, events).cancelled && Run(o, events).mainRuns == o.mainRuns
  {
    if events != [] {
      CancelledNeverRunsMain(o, Front(events));
      CancelledStep(Run(o, Front(events)), Last(events));
    }
  }

  /** A ready operation is started. */
  lemma EarlyStart() returns (events: seq<Event>)
    ensures Run(Init(0), events) == Init(0).(state := Ready, started := true, tasks := [StartTask])
  {
    RunSnoc(Init(0), [], DidEnqueue);
    events := [] + [DidEnqueue];
    RunSnoc(Init(0), events, CheckReadiness(true));
    events := events + [CheckReadiness(true)];
    assert Run(Init(0), events) == Init(0).(state := Ready);
    RunSnoc(Init(0), events, Start(true, false));
    events := events + [Start(true, false)];
  }

  /** `finish` is called between `start` and `_start`. */
  lemma EarlyFinish() returns (events: seq<Event>)
    ensures Run(Init(0), events) == Init(0).(state := Finished, started := true, tasks := [StartTask, FinishNote])
  {
    events := EarlyStart();
    var o := Run(Init(0), events);
    RunSnoc(Init(0), events, Finish(None));
    events := events + [Finish(None)];
    assert Next(o, Finish(None)).tasks == [StartTask, FinishNote];
  }

  /**
   What an early call does: when `finish` lands between `start` and `_start`, the finished
   operation executes, its state goes back, and nothing is left queued that would report it finished
   again.
   */
  lemma EarlyFinishRevives() returns (events: seq<Event>)
    ensures var o := Run(Init(0), events);
            o.asserted && o.state == Executing && o.trace == [DidStart, DidFinish] && o.tasks == []
  {
    events := EarlyFinish();
    var o := Run(Init(0), events);
    RunSnoc(Init(0), events, RunTask);
    events := events + [RunTask];
    var p := Next(o, RunTask);
    assert p.tasks == [FinishNote] && p.trace == [DidStart] && p.state == Executing && p.asserted;
    RunSnoc(Init(0), events, RunTask);
    events := events + [RunTask];
  }

  // ----- the object

  class AsyncOperationObject {
    var state: State
    var cancelled: bool
    var error: Option<Error>
    const conditions: nat
    var results: seq<Option<bool>>
    var tasks: seq<Task>
    var started: bool
    var begun: bool
    var trace: seq<Notice>
    var mainRuns: nat
    ghost var asserted: bool

    ghost function Model(): Operation
      reads this
    {
      Operation(state, cancelled, error, conditions, results, tasks, started, begun, trace, mainRuns, asserted)
    }

    constructor (conditions: nat)
      ensures Model() == Init(conditions) && Told(Model())
    {
      this.conditions := conditions;
      state, cancelled, error, results, tasks := Initialized, false, None, [], [];
      started, begun, trace, mainRuns, asserted := false, false, [], 0, false;
    }

    method SetState(newState: State)
      modifies this`state, this`asserted
      ensures Model() == Assign(old(Model()), newState)
    {
      asserted := asserted || !(state.RawValue() < newState.RawValue());
      state := newState;
    }

    method Enqueue()
      modifies this
      ensures Model() == Enqueued(old(Model()))
    {
      if state != Initialized {
        return;
      }
      SetState(Pending);
    }

    method Evaluate()
      modifies this
      ensures Model() == EvaluateConditions(old(Model()))
    {
      if conditions == 0 {
        SetState(Ready);
        return;
      }
      SetState(EvaluatingConditions);
      results := seq(conditions, _ => None);
    }

    method CheckIsReady(superReady: bool)
      modifies this
      ensures Model() == ReadinessChecked(old(Model()), superReady)
    {
      if state == Pending && !cancelled && superReady {
        Evaluate();
      }
    }

    method DoCancel()
      modifies this
      ensures Model() == Cancelled(old(Model()))
    {
      if !cancelled {
        cancelled := true;
        if state == Executing {
          tasks := tasks + [CancelNote];
        }
      }
    }

    method DidEvaluateConditions()
      modifies this
      ensures Model() == ConditionsEvaluated(old(Model()))
    {
      if state.RawValue() >= Ready.RawValue() {
        return;
      }
      if !AllSatisfied(results) {
        DoCancel();
      }
      SetState(Ready);
    }

    method TryFinish(anError: Option<Error>) returns (finished: bool)
      modifies this`state, this`asserted, this`error
      ensures finished <==> old(state) != Finished
      ensures Model() == if finished then Assign(old(Model()).(error := anError), Finished) else old(Model())
    {
      if state == Finished {
        return false;
      }
      error := anError;
      SetState(Finished);
      return true;
    }

    method DoFinish(anError: Option<Error>)
      modifies this
      ensures Model() == FinishedWith(old(Model()), anError)
    {
      var finished := TryFinish(anError);
      if finished {
        tasks := tasks + [FinishNote];
      }
    }

    method NotifyCancellation()
      modifies this`trace
      ensures trace == old(trace) + [DidCancel]
    {
      trace := trace + [DidCancel];
    }

    method StartLocked()
      modifies this
      ensures Model() == Begin(old(Model()))
      ensures state == (if old(cancelled) then Finished else Executing)
      ensures asserted <==> old(asserted) || (old(state).RawValue() >= Executing.RawValue() && !old(cancelled))
    {
      begun := true;
      if cancelled {
        NotifyCancellation();
        DoFinish(Some(CancelledError));
      } else {
        SetState(Executing);
        trace := trace + [DidStart];
        mainRuns := mainRuns + 1;
      }
    }
  }
}
