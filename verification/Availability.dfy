/**
 API availability: four flags under a lock, every change broadcast to the tasks that wait for a
 condition on them.

 `history` holds the initial state and then every state that was broadcast; the last one is current.
 A receiver is a position in that history. It lags, and its wait is interrupted, when more than
 `capacity` broadcasts are unread. The handle that a waiting task holds keeps the sender alive, so
 that a closed channel is not a case.
 */
module Availability {
  import opened Common

  datatype State = State(suspended: bool, pauseBackground: bool, offline: bool, inactive: bool)
  {
    predicate IsBackgroundPaused() {
      offline || pauseBackground || suspended || inactive
    }
  }

  /** What a task can wait for. */
  datatype Kind = Unsuspended | BackgroundResumed | Online

  predicate Ready(kind: Kind, state: State) {
    match kind
    case Unsuspended => !state.suspended
    case BackgroundResumed => !state.IsBackgroundPaused()
    case Online => !state.offline
  }

  datatype Change =
    | Suspend
    | Unsuspend
    | SetInactive
    | SetActive
    | SetOffline(offline: bool)
    | PauseBackground
    | ResumeBackground

  function Changed(state: State, change: Change): State {
    match change
    case Suspend => state.(suspended := true)
    case Unsuspend => state.(suspended := false)
    case SetInactive => state.(inactive := true)
    case SetActive => state.(inactive := false)
    case SetOffline(offline) => state.(offline := offline)
    case PauseBackground => state.(pauseBackground := true)
    case ResumeBackground => state.(pauseBackground := false)
  }

  /** A setter broadcasts the new state when it differs. */
  function Announce(history: seq<State>, change: Change): seq<State>
    requires history != []
  {
    var next := Changed(Last(history), change);
    if next == Last(history) then history else history + [next]
  }

  /** `Ok` carries the position of the state that the task saw. */
  datatype Outcome = Ok(seen: nat) | Interrupted

  /** A waiting task: subscribed; told no by its first look, at `checked`, and reading on from `next`; or done. */
  datatype Phase = Subscribed | Waiting(checked: nat, next: nat) | Done(outcome: Outcome)

  /** `start` is the position of the first broadcast after the task subscribed. */
  datatype Waiter = Waiter(kind: Kind, start: nat, phase: Phase)

  datatype System = System(history: seq<State>, waiters: map<nat, Waiter>)

  datatype Event =
    | Set(change: Change)
    | Subscribe(id: nat, kind: Kind)
    | Look(id: nat)       // the first poll reads the state
    | Receive(id: nat)    // one `recv` that does not block

  /** One `recv` of a waiting task. */
  function Received(history: seq<State>, capacity: nat, w: Waiter): Waiter
    requires w.phase.Waiting? && w.phase.next < |history|
  {
    if |history| - w.phase.next > capacity then w.(phase := Done(Interrupted))
    else if Ready(w.kind, history[w.phase.next]) then w.(phase := Done(Ok(w.phase.next)))
    else w.(phase := Waiting(w.phase.checked, w.phase.next + 1))
  }

  function Looked(history: seq<State>, w: Waiter): Waiter
    requires history != []
  {
    var now := |history| - 1;
    if Ready(w.kind, history[now]) then w.(phase := Done(Ok(now))) else w.(phase := Waiting(now, w.start))
  }

  predicate Enabled(s: System, e: Event) {
    match e
    case Set(_) => true
    case Subscribe(id, _) => id !in s.waiters
    case Look(id) => id in s.waiters && s.waiters[id].phase.Subscribed?
    case Receive(id) => id in s.waiters && s.waiters[id].phase.Waiting? && s.waiters[id].phase.next < |s.history|
  }

  /** One step; an event that cannot happen in `s` changes nothing. */
  function Next(capacity: nat, s: System, e: Event): System
    requires s.history != []
  {
    if !Enabled(s, e) then s
    else match e
      case Set(change) => s.(history := Announce(s.history, change))
      case Subscribe(id, kind) => s.(waiters := s.waiters[id := Waiter(kind, |s.history|, Subscribed)])
      case Look(id) => s.(waiters := s.waiters[id := Looked(s.history, s.waiters[id])])
      case Receive(id) => s.(waiters := s.waiters[id := Received(s.history, capacity, s.waiters[id])])
  }

  function Run(capacity: nat, s: System, events: seq<Event>): (t: System)
    requires s.history != []
    ensures t.history != []
  {
    if events == [] then s else Next(capacity, Run(capacity, s, Front(events)), Last(events))
  }

  // ----- what every run keeps

  /** What a waiter has seen so far, all of it since just before it subscribed. */
  predicate WaiterValid(history: seq<State>, capacity: nat, w: Waiter) {
    && 1 <= w.start <= |history|
    && match w.phase
       case Subscribed => true
       case Waiting(checked, next) =>
         && w.start <= next <= |history| && w.start - 1 <= checked < |history|
         && !Ready(w.kind, history[checked])
         && forall i | w.start <= i < next :: !Ready(w.kind, history[i])
       case Done(Ok(seen)) => w.start - 1 <= seen < |history| && Ready(w.kind, history[seen])
       case Done(Interrupted) => |history| - w.start > capacity
  }

  ghost predicate Invariant(capacity: nat, s: System) {
    s.history != [] && forall id | id in s.waiters :: WaiterValid(s.history, capacity, s.waiters[id])
  }

  lemma LongerHistoryKeepsWaiter(history: seq<State>, longer: seq<State>, capacity: nat, w: Waiter)
    requires WaiterValid(history, capacity, w) && history <= longer
    ensures WaiterValid(longer, capacity, w)
  {
  }

  lemma NextKeepsInvariant(capacity: nat, s: System, e: Event)
    requires Invariant(capacity, s)
    ensures Invariant(capacity, Next(capacity, s, e)) && s.history <= Next(capacity, s, e).history
  {
    var t := Next(capacity, s, e);
    forall id | id in t.waiters
      ensures WaiterValid(t.history, capacity, t.waiters[id])
    {
      if id in s.waiters {
        assert WaiterValid(s.history, capacity, s.waiters[id]);
        LongerHistoryKeepsWaiter(s.history, t.history, capacity, s.waiters[id]);
      }
    }
  }

  lemma {:induction false} RunKeepsInvariant(capacity: nat, initial: State, events: seq<Event>)
    ensures Invariant(capacity, Run(capacity, System([initial], map[]), events))
  {
    if events != [] {
      RunKeepsInvariant(capacity, initial, Front(events));
      NextKeepsInvariant(capacity, Run(capacity, System([initial], map[]), Front(events)), Last(events));
    }
  }

  /**
   No lost wakeup: in every interleaving of setters and waiters, a task that is blocked, with
   nothing left to receive, waits for a condition that is false right now.
   */
  lemma {:induction false} NoLostWakeup(capacity: nat, initial: State, events: seq<Event>, id: nat)
    requires var s := Run(capacity, System([initial], map[]), events);
             id in s.waiters && s.waiters[id].phase.Waiting? && s.waiters[id].phase.next == |s.history|
    ensures var s := Run(capacity, System([initial], map[]), events);
            !Ready(s.waiters[id].kind, Last(s.history))
  {
    RunKeepsInvariant(capacity, initial, events);
    var s := Run(capacity, System([initial], map[]), events);
    assert WaiterValid(s.history, capacity, s.waiters[id]);
  }

  /**
   A wait that succeeds saw the condition true in a state that was current at some moment between
   the call and the return; a wait is interrupted only after more than `capacity` changes.
   */
  lemma {:induction false} OutcomesAreHonest(capacity: nat, initial: State, events: seq<Event>, id: nat)
    requires var s := Run(capacity, System([initial], map[]), events);
             id in s.waiters && s.waiters[id].phase.Done?
    ensures var s := Run(capacity, System([initial], map[]), events);
            var w := s.waiters[id];
            && 1 <= w.start <= |s.history|
            && match w.phase.outcome
               case Ok(seen) => w.start - 1 <= seen < |s.history| && Ready(w.kind, s.history[seen])
               case Interrupted => |s.history| - w.start > capacity
  {
    RunKeepsInvariant(capacity, initial, events);
    var s := Run(capacity, System([initial], map[]), events);
    assert WaiterValid(s.history, capacity, s.waiters[id]);
  }

  /** A task keeps what it waits for and the moment it subscribed. */
  lemma NextKeepsCall(capacity: nat, s: System, e: Event, id: nat)
    requires s.history != [] && id in s.waiters
    ensures var t := Next(capacity, s, e);
            id in t.waiters && t.waiters[id].start == s.waiters[id].start && t.waiters[id].kind == s.waiters[id].kind
  {
  }

  lemma {:induction false} RunKeepsCall(capacity: nat, s: System, events: seq<Event>, id: nat)
    requires s.history != [] && id in s.waiters
    ensures var t := Run(capacity, s, events);
            id in t.waiters && t.waiters[id].start == s.waiters[id].start && t.waiters[id].kind == s.waiters[id].kind
  {
    if events != [] {
      RunKeepsCall(capacity, s, Front(events), id);
      NextKeepsCall(capacity, Run(capacity, s, Front(events)), Last(events), id);
    }
  }

  lemma {:induction false} RunAppend(capacity: nat, s: System, a: seq<Event>, b: seq<Event>)
    requires s.history != []
    ensures Run(capacity, s, a + b) == Run(capacity, Run(capacity, s, a), b)
  {
    if b == [] {
      assert a + b == a;
    } else {
      RunAppend(capacity, s, a, Front(b));
      assert Front(a + b) == a + Front(b);
    }
  }

  lemma CalledThen(capacity: nat, s: System, id: nat, kind: Kind, after: seq<Event>)
    requires s.history != [] && id !in s.waiters
    ensures var t := Run(capacity, s, [Subscribe(id, kind)] + after);
            id in t.waiters && t.waiters[id].start == |s.history| && t.waiters[id].kind == kind
  {
    RunCons(capacity, s, Subscribe(id, kind), after);
    RunKeepsCall(capacity, Next(capacity, s, Subscribe(id, kind)), after, id);
  }

  /**
   A wait that succeeds saw its condition hold since the call: in a state that was current when the
   task subscribed, or in one that was broadcast after that, never in an older one.
   */
  lemma SuccessSinceCall(capacity: nat, initial: State, before: seq<Event>, id: nat, kind: Kind, after: seq<Event>)
    requires id !in Run(capacity, System([initial], map[]), before).waiters
    ensures var called := Run(capacity, System([initial], map[]), before);
            var s := Run(capacity, System([initial], map[]), before + ([Subscribe(id, kind)] + after));
            && id in s.waiters
            && (s.waiters[id].phase.Done? && s.waiters[id].phase.outcome.Ok? ==>
                  var seen := s.waiters[id].phase.outcome.seen;
                  |called.history| - 1 <= seen < |s.history| && Ready(kind, s.history[seen]))
  {
    var rest := [Subscribe(id, kind)] + after;
    RunAppend(capacity, System([initial], map[]), before, rest);
    CalledThen(capacity, Run(capacity, System([initial], map[]), before), id, kind, after);
    if Run(capacity, System([initial], map[]), before + rest).waiters[id].phase.Done? {
      OutcomesAreHonest(capacity, initial, before + rest, id);
    }
  }

  /** A receive is interrupted exactly when more broadcasts are unread than the channel holds; else it sees the oldest one. */
  lemma ReceiveInterruptedIff(capacity: nat, s: System, id: nat)
    requires s.history != [] && Enabled(s, Receive(id))
    ensures var w, t := s.waiters[id], Next(capacity, s, Receive(id));
            && (t.waiters[id].phase == Done(Interrupted) <==> |s.history| - w.phase.next > capacity)
            && (|s.history| - w.phase.next <= capacity ==>
                  (t.waiters[id].phase.Done? <==> Ready(w.kind, s.history[w.phase.next])))
            && t.waiters - {id} == s.waiters - {id} && t.history == s.history
  {
  }

  /** While its condition holds, a waiting task returns after receiving what is queued for it. */
  lemma {:induction false} ReadyWaiterReturns(capacity: nat, s: System, id: nat, k: nat)
    requires Invariant(capacity, s) && id in s.waiters
    requires var w := s.waiters[id];
             w.phase.Waiting? && Ready(w.kind, Last(s.history)) && k == |s.history| - w.phase.next
    ensures var t := Run(capacity, s, seq(k, _ => Receive(id)));
            t.history == s.history && id in t.waiters && t.waiters[id].phase.Done?
    decreases k
  {
    assert WaiterValid(s.history, capacity, s.waiters[id]);
    if k > 0 {
      var t := Next(capacity, s, Receive(id));
      NextKeepsInvariant(capacity, s, Receive(id));
      RunCons(capacity, s, Receive(id), seq(k - 1, _ => Receive(id)));
      assert [Receive(id)] + seq(k - 1, _ => Receive(id)) == seq(k, _ => Receive(id));
      if t.waiters[id].phase.Done? {
        DoneStays(capacity, t, id, k - 1);
      } else {
        ReadyWaiterReturns(capacity, t, id, k - 1);
      }
    }
  }

  lemma {:induction false} DoneStays(capacity: nat, s: System, id: nat, k: nat)
    requires s.history != [] && id in s.waiters && s.waiters[id].phase.Done?
    ensures Run(capacity, s, seq(k, _ => Receive(id))) == s
  {
    if k > 0 {
      DoneStays(capacity, s, id, k - 1);
      assert Front(seq(k, _ => Receive(id))) == seq(k - 1, _ => Receive(id));
    }
  }

  lemma {:induction false} RunCons(capacity: nat, s: System, e: Event, events: seq<Event>)
    requires s.history != []
    ensures Next(capacity, s, e).history != []
    ensures Run(capacity, s, [e] + events) == Run(capacity, Next(capacity, s, e), events)
  {
    if events == [] {
      assert Front([e] + events) == [];
    } else {
      RunCons(capacity, s, e, Front(events));
      assert Front([e] + events) == [e] + Front(events);
    }
  }

  // ----- what success says of the present

  /** A receive that lets the task return success, with `unread` broadcasts behind the one it saw. */
  predicate Succeeds(capacity: nat, s: System, id: nat, unread: nat)
    requires s.history != []
  {
    && Enabled(s, Receive(id))
    && Next(capacity, s, Receive(id)).waiters[id].phase == Done(Ok(s.waiters[id].phase.next))
    && s.waiters[id].phase.next + unread == |s.history| - 1
  }

  const Free := State(false, false, false, false)

  function Blocked(kind: Kind): State {
    if kind == Unsuspended then Free.(suspended := true) else Free.(offline := true)
  }

  function Blocking(kind: Kind, on: bool): Change {
    if kind == Unsuspended then (if on then Suspend else Unsuspend) else SetOffline(on)
  }

  lemma RunSnoc(capacity: nat, s: System, events: seq<Event>, e: Event)
    requires s.history != []
    ensures Run(capacity, s, events + [e]) == Next(capacity, Run(capacity, s, events), e)
  {
    assert Front(events + [e]) == events;
  }

  /** A task is told no at its first look. */
  lemma BecomesWaiting(capacity: nat, kind: Kind) returns (events: seq<Event>)
    ensures Run(capacity, System([Blocked(kind)], map[]), events) ==
            System([Blocked(kind)], map[0 := Waiter(kind, 1, Waiting(0, 1))])
  {
    var s := System([Blocked(kind)], map[]);
    var t := s.(waiters := map[0 := Waiter(kind, 1, Subscribed)]);
    RunSnoc(capacity, s, [], Subscribe(0, kind));
    assert Next(capacity, s, Subscribe(0, kind)) == t;
    events := [] + [Subscribe(0, kind)];
    RunSnoc(capacity, s, events, Look(0));
    assert Next(capacity, t, Look(0)) == s.(waiters := map[0 := Waiter(kind, 1, Waiting(0, 1))]);
    events := events + [Look(0)];
  }

  /** Then its condition comes true. */
  lemma BecomesFree(capacity: nat, kind: Kind) returns (events: seq<Event>)
    ensures Run(capacity, System([Blocked(kind)], map[]), events) ==
            System([Blocked(kind), Free], map[0 := Waiter(kind, 1, Waiting(0, 1))])
  {
    events := BecomesWaiting(capacity, kind);
    var e := Set(Blocking(kind, false));
    RunSnoc(capacity, System([Blocked(kind)], map[]), events, e);
    assert Changed(Blocked(kind), e.change) == Free && [Blocked(kind)] + [Free] == [Blocked(kind), Free];
    events := events + [e];
  }

  /** Behind its back another flag is set and cleared `n` times in all. */
  lemma {:induction false} OthersChange(capacity: nat, kind: Kind, n: nat) returns (events: seq<Event>)
    ensures var s := Run(capacity, System([Blocked(kind)], map[]), events);
            && s.waiters == map[0 := Waiter(kind, 1, Waiting(0, 1))]
            && |s.history| == 2 + n && s.history[1] == Free
            && (Last(s.history) == Free || Last(s.history) == Free.(pauseBackground := true))
  {
    if n == 0 {
      events := BecomesFree(capacity, kind);
    } else {
      events := OthersChange(capacity, kind, n - 1);
      var s := Run(capacity, System([Blocked(kind)], map[]), events);
      var e := Set(if Last(s.history) == Free then PauseBackground else ResumeBackground);
      RunSnoc(capacity, System([Blocked(kind)], map[]), events, e);
      events := events + [e];
    }
  }

  /** With anything unread behind the state it saw, success may come after the condition is false again. */
  lemma SuccessCanBeStale(capacity: nat, kind: Kind, unread: nat) returns (events: seq<Event>)
    requires 1 <= unread < capacity
    ensures var s := Run(capacity, System([Blocked(kind)], map[]), events);
            0 in s.waiters && s.waiters[0].kind == kind && Succeeds(capacity, s, 0, unread) && !Ready(kind, Last(s.history))
  {
    events := OthersChange(capacity, kind, unread - 1);
    RunSnoc(capacity, System([Blocked(kind)], map[]), events, Set(Blocking(kind, true)));
    events := events + [Set(Blocking(kind, true))];
  }

  /** In every run a task that returns success with this many broadcasts unread finds its condition true right now. */
  ghost predicate SuccessIsCurrent(capacity: nat, kind: Kind, unread: nat) {
    forall initial: State, events: seq<Event>, id: nat ::
      CurrentAtSuccess(capacity, kind, unread, Run(capacity, System([initial], map[]), events), id)
  }

  predicate CurrentAtSuccess(capacity: nat, kind: Kind, unread: nat, s: System, id: nat)
    requires s.history != []
  {
    id in s.waiters && s.waiters[id].kind == kind && Succeeds(capacity, s, id, unread) ==> Ready(kind, Last(s.history))
  }

  /**
   Success means that the condition still holds exactly when nothing was broadcast behind the state
   that the task saw, whatever it waits for.
   */
  lemma SuccessIsCurrentIff(capacity: nat, kind: Kind, unread: nat)
    requires unread < capacity
    ensures SuccessIsCurrent(capacity, kind, unread) <==> unread == 0
  {
    if unread > 0 {
      var events := SuccessCanBeStale(capacity, kind, unread);
      assert !CurrentAtSuccess(capacity, kind, unread, Run(capacity, System([Blocked(kind)], map[]), events), 0);
    }
  }

  // ----- the setters

  /** The number of flags in which two states differ. */
  function Flips(a: State, b: State): nat {
    (if a.suspended != b.suspended then 1 else 0) + (if a.pauseBackground != b.pauseBackground then 1 else 0) +
    (if a.offline != b.offline then 1 else 0) + (if a.inactive != b.inactive then 1 else 0)
  }

  /** A setter flips at most one flag, and broadcasts as often as it flips one. */
  lemma BroadcastsFlipOneFlag(history: seq<State>, change: Change)
    requires history != []
    ensures var after := Announce(history, change);
            && history <= after && Flips(Last(history), Last(after)) <= 1
            && |after| == |history| + Flips(Last(history), Last(after))
  {
    assert Last(history + [Changed(Last(history), change)]) == Changed(Last(history), change);
  }

  /** A reason why work may have to wait, and whether a setter raises or clears it. */
  datatype Reason = IsSuspended | IsPaused | IsOffline | IsInactive

  datatype Effect = Effect(reason: Reason, raised: bool)

  function EffectOf(change: Change): Effect {
    match change
    case Suspend => Effect(IsSuspended, true)
    case Unsuspend => Effect(IsSuspended, false)
    case SetInactive => Effect(IsInactive, true)
    case SetActive => Effect(IsInactive, false)
    case SetOffline(offline) => Effect(IsOffline, offline)
    case PauseBackground => Effect(IsPaused, true)
    case ResumeBackground => Effect(IsPaused, false)
  }

  /** Whether a reason stands after a run that started without any: its last setter decides. */
  function Stands(reason: Reason, events: seq<Event>): bool {
    if events == [] then false
    else
      var e := Last(events);
      if e.Set? && EffectOf(e.change).reason == reason then EffectOf(e.change).raised
      else Stands(reason, Front(events))
  }

  /** The flags are what the last setters said. */
  predicate FlagsFollow(state: State, events: seq<Event>) {
    && state.suspended == Stands(IsSuspended, events) && state.pauseBackground == Stands(IsPaused, events)
    && state.offline == Stands(IsOffline, events) && state.inactive == Stands(IsInactive, events)
  }

  lemma CurrentAfter(capacity: nat, s: System, e: Event)
    requires s.history != []
    ensures var t := Next(capacity, s, e);
            t.history != [] && Last(t.history) == if e.Set? then Changed(Last(s.history), e.change) else Last(s.history)
  {
  }

  lemma FlagsStep(state: State, events: seq<Event>)
    requires events != [] && FlagsFollow(state, Front(events))
    ensures FlagsFollow(if Last(events).Set? then Changed(state, Last(events).change) else state, events)
  {
  }

  lemma {:induction false} FlagsFollowSetters(capacity: nat, events: seq<Event>)
    ensures FlagsFollow(Last(Run(capacity, System([Free], map[]), events).history), events)
  {
    if events != [] {
      var s := Run(capacity, System([Free], map[]), Front(events));
      FlagsFollowSetters(capacity, Front(events));
      CurrentAfter(capacity, s, Last(events));
      FlagsStep(Last(s.history), events);
    }
  }

  /**
   What work waits for: in every run from a state without any reason to wait, a task may go on
   exactly when the last setter of each reason that concerns it cleared it. Background work is
   concerned by all four.
   */
  lemma {:induction false} ReadyUnlessReasonStands(capacity: nat, events: seq<Event>)
    ensures var now := Last(Run(capacity, System([Free], map[]), events).history);
            && (Ready(Unsuspended, now) <==> !Stands(IsSuspended, events))
            && (Ready(Online, now) <==> !Stands(IsOffline, events))
            && (Ready(BackgroundResumed, now) <==>
                  !Stands(IsSuspended, events) && !Stands(IsPaused, events) &&
                  !Stands(IsOffline, events) && !Stands(IsInactive, events))
  {
    FlagsFollowSetters(capacity, events);
  }

  // ----- the objects

  class ApiAvailabilityState {
    var state: State
    var history: seq<State>

    predicate Valid()
      reads this
    {
      history != [] && Last(history) == state
    }

    constructor (initial: State)
      ensures Valid() && history == [initial]
    {
      state, history := initial, [initial];
    }

    /** `tx.send(state)`. */
    method Broadcast()
      modifies this`history
      ensures history == old(history) + [state]
    {
      history := history + [state];
    }

    method DoSuspend()
      requires Valid()
      modifies this
      ensures Valid() && history == Announce(old(history), Suspend)
    {
      if !state.suspended {
        state := state.(suspended := true);
        Broadcast();
      }
    }

    method DoUnsuspend()
      requires Valid()
      modifies this
      ensures Valid() && history == Announce(old(history), Unsuspend)
    {
      if state.suspended {
        state := state.(suspended := false);
        Broadcast();
      }
    }

    method DoSetInactive()
      requires Valid()
      modifies this
      ensures Valid() && history == Announce(old(history), SetInactive)
    {
      if !state.inactive {
        state := state.(inactive := true);
        Broadcast();
      }
    }

    method DoSetActive()
      requires Valid()
      modifies this
      ensures Valid() && history == Announce(old(history), SetActive)
    {
      if state.inactive {
        state := state.(inactive := false);
        Broadcast();
      }
    }

    method DoSetOffline(offline: bool)
      requires Valid()
      modifies this
      ensures Valid() && history == Announce(old(history), SetOffline(offline))
    {
      if state.offline != offline {
        state := state.(offline := offline);
        Broadcast();
      }
    }

    method DoPauseBackground()
      requires Valid()
      modifies this
      ensures Valid() && history == Announce(old(history), PauseBackground)
    {
      if !state.pauseBackground {
        state := state.(pauseBackground := true);
        Broadcast();
      }
    }

    method DoResumeBackground()
      requires Valid()
      modifies this
      ensures Valid() && history == Announce(old(history), ResumeBackground)
    {
      if state.pauseBackground {
        state := state.(pauseBackground := false);
        Broadcast();
      }
    }

    /**
     One poll of a waiting task, undisturbed: it receives until it is done or nothing is left. It
     stops at the first unread state that satisfies the condition, unless it lags.
     */
    method PollWait(w: Waiter, capacity: nat) returns (r: Waiter)
      requires Valid() && WaiterValid(history, capacity, w) && w.phase.Waiting?
      ensures WaiterValid(history, capacity, r) && r.kind == w.kind && r.start == w.start
      ensures r.phase.Waiting? ==> !Ready(w.kind, state) && r.phase.next == |history|
      ensures r.phase == Done(Interrupted) <==> |history| - w.phase.next > capacity
      ensures r.phase.Done? && r.phase.outcome.Ok? ==>
                w.phase.next <= r.phase.outcome.seen &&
                forall i | w.phase.next <= i < r.phase.outcome.seen :: !Ready(w.kind, history[i])
    {
      r := w;
      while r.phase.Waiting? && r.phase.next < |history|
        invariant WaiterValid(history, capacity, r) && r.kind == w.kind && r.start == w.start
        invariant !r.phase.Subscribed? && (r.phase.Waiting? ==> w.phase.next <= r.phase.next)
        invariant r.phase.Waiting? && r.phase.next > w.phase.next ==> |history| - w.phase.next <= capacity
        invariant r.phase == Done(Interrupted) ==> |history| - w.phase.next > capacity
        invariant r.phase.Done? && r.phase.outcome.Ok? ==>
                    && |history| - w.phase.next <= capacity
                    && w.phase.next <= r.phase.outcome.seen
                    && forall i | w.phase.next <= i < r.phase.outcome.seen :: !Ready(w.kind, history[i])
        decreases r.phase.Waiting?, if r.phase.Waiting? then |history| - r.phase.next else 0
      {
        r := Received(history, capacity, r);
      }
    }
  }
}
