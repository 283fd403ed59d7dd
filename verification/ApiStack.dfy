/**
 The API access stack as a whole: selector, request service and connector, joined by their queues.

 The selector's announcements are read from its `announced` log; `delivered` says how many the
 service has forwarded. Clients may send any command at any time; a client that gave up on its
 reply stops the selector, and closing the command channel stops the service.
 */
module ApiStack {
  import opened Common
  import opened ConnectionMode
  import AM = AccessMode
  import RS = RequestService
  import CN = Connector

  /** The recognised ciphers, and the modulus of the generation counter. */
  datatype Env = Env(known: Ciphers, usize: nat)

  /** A selector command and whether the request service is waiting for its reply. */
  datatype Envelope = Envelope(message: AM.Message, fromService: bool)

  datatype System = System(
    initial: Mode,
    selector: AM.Selector, selectorUp: bool, inbox: seq<Envelope>,
    delivered: nat,
    service: RS.Service, serviceUp: bool, awaiting: bool, served: nat,
    queue: seq<CN.Request>, inner: InnerMode)

  function Spawned(settings: AM.Settings, answer: AM.Answer): System {
    var selector := AM.Spawned(settings, answer);
    var initial := selector.current.mode;
    System(initial, selector, true, [], 0, RS.Spawned, true, false, 0, [CN.SetConnectionMode(initial)], InnerDirect)
  }

  datatype Event =
    | Ask(message: AM.Message)                            // a client commands the selector
    | SelectorHandles(answer: AM.Answer, replied: bool)   // `replied` false: the client is gone
    | Forward                                             // the service forwards an announcement
    | Service(event: RS.Event)                            // a client, a request task or the service loop
    | StopService                                         // the service leaves its loop
    | ConnectorHandles

  predicate Enabled(s: System, e: Event) {
    match e
    case Ask(_) => s.selectorUp
    case SelectorHandles(_, _) => s.selectorUp && s.inbox != []
    case Forward => s.serviceUp && !s.awaiting && s.delivered < |s.selector.announced|
    case Service(event) => event.Process? ==> s.serviceUp && !s.awaiting && s.service.commands != []
    case StopService => s.serviceUp && !s.awaiting &&
                        (s.service.commands == [] || (!s.selectorUp && s.delivered == |s.selector.announced|))
    case ConnectorHandles => s.queue != []
  }

  /** The selector's loop: a reply that cannot be sent ends it, and with it every queued command. */
  function SelectorStep(s: System, answer: AM.Answer, replied: bool): System
    requires s.inbox != []
  {
    var t := s.(selector := AM.Handled(s.selector, s.inbox[0].message, answer));
    if s.inbox[0].fromService
    then t.(inbox := s.inbox[1..], awaiting := false, served := s.served + 1)
    else if replied then t.(inbox := s.inbox[1..])
    else t.(selectorUp := false, inbox := [], awaiting := false)
  }

  /** The service's loop on its next command; rotating sends a command to the selector and waits. */
  function ProcessStep(env: Env, s: System): System
    requires env.usize > 0 && s.service.commands != []
  {
    var t := s.(service := RS.Processed(s.service, env.usize));
    if s.service.commands[0].Reset? then t.(queue := s.queue + [CN.Reset])
    else if RS.Rotates(s.service) && s.selectorUp
    then t.(inbox := s.inbox + [Envelope(AM.Rotate, true)], awaiting := true)
    else t
  }

  /** One step; an event that cannot happen in `s` changes nothing. */
  function Next(env: Env, s: System, e: Event): System
    requires env.usize > 0
  {
    if !Enabled(s, e) then s
    else match e
      case Ask(message) => s.(inbox := s.inbox + [Envelope(message, false)])
      case SelectorHandles(answer, replied) => SelectorStep(s, answer, replied)
      case Forward => s.(queue := s.queue + [CN.SetConnectionMode(s.selector.announced[s.delivered])],
                         delivered := s.delivered + 1)
      case Service(event) =>
        if event.Process? then ProcessStep(env, s)
        else s.(service := RS.Next(s.service, env.usize, event))
      case StopService => s.(serviceUp := false, queue := s.queue + [CN.Reset])
      case ConnectorHandles => s.(inner := CN.Applied(env.known, s.inner, s.queue[0]), queue := s.queue[1..])
  }

  function Run(env: Env, s: System, events: seq<Event>): System
    requires env.usize > 0
  {
    if events == [] then s else Next(env, Run(env, s, Front(events)), Last(events))
  }

  // ----- invariant

  /** How many commands of the request service wait in the selector's inbox. */
  function Pending(inbox: seq<Envelope>): nat {
    if inbox == [] then 0 else Pending(inbox[1..]) + if inbox[0].fromService then 1 else 0
  }

  lemma {:induction false} PendingSnoc(inbox: seq<Envelope>, e: Envelope)
    ensures Pending(inbox + [e]) == Pending(inbox) + if e.fromService then 1 else 0
  {
    if inbox != [] {
      PendingSnoc(inbox[1..], e);
      assert (inbox + [e])[1..] == inbox[1..] + [e];
    }
  }

  ghost predicate SelectorValid(s: System) {
    && s.selector.Consistent()
    && s.selector.current.mode == AM.LastAnnounced(s.initial, s.selector.announced)
  }

  /** What was forwarded so far is what the connector has stored once its queue is empty. */
  ghost predicate QueuesValid(env: Env, s: System) {
    && s.delivered <= |s.selector.announced|
    && StoredAll(env.known, s.inner, CN.Modes(s.queue)) ==
       StoredAll(env.known, InnerDirect, [s.initial] + s.selector.announced[..s.delivered])
  }

  /** The service waits exactly while its one rotation is in the selector's inbox. */
  ghost predicate RotationsValid(env: Env, s: System)
    requires env.usize > 0
  {
    && RS.Invariant(s.service, env.usize)
    && Pending(s.inbox) == (if s.awaiting then 1 else 0)
    && (s.awaiting ==> s.selectorUp)
    && s.served + Pending(s.inbox) <= |s.service.accepted|
    && (s.selectorUp ==> s.served + Pending(s.inbox) == |s.service.accepted|)
  }

  ghost predicate Invariant(env: Env, s: System)
    requires env.usize > 0
  {
    SelectorValid(s) && QueuesValid(env, s) && RotationsValid(env, s)
  }

  lemma NextKeepsSelector(env: Env, s: System, e: Event)
    requires env.usize > 0 && SelectorValid(s)
    ensures SelectorValid(Next(env, s, e))
    ensures Next(env, s, e).initial == s.initial && s.selector.announced <= Next(env, s, e).selector.announced
  {
    if e.SelectorHandles? && Enabled(s, e) {
      AM.HandledKeepsConsistency(s.selector, s.inbox[0].message, e.answer);
    }
  }

  lemma ForwardKeepsQueues(env: Env, s: System)
    requires env.usize > 0 && QueuesValid(env, s) && Enabled(s, Forward)
    ensures QueuesValid(env, Next(env, s, Forward))
  {
    var t := Next(env, s, Forward);
    var mode := s.selector.announced[s.delivered];
    var forwarded := [s.initial] + s.selector.announced[..s.delivered];
    assert [t.initial] + t.selector.announced[..t.delivered] == forwarded + [mode];
    assert Front(t.queue) == s.queue && CN.Modes(t.queue) == CN.Modes(s.queue) + [mode];
    assert Front(forwarded + [mode]) == forwarded && Front(CN.Modes(s.queue) + [mode]) == CN.Modes(s.queue);
  }

  lemma ConnectorKeepsQueues(env: Env, s: System)
    requires env.usize > 0 && QueuesValid(env, s) && Enabled(s, ConnectorHandles)
    ensures QueuesValid(env, Next(env, s, ConnectorHandles))
  {
    var t := Next(env, s, ConnectorHandles);
    CN.ModesHead(s.queue);
    var head := if s.queue[0].SetConnectionMode? then [s.queue[0].mode] else [];
    StoredAllAppend(env.known, s.inner, head, CN.Modes(t.queue));
    if head != [] {
      assert Front(head) == [];
    }
    assert StoredAll(env.known, s.inner, head) == t.inner;
  }

  lemma ModesSnocReset(queue: seq<CN.Request>)
    ensures CN.Modes(queue + [CN.Reset]) == CN.Modes(queue)
  {
    assert Front(queue + [CN.Reset]) == queue;
  }

  /** The agreement of the queues does not depend on anything else in the system. */
  lemma QueuesFrame(env: Env, s: System, t: System)
    requires QueuesValid(env, s)
    requires t.initial == s.initial && t.inner == s.inner && t.delivered == s.delivered
    requires CN.Modes(t.queue) == CN.Modes(s.queue) && s.selector.announced <= t.selector.announced
    ensures QueuesValid(env, t)
  {
    assert t.selector.announced[..s.delivered] == s.selector.announced[..s.delivered];
  }

  lemma OthersKeepQueues(env: Env, s: System, e: Event)
    requires env.usize > 0 && !(Enabled(s, e) && (e.Forward? || e.ConnectorHandles?))
    ensures var t := Next(env, s, e);
            && t.initial == s.initial && t.inner == s.inner && t.delivered == s.delivered
            && (t.queue == s.queue || t.queue == s.queue + [CN.Reset])
  {
  }

  lemma NextKeepsQueues(env: Env, s: System, e: Event)
    requires env.usize > 0 && SelectorValid(s) && QueuesValid(env, s)
    ensures QueuesValid(env, Next(env, s, e))
  {
    if Enabled(s, e) && e.Forward? {
      ForwardKeepsQueues(env, s);
    } else if Enabled(s, e) && e.ConnectorHandles? {
      ConnectorKeepsQueues(env, s);
    } else {
      OthersKeepQueues(env, s, e);
      NextKeepsSelector(env, s, e);
      var t := Next(env, s, e);
      assert CN.Modes(t.queue) == CN.Modes(s.queue) by {
        ModesSnocReset(s.queue);
      }
      QueuesFrame(env, s, t);
    }
  }

  lemma NextKeepsRotations(env: Env, s: System, e: Event)
    requires env.usize > 0 && RotationsValid(env, s)
    ensures RotationsValid(env, Next(env, s, e))
  {
    if Enabled(s, e) {
      match e
      case Ask(message) => PendingSnoc(s.inbox, Envelope(message, false));
      case Service(event) =>
        if event.Process? {
          ProcessStepKeepsRotations(env, s);
        } else {
          RS.NextKeepsInvariant(s.service, env.usize, event);
        }
      case _ =>
    }
  }

  lemma ProcessStepKeepsRotations(env: Env, s: System)
    requires env.usize > 0 && RotationsValid(env, s) && !s.awaiting && s.service.commands != []
    ensures RotationsValid(env, ProcessStep(env, s))
  {
    RS.ProcessedKeepsInvariant(s.service, env.usize);
    PendingSnoc(s.inbox, Envelope(AM.Rotate, true));
    assert |RS.Processed(s.service, env.usize).accepted| == |s.service.accepted| + if RS.Rotates(s.service) then 1 else 0;
  }

  lemma {:induction false} RunKeepsInvariant(env: Env, settings: AM.Settings, answer: AM.Answer, events: seq<Event>)
    requires env.usize > 0
    ensures Invariant(env, Run(env, Spawned(settings, answer), events))
  {
    if events != [] {
      RunKeepsInvariant(env, settings, answer, Front(events));
      var s := Run(env, Spawned(settings, answer), Front(events));
      NextKeepsSelector(env, s, Last(events));
      NextKeepsQueues(env, s, Last(events));
      NextKeepsRotations(env, s, Last(events));
    } else {
      AM.RunIsConsistent(settings, answer, []);
      var s := Spawned(settings, answer);
      assert Front(s.queue) == [];
      assert CN.Modes(s.queue) == [s.initial] == [s.initial] + s.selector.announced[..0];
    }
  }

  // ----- agreement

  /**
   End-to-end agreement: in every run, letting the connector work off its queue and then everything
   the service has yet to forward leaves it with the last announced mode that parses, which is the
   selector's current mode whenever that one parses.
   */
  lemma {:induction false} EndToEndAgreement(env: Env, settings: AM.Settings, answer: AM.Answer, events: seq<Event>)
    requires env.usize > 0
    ensures var s := Run(env, Spawned(settings, answer), events);
            && s.delivered <= |s.selector.announced|
            && var final := StoredAll(env.known, s.inner, CN.Modes(s.queue) + s.selector.announced[s.delivered..]);
            && final == StoredAll(env.known, InnerDirect, [s.initial] + s.selector.announced)
            && (Parse(env.known, s.selector.current.mode).Some? ==>
                  final == Parse(env.known, s.selector.current.mode).value)
  {
    RunKeepsInvariant(env, settings, answer, events);
    Agreement(env, Run(env, Spawned(settings, answer), events));
  }

  lemma Agreement(env: Env, s: System)
    requires env.usize > 0 && Invariant(env, s)
    ensures var final := StoredAll(env.known, s.inner, CN.Modes(s.queue) + s.selector.announced[s.delivered..]);
            && final == StoredAll(env.known, InnerDirect, [s.initial] + s.selector.announced)
            && (Parse(env.known, s.selector.current.mode).Some? ==>
                  final == Parse(env.known, s.selector.current.mode).value)
  {
    var announced := s.selector.announced;
    var rest := announced[s.delivered..];
    StoredAllAppend(env.known, s.inner, CN.Modes(s.queue), rest);
    StoredAllAppend(env.known, InnerDirect, [s.initial] + announced[..s.delivered], rest);
    PrependSplit(s.initial, announced, s.delivered);
  }

  lemma PrependSplit(first: Mode, modes: seq<Mode>, k: nat)
    requires k <= |modes|
    ensures ([first] + modes[..k]) + modes[k..] == [first] + modes
    ensures Last([first] + modes) == AM.LastAnnounced(first, modes)
  {
  }

  lemma {:induction false} RunCons(env: Env, s: System, e: Event, events: seq<Event>)
    requires env.usize > 0
    ensures Run(env, s, [e] + events) == Run(env, Next(env, s, e), events)
  {
    if events == [] {
      assert [e] + events == [e] && Front([e]) == [];
    } else {
      RunCons(env, s, e, Front(events));
      assert Front([e] + events) == [e] + Front(events);
    }
  }

  /** The connector holds the last announced mode that parses. */
  ghost predicate Settled(env: Env, t: System, initial: Mode, selector: AM.Selector) {
    && t.queue == [] && t.delivered == |t.selector.announced| && t.selector == selector
    && t.inner == StoredAll(env.known, InnerDirect, [initial] + selector.announced)
    && (Parse(env.known, selector.current.mode).Some? ==> t.inner == Parse(env.known, selector.current.mode).value)
  }

  lemma DrainFrame(env: Env, s: System, e: Event)
    requires env.usize > 0 && (e == Forward || e == ConnectorHandles) && Enabled(s, e)
    ensures var t := Next(env, s, e);
            && t.serviceUp == s.serviceUp && t.awaiting == s.awaiting && t.selector == s.selector && t.initial == s.initial
            && t.inbox == s.inbox && t.selectorUp == s.selectorUp
            && t.delivered == (if e == Forward then s.delivered + 1 else s.delivered)
            && (e == ConnectorHandles ==> |t.queue| < |s.queue|)
  {
  }

  lemma DrainStep(env: Env, s: System, e: Event)
    requires env.usize > 0 && Invariant(env, s) && (e == Forward || e == ConnectorHandles) && Enabled(s, e)
    ensures Invariant(env, Next(env, s, e))
  {
    NextKeepsSelector(env, s, e);
    NextKeepsQueues(env, s, e);
    NextKeepsRotations(env, s, e);
  }

  lemma DrainedIsSettled(env: Env, s: System)
    requires env.usize > 0 && Invariant(env, s) && s.queue == [] && s.delivered == |s.selector.announced|
    ensures Settled(env, s, s.initial, s.selector)
  {
    Agreement(env, s);
    assert CN.Modes(s.queue) + s.selector.announced[s.delivered..] == [];
  }

  /** A service that waits for no reply forwards everything, and the connector works it off. */
  lemma {:induction false} DrainQueues(env: Env, s: System) returns (events: seq<Event>)
    requires env.usize > 0 && Invariant(env, s) && s.serviceUp && !s.awaiting
    ensures var t := Run(env, s, events);
            Settled(env, t, s.initial, s.selector) && !t.awaiting && t.inbox == s.inbox && t.selectorUp == s.selectorUp
    decreases |s.selector.announced| - s.delivered, |s.queue|
  {
    if s.delivered < |s.selector.announced| || s.queue != [] {
      var e := if s.delivered < |s.selector.announced| then Forward else ConnectorHandles;
      DrainStep(env, s, e);
      DrainFrame(env, s, e);
      events := DrainQueues(env, Next(env, s, e));
      RunCons(env, s, e, events);
      events := [e] + events;
    } else {
      events := [];
      DrainedIsSettled(env, s);
    }
  }

  lemma ServeStep(env: Env, s: System, answer: AM.Answer)
    requires env.usize > 0 && Invariant(env, s) && s.serviceUp && s.selectorUp && s.inbox != []
    ensures var t := Next(env, s, SelectorHandles(answer, true));
            Invariant(env, t) && t.serviceUp && t.selectorUp && t.initial == s.initial && |t.inbox| < |s.inbox|
  {
    NextKeepsSelector(env, s, SelectorHandles(answer, true));
    NextKeepsQueues(env, s, SelectorHandles(answer, true));
    NextKeepsRotations(env, s, SelectorHandles(answer, true));
  }

  /** A running selector can serve its whole inbox, whatever the resolver answers, and so free the service. */
  lemma {:induction false} ServeInbox(env: Env, s: System, answer: AM.Answer) returns (events: seq<Event>)
    requires env.usize > 0 && Invariant(env, s) && s.serviceUp
    ensures var t := Run(env, s, events);
            && Invariant(env, t) && t.serviceUp && !t.awaiting && t.initial == s.initial
            && (t.selectorUp ==> t.inbox == [])
    decreases |s.inbox|
  {
    if s.selectorUp && s.inbox != [] {
      var e := SelectorHandles(answer, true);
      ServeStep(env, s, answer);
      events := ServeInbox(env, Next(env, s, e), answer);
      RunCons(env, s, e, events);
      events := [e] + events;
    } else {
      events := [];
    }
  }

  lemma {:induction false} RunAppend(env: Env, s: System, a: seq<Event>, b: seq<Event>)
    requires env.usize > 0
    ensures Run(env, s, a + b) == Run(env, Run(env, s, a), b)
  {
    if b == [] {
      assert a + b == a;
    } else {
      RunAppend(env, s, a, Front(b));
      assert Front(a + b) == a + Front(b) && Last(a + b) == Last(b);
      assert Run(env, s, a + b) == Next(env, Run(env, s, a + Front(b)), Last(b));
    }
  }

  /**
   From every state of every run in which the service is up, also while it waits for the selector's
   reply and announcements pile up, and whatever the resolver answers: the run can go on so that the
   inbox of a running selector and all queues are empty and nobody waits, and then the two ends
   agree. The connector holds the parsed form of the selector's current mode if there is one.
   */
  lemma {:induction false} Drain(env: Env, settings: AM.Settings, first: AM.Answer, events: seq<Event>, answer: AM.Answer)
    returns (more: seq<Event>)
    requires env.usize > 0 && Run(env, Spawned(settings, first), events).serviceUp
    ensures var t := Run(env, Spawned(settings, first), events + more);
            Settled(env, t, Spawned(settings, first).initial, t.selector) && !t.awaiting && (t.selectorUp ==> t.inbox == [])
  {
    var start := Spawned(settings, first);
    RunKeepsInvariant(env, settings, first, events);
    RunKeepsInitial(env, start, events);
    var s := Run(env, start, events);
    var serve := ServeInbox(env, s, answer);
    var drain := DrainQueues(env, Run(env, s, serve));
    more := serve + drain;
    RunAppend(env, s, serve, drain);
    RunAppend(env, start, events, more);
  }

  lemma {:induction false} RunKeepsInitial(env: Env, s: System, events: seq<Event>)
    requires env.usize > 0
    ensures Run(env, s, events).initial == s.initial
  {
    if events != [] {
      RunKeepsInitial(env, s, Front(events));
      NextKeepsInitial(env, Run(env, s, Front(events)), Last(events));
    }
  }

  lemma NextKeepsInitial(env: Env, s: System, e: Event)
    requires env.usize > 0
    ensures Next(env, s, e).initial == s.initial
  {
  }

  // ----- the actors run as they do alone

  /** The command, with the resolver's answer, that the selector handles in a step. */
  function NewlyServed(s: System, e: Event): seq<(AM.Message, AM.Answer)> {
    if e.SelectorHandles? && Enabled(s, e) then [(s.inbox[0].message, e.answer)] else []
  }

  function Served(env: Env, start: System, events: seq<Event>): seq<(AM.Message, AM.Answer)>
    requires env.usize > 0
  {
    if events == [] then []
    else Served(env, start, Front(events)) + NewlyServed(Run(env, start, Front(events)), Last(events))
  }

  /** The events of the request service in a step. */
  function NewlyDone(s: System, e: Event): seq<RS.Event> {
    if e.Service? && Enabled(s, e) then [e.event] else []
  }

  function Done(env: Env, start: System, events: seq<Event>): seq<RS.Event>
    requires env.usize > 0
  {
    if events == [] then []
    else Done(env, start, Front(events)) + NewlyDone(Run(env, start, Front(events)), Last(events))
  }

  lemma ActorsStep(env: Env, s: System, e: Event)
    requires env.usize > 0
    ensures Next(env, s, e).selector == if e.SelectorHandles? && Enabled(s, e)
                                        then AM.Handled(s.selector, s.inbox[0].message, e.answer) else s.selector
    ensures Next(env, s, e).service == if e.Service? && Enabled(s, e)
                                       then RS.Next(s.service, env.usize, e.event) else s.service
  {
  }

  lemma SelectorRunSnoc(s: AM.Selector, commands: seq<(AM.Message, AM.Answer)>, message: AM.Message, answer: AM.Answer)
    ensures AM.Run(s, commands + [(message, answer)]) == AM.Handled(AM.Run(s, commands), message, answer)
  {
    assert Front(commands + [(message, answer)]) == commands;
  }

  lemma ServiceRunSnoc(s: RS.Service, usize: nat, events: seq<RS.Event>, e: RS.Event)
    requires usize > 0
    ensures RS.Run(s, usize, events + [e]) == RS.Next(RS.Run(s, usize, events), usize, e)
  {
    assert Front(events + [e]) == events;
  }

  lemma {:induction false} SelectorRunsAlone(env: Env, start: System, events: seq<Event>)
    requires env.usize > 0
    ensures Run(env, start, events).selector == AM.Run(start.selector, Served(env, start, events))
  {
    if events != [] {
      var s, e, served := Run(env, start, Front(events)), Last(events), Served(env, start, Front(events));
      SelectorRunsAlone(env, start, Front(events));
      ActorsStep(env, s, e);
      if e.SelectorHandles? && Enabled(s, e) {
        SelectorRunSnoc(start.selector, served, s.inbox[0].message, e.answer);
      } else {
        assert served + [] == served;
      }
    }
  }

  lemma {:induction false} ServiceRunsAlone(env: Env, start: System, events: seq<Event>)
    requires env.usize > 0
    ensures Run(env, start, events).service == RS.Run(start.service, env.usize, Done(env, start, events))
  {
    if events != [] {
      var s, e, done := Run(env, start, Front(events)), Last(events), Done(env, start, Front(events));
      ServiceRunsAlone(env, start, Front(events));
      ActorsStep(env, s, e);
      if e.Service? && Enabled(s, e) {
        ServiceRunSnoc(start.service, env.usize, done, e.event);
      } else {
        assert done + [] == done;
      }
    }
  }

  /**
   In every run of the stack its selector is in a state it reaches alone on the commands it served,
   and its service on its own events, so that all that holds of their runs holds here.
   */
  lemma {:induction false} ActorsRunAlone(env: Env, settings: AM.Settings, first: AM.Answer, events: seq<Event>)
    requires env.usize > 0
    ensures var start := Spawned(settings, first);
            var s := Run(env, start, events);
            && s.selector == AM.Run(AM.Spawned(settings, first), Served(env, start, events))
            && s.service == RS.Run(RS.Spawned, env.usize, Done(env, start, events))
  {
    SelectorRunsAlone(env, Spawned(settings, first), events);
    ServiceRunsAlone(env, Spawned(settings, first), events);
  }

  // ----- the queues between them

  /** The command sent to a running selector in a step: a client's, or the service's rotation. */
  function NewlyAsked(s: System, e: Event): seq<Envelope> {
    if e.Ask? && s.selectorUp then [Envelope(e.message, false)]
    else if e.Service? && e.event.Process? && Enabled(s, e) && RS.Rotates(s.service) && s.selectorUp
    then [Envelope(AM.Rotate, true)]
    else []
  }

  function Asked(env: Env, start: System, events: seq<Event>): seq<Envelope>
    requires env.usize > 0
  {
    if events == [] then []
    else Asked(env, start, Front(events)) + NewlyAsked(Run(env, start, Front(events)), Last(events))
  }

  lemma InboxStep(env: Env, s: System, e: Event)
    requires env.usize > 0
    ensures var t := Next(env, s, e);
            && (e.SelectorHandles? && Enabled(s, e) && t.selectorUp ==> t.inbox == s.inbox[1..])
            && (!(e.SelectorHandles? && Enabled(s, e)) ==>
                  t.inbox == s.inbox + NewlyAsked(s, e) && t.selectorUp == s.selectorUp)
            && (t.selectorUp ==> s.selectorUp)
  {
  }

  /** The inbox is what was asked behind what was served, and that was served as asked. */
  predicate ServedInOrder(inbox: seq<Envelope>, asked: seq<Envelope>, served: seq<(AM.Message, AM.Answer)>) {
    && |served| <= |asked| && inbox == asked[|served|..]
    && forall k | 0 <= k < |served| :: served[k].0 == asked[k].message
  }

  lemma AskedStep(env: Env, s: System, e: Event, asked: seq<Envelope>, served: seq<(AM.Message, AM.Answer)>)
    requires env.usize > 0 && ServedInOrder(s.inbox, asked, served) && Next(env, s, e).selectorUp
    ensures ServedInOrder(Next(env, s, e).inbox, asked + NewlyAsked(s, e), served + NewlyServed(s, e))
  {
    InboxStep(env, s, e);
    if e.SelectorHandles? && Enabled(s, e) {
      assert NewlyAsked(s, e) == [] && asked + [] == asked;
      assert asked[|served|..][1..] == asked[|served| + 1..];
    } else {
      assert served + [] == served;
      assert (asked + NewlyAsked(s, e))[|served|..] == asked[|served|..] + NewlyAsked(s, e);
    }
  }

  /**
   Commands reach the selector in the order in which clients and the service sent them, none lost and
   none twice: while the selector is up, its inbox is what was sent behind what it served. Every
   rotation of the service is one of them.
   */
  lemma {:induction false} CommandsReachSelector(env: Env, start: System, events: seq<Event>)
    requires env.usize > 0 && start.inbox == [] && Run(env, start, events).selectorUp
    ensures ServedInOrder(Run(env, start, events).inbox, Asked(env, start, events), Served(env, start, events))
  {
    if events != [] {
      var s := Run(env, start, Front(events));
      InboxStep(env, s, Last(events));
      CommandsReachSelector(env, start, Front(events));
      AskedStep(env, s, Last(events), Asked(env, start, Front(events)), Served(env, start, Front(events)));
    }
  }

  /** The request sent to the connector in a step: an announcement, a reset, or the last reset of a service that stops. */
  function NewlyForwarded(s: System, e: Event): seq<CN.Request> {
    if !Enabled(s, e) then []
    else match e
      case Forward => [CN.SetConnectionMode(s.selector.announced[s.delivered])]
      case Service(event) => if event.Process? && s.service.commands[0].Reset? then [CN.Reset] else []
      case StopService => [CN.Reset]
      case _ => []
  }

  function Forwarded(env: Env, start: System, events: seq<Event>): seq<CN.Request>
    requires env.usize > 0
  {
    if events == [] then start.queue
    else Forwarded(env, start, Front(events)) + NewlyForwarded(Run(env, start, Front(events)), Last(events))
  }

  /** How many of them the connector has handled. */
  function HandledCount(env: Env, start: System, events: seq<Event>): nat
    requires env.usize > 0
  {
    if events == [] then 0
    else
      var n := HandledCount(env, start, Front(events));
      if Last(events).ConnectorHandles? && n < |Forwarded(env, start, Front(events))| then n + 1 else n
  }

  lemma QueueStep(env: Env, s: System, e: Event)
    requires env.usize > 0
    ensures var t := Next(env, s, e);
            if e.ConnectorHandles? && s.queue != []
            then t.queue == s.queue[1..] && t.inner == CN.Applied(env.known, s.inner, s.queue[0])
            else t.queue == s.queue + NewlyForwarded(s, e) && t.inner == s.inner
  {
  }

  lemma ForwardedStep(env: Env, s: System, e: Event, all: seq<CN.Request>, n: nat)
    requires env.usize > 0 && n <= |all| && s.queue == all[n..]
    ensures var m := if e.ConnectorHandles? && n < |all| then n + 1 else n;
            m <= |all + NewlyForwarded(s, e)| && Next(env, s, e).queue == (all + NewlyForwarded(s, e))[m..]
  {
    QueueStep(env, s, e);
    if e.ConnectorHandles? {
      assert all + [] == all && (n < |all| ==> all[n..][1..] == all[n + 1..]);
    } else {
      assert (all + NewlyForwarded(s, e))[n..] == all[n..] + NewlyForwarded(s, e);
    }
  }

  /**
   Announcements and resets reach the connector in the order in which the service handled them, none
   lost and none twice: its queue is what was forwarded behind what it handled.
   */
  lemma {:induction false} RequestsReachConnector(env: Env, start: System, events: seq<Event>)
    requires env.usize > 0
    ensures HandledCount(env, start, events) <= |Forwarded(env, start, events)|
    ensures Run(env, start, events).queue == Forwarded(env, start, events)[HandledCount(env, start, events)..]
  {
    if events != [] {
      RequestsReachConnector(env, start, Front(events));
      ForwardedStep(env, Run(env, start, Front(events)), Last(events), Forwarded(env, start, Front(events)),
                    HandledCount(env, start, Front(events)));
    } else {
      assert start.queue[0..] == start.queue;
    }
  }

  /**
   Rotations in the whole stack: a waiting service always has its one command queued at a running
   selector, and while the selector runs it has performed one rotation for every one that was asked for.
   */
  lemma {:induction false} RotationsAreServed(env: Env, settings: AM.Settings, answer: AM.Answer, events: seq<Event>)
    requires env.usize > 0
    ensures var s := Run(env, Spawned(settings, answer), events);
            && (s.awaiting ==> s.selectorUp && s.inbox != [])
            && (s.selectorUp ==> |s.service.accepted| == s.served + if s.awaiting then 1 else 0)
            && s.served <= |s.service.accepted|
  {
    RunKeepsInvariant(env, settings, answer, events);
  }
}
