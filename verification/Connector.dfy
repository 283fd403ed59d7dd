/**
 The HTTPS connector: a request task that switches the proxy mode and closes live streams, while
 connection attempts and `poll_ready` run beside it.

 Every locked section of the source is one step, and so is each `close` and the final
 `notify_waiters`, so that attempts may interleave with the request task in any order. The abort
 notice follows tokio's `Notify`: `notify_waiters` fires exactly the notices created before it.
 */
module Connector {
  import opened Common
  import opened ConnectionMode

  datatype Request = Reset | SetConnectionMode(mode: Mode)

  /** What a request does to the stored mode. */
  function Applied(known: Ciphers, inner: InnerMode, request: Request): InnerMode {
    match request
    case Reset => inner
    case SetConnectionMode(mode) => Stored(known, inner, mode)
  }

  /** The request task: waiting for a request, or done with the lock and closing the handles it took. */
  datatype Handler = Idle | Closing(taken: seq<nat>)

  /**
   One call of the connector. `epoch` counts the requests whose locked section had run when the
   attempt read the mode; `fired` says whether its abort notice was given.
   */
  datatype Attempt =
    | Armed(fired: bool)
    | Connecting(mode: InnerMode, epoch: nat, fired: bool)
    | Connected(mode: InnerMode, epoch: nat)

  /** A stream that was handed out: the mode it uses, when that was read, and when it was registered. */
  datatype Stream = Stream(mode: InnerMode, captured: nat, pushed: nat)

  /** `modes` is the stored mode of each epoch so far; streams are named by their position in `streams`. */
  datatype State = State(modes: seq<InnerMode>, queue: seq<Request>, handler: Handler, handles: seq<nat>,
                         closed: set<nat>, streams: seq<Stream>, attempts: map<nat, Attempt>)
  {
    predicate WellFormed() {
      |modes| > 0
    }

    function Epoch(): nat
      requires WellFormed()
    {
      |modes| - 1
    }

    function Mode(): InnerMode
      requires WellFormed()
    {
      Last(modes)
    }
  }

  const Created := State([InnerDirect], [], Idle, [], {}, [], map[])

  datatype Event =
    | Send(request: Request)   // a handle queues a request
    | Take                     // locked section: store the mode, take the stream handles
    | CloseOne                 // close the next taken handle
    | Notify                   // all closed: fire the abort notices
    | Arm(attempt: nat)        // an attempt creates its abort notice
    | ReadMode(attempt: nat)   // and then reads the mode
    | Retry(attempt: nat)      // a fired notice starts the attempt over
    | Connect(attempt: nat)    // the connection is made, whether or not the notice has fired
    | Refuse(attempt: nat)     // the connection fails
    | Register(attempt: nat)   // the new stream's handle is pushed
    | StreamEnds(stream: nat)  // the client drops a stream
    | PollReady                // handles of closed streams are pruned

  function Retain(handles: seq<nat>, closed: set<nat>): (kept: seq<nat>)
    ensures forall h :: h in kept <==> h in handles && h !in closed
  {
    if handles == [] then []
    else Retain(Front(handles), closed) + if Last(handles) in closed then [] else [Last(handles)]
  }

  function Fired(attempt: Attempt): Attempt {
    if attempt.Connected? then attempt else attempt.(fired := true)
  }

  /** Whether an attempt that exists is in a state in which `e` can happen to it. */
  predicate AttemptCan(a: Attempt, e: Event) {
    match e
    case ReadMode(_) => a.Armed?
    case Retry(_) => a.Connecting? && a.fired
    case Connect(_) => a.Connecting?
    case Refuse(_) => a.Connecting?
    case Register(_) => a.Connected?
    case _ => false
  }

  predicate Enabled(s: State, e: Event) {
    match e
    case Send(_) => true
    case Take => s.handler.Idle? && s.queue != []
    case CloseOne => s.handler.Closing? && s.handler.taken != []
    case Notify => s.handler == Closing([])
    case Arm(a) => a !in s.attempts
    case StreamEnds(h) => h < |s.streams|
    case PollReady => true
    case _ => e.attempt in s.attempts && AttemptCan(s.attempts[e.attempt], e)
  }

  /** One step; an event that cannot happen in `s` changes nothing. */
  function Next(known: Ciphers, s: State, e: Event): State
    requires s.WellFormed()
  {
    if !Enabled(s, e) then s
    else match e
      case Send(request) => s.(queue := s.queue + [request])
      case Take => s.(modes := s.modes + [Applied(known, s.Mode(), s.queue[0])], queue := s.queue[1..],
                      handler := Closing(s.handles), handles := [])
      case CloseOne => s.(closed := s.closed + {s.handler.taken[0]}, handler := Closing(s.handler.taken[1..]))
      case Notify => s.(handler := Idle, attempts := map a | a in s.attempts :: Fired(s.attempts[a]))
      case Arm(a) => s.(attempts := s.attempts[a := Armed(false)])
      case ReadMode(a) => s.(attempts := s.attempts[a := Connecting(s.Mode(), s.Epoch(), s.attempts[a].fired)])
      case Retry(a) => s.(attempts := s.attempts[a := Armed(false)])
      case Connect(a) => s.(attempts := s.attempts[a := Connected(s.attempts[a].mode, s.attempts[a].epoch)])
      case Refuse(a) => s.(attempts := s.attempts - {a})
      case Register(a) => s.(attempts := s.attempts - {a}, handles := s.handles + [|s.streams|],
                             streams := s.streams + [Stream(s.attempts[a].mode, s.attempts[a].epoch, s.Epoch())])
      case StreamEnds(h) => s.(closed := s.closed + {h})
      case PollReady => s.(handles := Retain(s.handles, s.closed))
  }

  function Run(known: Ciphers, s: State, events: seq<Event>): (t: State)
    requires s.WellFormed()
    ensures t.WellFormed()
  {
    if events == [] then s else Next(known, Run(known, s, Front(events)), Last(events))
  }

  // ----- what every run keeps

  /** A pending attempt uses the mode of the epoch it read, and learns of every later switch. */
  predicate AttemptValid(s: State, a: Attempt)
    requires s.WellFormed()
  {
    match a
    case Armed(_) => true
    case Connecting(mode, epoch, fired) =>
      && epoch <= s.Epoch() && mode == s.modes[epoch]
      && (epoch == s.Epoch() || fired || s.handler.Closing?)
    case Connected(mode, epoch) => epoch <= s.Epoch() && mode == s.modes[epoch]
  }

  /** A registered stream is closed, or about to be, or listed since the last taking. */
  predicate StreamValid(s: State, h: nat)
    requires s.WellFormed() && h < |s.streams|
  {
    var stream := s.streams[h];
    && stream.captured <= stream.pushed <= s.Epoch()
    && stream.mode == s.modes[stream.captured]
    && (h in s.closed || (s.handler.Closing? && h in s.handler.taken) || (h in s.handles && stream.pushed == s.Epoch()))
  }

  ghost predicate Invariant(s: State) {
    && s.WellFormed()
    && (forall a | a in s.attempts :: AttemptValid(s, s.attempts[a]))
    && (forall h | 0 <= h < |s.streams| :: StreamValid(s, h))
  }

  lemma NextKeepsAttempts(known: Ciphers, s: State, e: Event)
    requires Invariant(s)
    ensures var t := Next(known, s, e); forall a | a in t.attempts :: AttemptValid(t, t.attempts[a])
  {
    var t := Next(known, s, e);
    assert forall i | 0 <= i < |s.modes| :: t.modes[i] == s.modes[i];
    forall a | a in t.attempts
      ensures AttemptValid(t, t.attempts[a])
    {
      if a in s.attempts {
        assert AttemptValid(s, s.attempts[a]);
      }
    }
  }

  lemma NextKeepsStreams(known: Ciphers, s: State, e: Event)
    requires Invariant(s)
    ensures var t := Next(known, s, e); forall h | 0 <= h < |t.streams| :: StreamValid(t, h)
  {
    var t := Next(known, s, e);
    assert forall i | 0 <= i < |s.modes| :: t.modes[i] == s.modes[i];
    forall h | 0 <= h < |t.streams|
      ensures StreamValid(t, h)
    {
      if h < |s.streams| {
        assert StreamValid(s, h) && t.streams[h] == s.streams[h];
      } else {
        assert AttemptValid(s, s.attempts[e.attempt]);
        assert Last(t.handles) == h;
      }
    }
  }

  lemma {:induction false} RunKeepsInvariant(known: Ciphers, events: seq<Event>)
    ensures Invariant(Run(known, Created, events))
  {
    if events != [] {
      RunKeepsInvariant(known, Front(events));
      var s := Run(known, Created, Front(events));
      NextKeepsAttempts(known, s, Last(events));
      NextKeepsStreams(known, s, Last(events));
    }
  }

  /**
   Pending connects see every switch: in every run an attempt in progress uses the stored mode, or
   its abort notice has fired, or the request task is between storing the mode and notifying.
   */
  lemma {:induction false} PendingConnectsSeeEverySwitch(known: Ciphers, events: seq<Event>, a: nat)
    requires var s := Run(known, Created, events); a in s.attempts && s.attempts[a].Connecting?
    ensures var s := Run(known, Created, events);
            s.attempts[a].mode == s.Mode() || s.attempts[a].fired || s.handler.Closing?
  {
    RunKeepsInvariant(known, events);
    var s := Run(known, Created, events);
    assert AttemptValid(s, s.attempts[a]);
  }

  /**
   Between requests every stream registered before the last request is closed, whatever pruning
   happened, and the handles of all open streams are listed.
   */
  lemma {:induction false} RequestsCloseEarlierStreams(known: Ciphers, events: seq<Event>, h: nat)
    requires var s := Run(known, Created, events); s.handler.Idle? && h < |s.streams|
    ensures var s := Run(known, Created, events);
            && (s.streams[h].pushed < s.Epoch() ==> h in s.closed)
            && (h !in s.closed ==> h in s.handles)
  {
    RunKeepsInvariant(known, events);
    assert StreamValid(Run(known, Created, events), h);
  }

  /**
   An open stream uses the stored mode exactly when the mode it read is still the one stored at its
   registration; in particular when no request was taken in between.
   */
  lemma {:induction false} OpenStreamUsesStoredModeIff(known: Ciphers, events: seq<Event>, h: nat)
    requires var s := Run(known, Created, events); s.handler.Idle? && h < |s.streams| && h !in s.closed
    ensures var s := Run(known, Created, events);
            var stream := s.streams[h];
            && stream.captured <= stream.pushed < |s.modes|
            && (stream.mode == s.Mode() <==> s.modes[stream.captured] == s.modes[stream.pushed])
            && (stream.captured == stream.pushed ==> stream.mode == s.Mode())
  {
    RunKeepsInvariant(known, events);
    assert StreamValid(Run(known, Created, events), h);
  }

  lemma RunSnoc(known: Ciphers, events: seq<Event>, e: Event)
    ensures Run(known, Created, events + [e]) == Next(known, Run(known, Created, events), e)
  {
    assert Front(events + [e]) == events;
  }

  /** A direct attempt is pending when the connector has switched to a local proxy but not notified yet. */
  lemma SwitchDuringAttempt(known: Ciphers)
    ensures Run(known, Created, [Arm(0), ReadMode(0), Send(SetConnectionMode(Proxied(Socks5Local(1080)))), Take]) ==
            State([InnerDirect, InnerSocks5(Localhost(1080), None)], [], Closing([]), [], {}, [],
                  map[0 := Connecting(InnerDirect, 0, false)])
  {
    var switch := Send(SetConnectionMode(Proxied(Socks5Local(1080))));
    RunSnoc(known, [], Arm(0));
    assert [Arm(0)] + [ReadMode(0)] == [Arm(0), ReadMode(0)];
    RunSnoc(known, [Arm(0)], ReadMode(0));
    assert Run(known, Created, [Arm(0), ReadMode(0)]) == Created.(attempts := map[0 := Connecting(InnerDirect, 0, false)]);
    assert [Arm(0), ReadMode(0)] + [switch] == [Arm(0), ReadMode(0), switch];
    RunSnoc(known, [Arm(0), ReadMode(0)], switch);
    assert [Arm(0), ReadMode(0), switch] + [Take] == [Arm(0), ReadMode(0), switch, Take];
    RunSnoc(known, [Arm(0), ReadMode(0), switch], Take);
  }

  /**
   A switch does not close every stream of the old mode: a connection that completes although its
   notice fired registers after the handles were taken and stays open.
   */
  lemma StaleStreamCanSurviveSwitch(known: Ciphers) returns (events: seq<Event>)
    ensures var s := Run(known, Created, events);
            && s.handler.Idle? && s.queue == [] && s.closed == {} && s.handles == [0]
            && |s.streams| == 1 && s.streams[0].mode == InnerDirect
            && s.Mode() == InnerSocks5(Localhost(1080), None)
  {
    SwitchDuringAttempt(known);
    events := [Arm(0), ReadMode(0), Send(SetConnectionMode(Proxied(Socks5Local(1080)))), Take];
    var s := Run(known, Created, events);
    RunSnoc(known, events, Notify);
    events := events + [Notify];
    var fired := s.(handler := Idle, attempts := map[0 := Connecting(InnerDirect, 0, true)]);
    assert Run(known, Created, events) == fired;
    RunSnoc(known, events, Connect(0));
    events := events + [Connect(0)];
    var connected := fired.(attempts := map[0 := Connected(InnerDirect, 0)]);
    assert Run(known, Created, events) == connected;
    RunSnoc(known, events, Register(0));
    events := events + [Register(0)];
  }

  // ----- requests in order

  /** The modes that requests will try to store, oldest first. */
  function Modes(queue: seq<Request>): seq<Mode> {
    if queue == [] then []
    else Modes(Front(queue)) + if Last(queue).SetConnectionMode? then [Last(queue).mode] else []
  }

  lemma {:induction false} ModesHead(queue: seq<Request>)
    requires queue != []
    ensures Modes(queue) == (if queue[0].SetConnectionMode? then [queue[0].mode] else []) + Modes(queue[1..])
  {
    if |queue| == 1 {
      assert Front(queue) == [] && queue[1..] == [];
    } else {
      ModesHead(Front(queue));
      assert Front(queue)[1..] == Front(queue[1..]);
    }
  }

  /** The requests sent in a run. */
  function Sent(events: seq<Event>): seq<Request> {
    if events == [] then [] else Sent(Front(events)) + if Last(events).Send? then [Last(events).request] else []
  }

  lemma QueueStep(known: Ciphers, s: State, e: Event)
    requires s.WellFormed()
    ensures var t := Next(known, s, e);
            t.WellFormed() &&
            if e.Send? then t.queue == s.queue + [e.request] && t.modes == s.modes
            else if e.Take? && Enabled(s, e)
            then t.queue == s.queue[1..] && t.modes == s.modes + [Applied(known, s.Mode(), s.queue[0])]
            else t.queue == s.queue && t.modes == s.modes
  {
  }

  lemma TakenInOrder(known: Ciphers, inner: InnerMode, queue: seq<Request>)
    requires queue != []
    ensures StoredAll(known, inner, Modes(queue)) == StoredAll(known, Applied(known, inner, queue[0]), Modes(queue[1..]))
  {
    ModesHead(queue);
    var head := if queue[0].SetConnectionMode? then [queue[0].mode] else [];
    StoredAllAppend(known, inner, head, Modes(queue[1..]));
    if head != [] {
      assert Front(head) == [];
    }
  }

  lemma ModesSnoc(queue: seq<Request>, request: Request)
    ensures Modes(queue + [request]) == Modes(queue) + if request.SetConnectionMode? then [request.mode] else []
  {
    assert Front(queue + [request]) == queue;
  }

  /**
   Requests take effect in the order in which they were sent, each once: in every run, storing the
   queued modes in what is stored gives the same as storing all the modes that were sent, and a
   reset stores nothing.
   */
  lemma {:induction false} RequestsInOrder(known: Ciphers, events: seq<Event>)
    ensures var s := Run(known, Created, events);
            && StoredAll(known, s.Mode(), Modes(s.queue)) == StoredAll(known, InnerDirect, Modes(Sent(events)))
            && s.Epoch() + |s.queue| == |Sent(events)|
  {
    if events != [] {
      var s, e := Run(known, Created, Front(events)), Last(events);
      RequestsInOrder(known, Front(events));
      QueueStep(known, s, e);
      if e.Send? {
        ModesSnoc(s.queue, e.request);
        ModesSnoc(Sent(Front(events)), e.request);
        var mode := if e.request.SetConnectionMode? then [e.request.mode] else [];
        StoredAllAppend(known, s.Mode(), Modes(s.queue), mode);
        StoredAllAppend(known, InnerDirect, Modes(Sent(Front(events))), mode);
      } else {
        assert Sent(events) == Sent(Front(events));
        if e.Take? && Enabled(s, e) {
          TakenInOrder(known, s.Mode(), s.queue);
          assert Run(known, Created, events).Mode() == Applied(known, s.Mode(), s.queue[0]);
        }
      }
    }
  }

  // ----- streams are closed for a cause

  /** Closed streams were dropped by their client or taken by a request. */
  ghost predicate ClosedForCause(s: State, events: seq<Event>)
    requires s.WellFormed()
  {
    && (forall h | h in s.closed :: h < |s.streams| && (StreamEnds(h) in events || s.streams[h].pushed < s.Epoch()))
    && (forall h | h in s.handles :: h < |s.streams|)
    && (s.handler.Closing? ==> forall h | h in s.handler.taken :: h < |s.streams| && s.streams[h].pushed < s.Epoch())
  }

  lemma TakeKeepsCause(known: Ciphers, s: State, events: seq<Event>)
    requires Invariant(s) && ClosedForCause(s, events) && Enabled(s, Take)
    ensures ClosedForCause(Next(known, s, Take), events)
  {
    forall h | h in s.handles
      ensures s.streams[h].pushed < s.Epoch() + 1
    {
      assert StreamValid(s, h);
    }
  }

  lemma NextKeepsCause(known: Ciphers, s: State, events: seq<Event>, e: Event)
    requires Invariant(s) && ClosedForCause(s, events) && e in events
    ensures ClosedForCause(Next(known, s, e), events)
  {
    if Enabled(s, e) {
      match e
      case Take => TakeKeepsCause(known, s, events);
      case CloseOne =>
        assert s.handler.taken[0] in s.handler.taken;
        assert forall h | h in s.handler.taken[1..] :: h in s.handler.taken;
      case _ =>
    }
  }

  /** In every run a stream is closed only because its client dropped it or a later request took it. */
  lemma {:induction false} StreamsCloseForCause(known: Ciphers, events: seq<Event>)
    ensures ClosedForCause(Run(known, Created, events), events)
  {
    if events != [] {
      var s := Run(known, Created, Front(events));
      StreamsCloseForCause(known, Front(events));
      RunKeepsInvariant(known, Front(events));
      assert forall x | x in Front(events) :: x in events;
      NextKeepsCause(known, s, events, Last(events));
    }
  }

  /** After `poll_ready` the list holds no closed stream any more, and still every open one it held. */
  lemma PollReadyPrunes(known: Ciphers, s: State)
    requires s.WellFormed()
    ensures forall h :: h in Next(known, s, PollReady).handles <==> h in s.handles && h !in s.closed
  {
  }

  /** In every run a stream that its client dropped is closed from then on. */
  lemma {:induction false} DroppedStreamsStayClosed(known: Ciphers, events: seq<Event>, more: seq<Event>, h: nat)
    requires h < |Run(known, Created, events).streams|
    ensures h in Run(known, Next(known, Run(known, Created, events), StreamEnds(h)), more).closed
  {
    var s := Next(known, Run(known, Created, events), StreamEnds(h));
    RunKeepsClosed(known, s, more);
  }

  lemma {:induction false} RunKeepsClosed(known: Ciphers, s: State, events: seq<Event>)
    requires s.WellFormed()
    ensures s.closed <= Run(known, s, events).closed
  {
    if events != [] {
      RunKeepsClosed(known, s, Front(events));
      NextKeepsClosed(known, Run(known, s, Front(events)), Last(events));
    }
  }

  lemma NextKeepsClosed(known: Ciphers, s: State, e: Event)
    requires s.WellFormed()
    ensures s.closed <= Next(known, s, e).closed
  {
  }

  // ----- attempts get through

  /** An attempt ends exactly when its connection fails or its stream is registered. */
  lemma AttemptEndsIff(known: Ciphers, s: State, e: Event, a: nat)
    requires s.WellFormed() && a in s.attempts
    ensures a !in Next(known, s, e).attempts <==> (e == Refuse(a) || e == Register(a)) && Enabled(s, e)
  {
  }

  /** A notice that was given stays until the attempt starts over or has connected. */
  lemma NoticeStays(known: Ciphers, s: State, e: Event, a: nat)
    requires s.WellFormed() && a in s.attempts && !s.attempts[a].Connected? && s.attempts[a].fired && e != Retry(a)
    ensures var t := Next(known, s, e);
            a in t.attempts && !t.attempts[a].Connected? ==> t.attempts[a].fired
  {
  }

  lemma {:induction false} RunCons(known: Ciphers, s: State, e: Event, events: seq<Event>)
    requires s.WellFormed()
    ensures Next(known, s, e).WellFormed() && Run(known, s, [e] + events) == Run(known, Next(known, s, e), events)
  {
    if events == [] {
      assert Front([e] + events) == [];
    } else {
      RunCons(known, s, e, Front(events));
      assert Front([e] + events) == [e] + Front(events);
    }
  }

  /** An attempt that read the stored mode can connect and register a stream that uses it. */
  lemma ConnectingGetsThrough(known: Ciphers, s: State, a: nat)
    requires s.WellFormed() && a in s.attempts && s.attempts[a].Connecting? && s.attempts[a].mode == s.Mode()
    ensures var t := Run(known, s, [Connect(a), Register(a)]);
            && |t.streams| == |s.streams| + 1 && Last(t.streams).mode == s.Mode() && |s.streams| in t.handles
            && t.closed == s.closed && t.modes == s.modes && a !in t.attempts
  {
    var p := Next(known, s, Connect(a));
    assert [Connect(a)] + [Register(a)] == [Connect(a), Register(a)];
    RunCons(known, s, Connect(a), [Register(a)]);
    RunCons(known, p, Register(a), []);
    assert [Register(a)] + [] == [Register(a)];
    assert Last(Next(known, p, Register(a)).handles) == |s.streams|;
  }

  lemma ArmedGetsThrough(known: Ciphers, s: State, a: nat) returns (events: seq<Event>)
    requires s.WellFormed() && a in s.attempts && s.attempts[a].Armed?
    ensures var t := Run(known, s, events);
            && |t.streams| == |s.streams| + 1 && Last(t.streams).mode == s.Mode() && |s.streams| in t.handles
            && t.closed == s.closed && t.modes == s.modes && a !in t.attempts
  {
    var p := Next(known, s, ReadMode(a));
    RunCons(known, s, ReadMode(a), [Connect(a), Register(a)]);
    ConnectingGetsThrough(known, p, a);
    events := [ReadMode(a)] + [Connect(a), Register(a)];
  }

  /**
   Attempts get through: whenever no request is being handled, a pending attempt can still register
   an open stream that uses the stored mode, starting over if the mode it read is an old one.
   */
  lemma {:induction false} AttemptsGetThrough(known: Ciphers, events: seq<Event>, a: nat) returns (more: seq<Event>)
    requires var s := Run(known, Created, events); s.handler.Idle? && a in s.attempts && !s.attempts[a].Connected?
    ensures var s := Run(known, Created, events);
            var t := Run(known, s, more);
            && |t.streams| == |s.streams| + 1 && Last(t.streams).mode == s.Mode() && |s.streams| in t.handles
            && |s.streams| !in t.closed && t.modes == s.modes && a !in t.attempts
  {
    var s := Run(known, Created, events);
    StreamsCloseForCause(known, events);
    RunKeepsInvariant(known, events);
    assert AttemptValid(s, s.attempts[a]);
    if s.attempts[a].Armed? {
      more := ArmedGetsThrough(known, s, a);
    } else if s.attempts[a].mode == s.Mode() {
      ConnectingGetsThrough(known, s, a);
      more := [Connect(a), Register(a)];
    } else {
      var rest := ArmedGetsThrough(known, Next(known, s, Retry(a)), a);
      RunCons(known, s, Retry(a), rest);
      more := [Retry(a)] + rest;
    }
  }

  // ----- the objects

  /** The sender inside an abort handle: taken by `close`, or still held. */
  datatype Sender = Taken | Held(canceled: bool)

  class AbortableStreamHandle {
    const id: nat
    var tx: Sender

    constructor (id: nat)
      ensures this.id == id && tx == Held(false)
    {
      this.id := id;
      tx := Held(false);
    }

    predicate IsClosed()
      reads this
    {
      tx.Taken? || tx.canceled
    }

    method Close()
      modifies this
      ensures IsClosed() && tx == Taken
    {
      if tx.Held? {
        tx := Taken;
      }
    }
  }

  function Ids(handles: seq<AbortableStreamHandle>): seq<nat> {
    seq(|handles|, i requires 0 <= i < |handles| => handles[i].id)
  }

  /** The handles whose streams are not closed, in order. */
  function StillOpen(handles: seq<AbortableStreamHandle>): seq<AbortableStreamHandle>
    reads handles
  {
    if handles == [] then []
    else StillOpen(Front(handles)) + if Last(handles).IsClosed() then [] else [Last(handles)]
  }

  class HttpsConnector {
    const known: Ciphers
    var streamHandles: seq<AbortableStreamHandle>
    var proxyConfig: InnerMode

    constructor (known: Ciphers)
      ensures this.known == known && streamHandles == [] && proxyConfig == InnerDirect
    {
      this.known := known;
      streamHandles := [];
      proxyConfig := InnerDirect;
    }

    /** The locked section of the request task, the step `Take`. */
    method TakeHandles(request: Request) returns (taken: seq<AbortableStreamHandle>)
      modifies this
      ensures proxyConfig == Applied(known, old(proxyConfig), request)
      ensures taken == old(streamHandles) && streamHandles == []
    {
      if request.SetConnectionMode? {
        match Parse(known, request.mode)
        case Some(config) => proxyConfig := config;
        case None =>
      }
      taken := streamHandles;
      streamHandles := [];
    }

    /** The request task's loop over the taken handles, the steps `CloseOne`. */
    method CloseHandles(taken: seq<AbortableStreamHandle>)
      modifies taken
      ensures forall h | h in taken :: h.IsClosed()
    {
      for i := 0 to |taken|
        invariant forall j | 0 <= j < i :: taken[j].IsClosed()
      {
        taken[i].Close();
      }
    }

    /** One round of the request task, up to the notice to the attempts, which `Notify` models. */
    method HandleRequest(request: Request)
      modifies this, streamHandles
      ensures proxyConfig == Applied(known, old(proxyConfig), request)
      ensures streamHandles == [] && forall h | h in old(streamHandles) :: h.IsClosed()
    {
      var taken := TakeHandles(request);
      CloseHandles(taken);
    }

    /** `poll_ready`, the step `PollReady`. */
    method PollReadyAndPrune(ghost closed: set<nat>)
      requires forall h | h in streamHandles :: h.id in closed <==> h.IsClosed()
      modifies this`streamHandles
      ensures streamHandles == StillOpen(old(streamHandles))
      ensures Ids(streamHandles) == Retain(old(Ids(streamHandles)), closed)
    {
      var kept: seq<AbortableStreamHandle> := [];
      for i := 0 to |streamHandles|
        invariant streamHandles == old(streamHandles)
        invariant kept == StillOpen(streamHandles[..i])
        invariant Ids(kept) == Retain(Ids(streamHandles[..i]), closed)
      {
        assert streamHandles[i] in streamHandles;
        assert Front(streamHandles[..i + 1]) == streamHandles[..i];
        assert Front(Ids(streamHandles[..i + 1])) == Ids(streamHandles[..i]);
        if !streamHandles[i].IsClosed() {
          kept := kept + [streamHandles[i]];
          assert Ids(kept) == Ids(Front(kept)) + [streamHandles[i].id];
        }
      }
      assert streamHandles[..|streamHandles|] == streamHandles;
      streamHandles := kept;
    }

    /** The last section of a successful call, the step `Register`. */
    method RegisterHandle(handle: AbortableStreamHandle)
      modifies this`streamHandles
      ensures streamHandles == old(streamHandles) + [handle]
    {
      streamHandles := streamHandles + [handle];
    }
  }
}
