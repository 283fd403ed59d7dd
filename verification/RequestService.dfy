/**
 The REST request service: requests are tagged with the connection mode generation they start
 under, and a network failure asks for the next mode only while its tag is still the current one.

 `usize` is the modulus of the platform's generation counter, which wraps. Next to its tag the
 model remembers how many rotations had been asked for when a request started (`startedAt`); the
 handlers never read it.
 */
module RequestService {
  import opened Common

  datatype Tag = Tag(generation: nat, startedAt: nat)

  datatype Command = NewRequest | Reset | NextApiConfig(tag: Tag)

  /**
   `accepted` lists, for every rotation asked for so far, the `startedAt` of the failed request
   behind it.
   */
  datatype Service = Service(generation: nat, inFlight: multiset<Tag>, commands: seq<Command>, accepted: seq<nat>)

  const Spawned := Service(0, multiset{}, [], [])

  datatype Event =
    | Submit(command: Command)         // a client sends NewRequest or Reset
    | Process                          // the service handles its next command
    | Fail(tag: Tag, rotates: bool)   // a request in flight ends; `rotates` when a network error while online

  /** Whether handling the next command asks the provider to rotate. */
  predicate Rotates(s: Service) {
    s.commands != [] && s.commands[0].NextApiConfig? && s.commands[0].tag.generation == s.generation
  }

  /** `wrapping_add(1)`. */
  function WrappingSuccessor(generation: nat, usize: nat): nat {
    if generation + 1 == usize then 0 else generation + 1
  }

  /** `process_command`, on the next command. */
  function Processed(s: Service, usize: nat): Service
    requires usize > 0 && s.commands != []
  {
    var t := s.(commands := s.commands[1..]);
    match s.commands[0]
    case NewRequest => t.(inFlight := s.inFlight + multiset{Tag(s.generation, |s.accepted|)})
    case Reset => t
    case NextApiConfig(tag) =>
      if tag.generation == s.generation
      then t.(generation := WrappingSuccessor(s.generation, usize), accepted := s.accepted + [tag.startedAt])
      else t
  }

  /** The end of a request task. */
  function Ended(s: Service, tag: Tag, rotates: bool): Service {
    s.(inFlight := s.inFlight - multiset{tag},
       commands := if rotates then s.commands + [NextApiConfig(tag)] else s.commands)
  }

  /** One step; an event that cannot happen in `s` changes nothing. */
  function Next(s: Service, usize: nat, e: Event): Service
    requires usize > 0
  {
    match e
    case Submit(command) => if command.NextApiConfig? then s else s.(commands := s.commands + [command])
    case Process => if s.commands == [] then s else Processed(s, usize)
    case Fail(tag, rotates) => if tag in s.inFlight then Ended(s, tag, rotates) else s
  }

  function Run(s: Service, usize: nat, events: seq<Event>): Service
    requires usize > 0
  {
    if events == [] then s else Next(Run(s, usize, Front(events)), usize, Last(events))
  }

  /** A tag handed out when `startedAt` rotations, out of the `rotations` so far, had been asked for. */
  predicate TagValid(tag: Tag, usize: nat, rotations: nat)
    requires usize > 0
  {
    tag.startedAt <= rotations && tag.generation == Cycled(tag.startedAt, usize)
  }

  ghost predicate Invariant(s: Service, usize: nat)
    requires usize > 0
  {
    var rotations := |s.accepted|;
    && s.generation == Cycled(rotations, usize)
    && (forall tag | tag in s.inFlight :: TagValid(tag, usize, rotations))
    && (forall i | 0 <= i < |s.commands| && s.commands[i].NextApiConfig? :: TagValid(s.commands[i].tag, usize, rotations))
    && (forall i | 0 <= i < rotations :: s.accepted[i] <= i && Cycled(s.accepted[i], usize) == Cycled(i, usize))
  }

  lemma ProcessedKeepsInvariant(s: Service, usize: nat)
    requires usize > 0 && Invariant(s, usize) && s.commands != []
    ensures Invariant(Processed(s, usize), usize)
  {
    var t := Processed(s, usize);
    var rotations := |s.accepted|;
    CycledSuccessor(rotations, usize);
    if s.commands[0].NextApiConfig? {
      var tag := s.commands[0].tag;
      assert TagValid(tag, usize, rotations);
      if tag.startedAt == rotations {
        assert tag.generation == s.generation;
      }
    }
  }

  lemma NextKeepsInvariant(s: Service, usize: nat, e: Event)
    requires usize > 0 && Invariant(s, usize)
    ensures Invariant(Next(s, usize, e), usize)
    ensures !e.Process? ==> Next(s, usize, e).accepted == s.accepted
  {
    if e.Process? && s.commands != [] {
      ProcessedKeepsInvariant(s, usize);
    }
  }

  lemma {:induction false} RunKeepsInvariant(usize: nat, events: seq<Event>)
    requires usize > 0
    ensures Invariant(Run(Spawned, usize, events), usize)
  {
    if events != [] {
      RunKeepsInvariant(usize, Front(events));
      NextKeepsInvariant(Run(Spawned, usize, Front(events)), usize, Last(events));
    }
  }

  /** The failures that the service processed in a run. */
  function Settled(usize: nat, events: seq<Event>): seq<Tag>
    requires usize > 0
  {
    if events == [] then []
    else
      var s := Run(Spawned, usize, Front(events));
      Settled(usize, Front(events)) +
      if Last(events).Process? && s.commands != [] && s.commands[0].NextApiConfig? then [s.commands[0].tag] else []
  }

  lemma SettledStep(s: Service, usize: nat)
    requires usize > 0 && Invariant(s, usize) && s.commands != [] && s.commands[0].NextApiConfig?
    ensures s.commands[0].tag.startedAt < |Processed(s, usize).accepted|
  {
    assert TagValid(s.commands[0].tag, usize, |s.accepted|);
  }

  /** Once a failure is processed, its generation has rotated. */
  lemma {:induction false} SettledHasRotated(usize: nat, events: seq<Event>)
    requires usize > 0
    ensures forall i | 0 <= i < |Settled(usize, events)| ::
              Settled(usize, events)[i].startedAt < |Run(Spawned, usize, events).accepted|
  {
    if events != [] {
      var s := Run(Spawned, usize, Front(events));
      SettledHasRotated(usize, Front(events));
      RunKeepsInvariant(usize, Front(events));
      if Last(events).Process? && s.commands != [] && s.commands[0].NextApiConfig? {
        SettledStep(s, usize);
      }
      assert |s.accepted| <= |Run(Spawned, usize, events).accepted|;
    }
  }

  /**
   One rotation per generation: until the counter wraps, the failures that rotated came from
   generations 0, 1, 2, ... in this order, one each, and for every processed failure the generation
   of its request has rotated. So a burst of failures under one generation rotates exactly once.
   */
  lemma {:induction false} OneRotationPerGeneration(usize: nat, events: seq<Event>)
    requires usize > 0 && |Run(Spawned, usize, events).accepted| < usize
    ensures var s := Run(Spawned, usize, events);
            && s.generation == |s.accepted|
            && s.accepted == seq(|s.accepted|, i => i)
            && (forall tag | tag in Settled(usize, events) :: multiset(s.accepted)[tag.startedAt] == 1)
  {
    RunKeepsInvariant(usize, events);
    SettledHasRotated(usize, events);
    var s := Run(Spawned, usize, events);
    assert forall i | 0 <= i < |s.accepted| :: s.accepted[i] == i;
    forall tag | tag in Settled(usize, events)
      ensures multiset(s.accepted)[tag.startedAt] == 1
    {
      CountOnce(s.accepted, tag.startedAt);
    }
  }

  lemma {:induction false} CountOnce(s: seq<nat>, a: nat)
    requires forall i | 0 <= i < |s| :: s[i] == i
    ensures multiset(s)[a] == if a < |s| then 1 else 0
  {
    if s != [] {
      CountOnce(Front(s), a);
      assert s == Front(s) + [Last(s)];
    }
  }

  /** A failure rotates exactly when the counter has gone round a whole number of times since its request started. */
  lemma {:induction false} FailureRotatesIff(usize: nat, events: seq<Event>)
    requires usize > 0
    requires var s := Run(Spawned, usize, events); s.commands != [] && s.commands[0].NextApiConfig?
    ensures var s := Run(Spawned, usize, events);
            var age := |s.accepted| - s.commands[0].tag.startedAt;
            age >= 0 && (Rotates(s) <==> Cycled(age, usize) == 0)
  {
    RunKeepsInvariant(usize, events);
    var s := Run(Spawned, usize, events);
    CycledEqual(|s.accepted|, s.commands[0].tag.startedAt, usize);
  }

  lemma OneRequestInFlight(usize: nat)
    requires usize > 0
    ensures Run(Spawned, usize, [Submit(NewRequest), Process]) == Spawned.(inFlight := multiset{Tag(0, 0)})
  {
    var one := [Submit(NewRequest)];
    assert Front(one) == [] && Front(one + [Process]) == one;
    assert Run(Spawned, usize, one) == Spawned.(commands := [NewRequest]);
    assert multiset{} + multiset{Tag(0, 0)} == multiset{Tag(0, 0)};
    assert one + [Process] == [Submit(NewRequest), Process];
  }

  /** A run in which `n` fresh failures have rotated while a request of generation 0 was in flight. */
  lemma {:induction false} RotateWithStaleRequest(usize: nat, n: nat) returns (events: seq<Event>, s: Service)
    requires usize > 0
    ensures s == Run(Spawned, usize, events)
    ensures s.inFlight == multiset{Tag(0, 0)} && s.commands == [] && |s.accepted| == n && (n > 0 ==> s.accepted[0] == 0)
  {
    if n == 0 {
      events := [Submit(NewRequest), Process];
      OneRequestInFlight(usize);
      s := Spawned.(inFlight := multiset{Tag(0, 0)});
    } else {
      var earlier, s0 := RotateWithStaleRequest(usize, n - 1);
      events, s := FreshFailure(earlier, usize, s0);
    }
  }

  lemma RunSnoc(events: seq<Event>, usize: nat, e: Event)
    requires usize > 0
    ensures Run(Spawned, usize, events + [e]) == Next(Run(Spawned, usize, events), usize, e)
  {
    assert Front(events + [e]) == events;
  }

  /** Extends a run by a request that starts and fails at once. */
  lemma FreshFailure(earlier: seq<Event>, usize: nat, s: Service) returns (events: seq<Event>, t: Service)
    requires usize > 0 && s == Run(Spawned, usize, earlier) && s.commands == []
    ensures t == Run(Spawned, usize, events)
    ensures t.inFlight == s.inFlight && t.commands == [] && t.accepted == s.accepted + [|s.accepted|]
  {
    var tag := Tag(s.generation, |s.accepted|);
    FreshFailureRotates(s, usize);
    RunSnoc(earlier, usize, Submit(NewRequest));
    events := earlier + [Submit(NewRequest)];
    t := Next(s, usize, Submit(NewRequest));
    RunSnoc(events, usize, Process);
    events := events + [Process];
    t := Next(t, usize, Process);
    RunSnoc(events, usize, Fail(tag, true));
    events := events + [Fail(tag, true)];
    t := Next(t, usize, Fail(tag, true));
    RunSnoc(events, usize, Process);
    events := events + [Process];
    t := Next(t, usize, Process);
  }

  /** Starting a request and letting it fail at once rotates. */
  lemma FreshFailureRotates(s: Service, usize: nat)
    requires usize > 0 && s.commands == []
    ensures var tag := Tag(s.generation, |s.accepted|);
            var t := Next(Next(Next(Next(s, usize, Submit(NewRequest)), usize, Process), usize, Fail(tag, true)), usize, Process);
            t.inFlight == s.inFlight && t.commands == [] && t.accepted == s.accepted + [|s.accepted|]
  {
    var tag := Tag(s.generation, |s.accepted|);
    var s1 := Next(s, usize, Submit(NewRequest));
    assert s1.commands == [NewRequest];
    var s2 := Next(s1, usize, Process);
    assert s2 == s.(inFlight := s.inFlight + multiset{tag});
    var s3 := Next(s2, usize, Fail(tag, true));
    assert s3 == s.(commands := [NextApiConfig(tag)]);
  }

  /** Past the wrap the property fails: a request from generation 0 rotates once more after `usize` rotations. */
  lemma StaleRequestRotatesAfterWrap(usize: nat) returns (events: seq<Event>)
    requires usize > 0
    ensures var s := Run(Spawned, usize, events);
            |s.accepted| == usize + 1 && s.accepted[0] == 0 && s.accepted[usize] == 0
  {
    var earlier, s := RotateWithStaleRequest(usize, usize);
    RunKeepsInvariant(usize, earlier);
    assert Cycled(usize, usize) == 0;
    RunSnoc(earlier, usize, Fail(Tag(0, 0), true));
    events := earlier + [Fail(Tag(0, 0), true)];
    assert Run(Spawned, usize, events).commands == [NextApiConfig(Tag(0, 0))];
    assert Rotates(Run(Spawned, usize, events));
    RunSnoc(events, usize, Process);
    events := events + [Process];
  }

  // ----- where commands and rotations come from

  /** The command that an event sends. */
  function NewlySent(s: Service, e: Event): seq<Command> {
    match e
    case Submit(command) => if command.NextApiConfig? then [] else [command]
    case Process => []
    case Fail(tag, rotates) => if rotates && tag in s.inFlight then [NextApiConfig(tag)] else []
  }

  /** The commands sent in a run, and how many of them were processed. */
  function Sent(usize: nat, events: seq<Event>): seq<Command>
    requires usize > 0
  {
    if events == [] then []
    else Sent(usize, Front(events)) + NewlySent(Run(Spawned, usize, Front(events)), Last(events))
  }

  function ProcessedCount(usize: nat, events: seq<Event>): nat
    requires usize > 0
  {
    if events == [] then 0
    else
      var n := ProcessedCount(usize, Front(events));
      if Last(events).Process? && n < |Sent(usize, Front(events))| then n + 1 else n
  }

  lemma InOrderStep(s: Service, usize: nat, e: Event, sent: seq<Command>, n: nat)
    requires usize > 0 && n <= |sent| && s.commands == sent[n..]
    ensures var m := if e.Process? && n < |sent| then n + 1 else n;
            var longer := sent + NewlySent(s, e);
            m <= |longer| && Next(s, usize, e).commands == longer[m..]
  {
    if e.Process? {
      assert sent + [] == sent;
      assert n < |sent| ==> sent[n..][1..] == sent[n + 1..];
    } else {
      assert (sent + NewlySent(s, e))[n..] == sent[n..] + NewlySent(s, e);
    }
  }

  /**
   Commands are processed one by one in the order in which they were sent, and a request that ends
   sends one exactly when it ended in a network error while online.
   */
  lemma {:induction false} CommandsInOrder(usize: nat, events: seq<Event>)
    requires usize > 0
    ensures ProcessedCount(usize, events) <= |Sent(usize, events)|
    ensures Run(Spawned, usize, events).commands == Sent(usize, events)[ProcessedCount(usize, events)..]
  {
    if events != [] {
      CommandsInOrder(usize, Front(events));
      InOrderStep(Run(Spawned, usize, Front(events)), usize, Last(events), Sent(usize, Front(events)),
                  ProcessedCount(usize, Front(events)));
    }
  }

  /** The tag of a request that starts: the generation and the rotations at that time. */
  function NewlyStarted(s: Service, e: Event): multiset<Tag> {
    if e.Process? && s.commands != [] && s.commands[0] == NewRequest then multiset{Tag(s.generation, |s.accepted|)}
    else multiset{}
  }

  /** The tag of a request that ends. */
  function NewlyOver(s: Service, e: Event): multiset<Tag> {
    if e.Fail? && e.tag in s.inFlight then multiset{e.tag} else multiset{}
  }

  function Started(usize: nat, events: seq<Event>): multiset<Tag>
    requires usize > 0
  {
    if events == [] then multiset{}
    else Started(usize, Front(events)) + NewlyStarted(Run(Spawned, usize, Front(events)), Last(events))
  }

  function Over(usize: nat, events: seq<Event>): multiset<Tag>
    requires usize > 0
  {
    if events == [] then multiset{}
    else Over(usize, Front(events)) + NewlyOver(Run(Spawned, usize, Front(events)), Last(events))
  }

  lemma InFlightStep(s: Service, usize: nat, e: Event)
    requires usize > 0
    ensures Next(s, usize, e).inFlight + NewlyOver(s, e) == s.inFlight + NewlyStarted(s, e)
  {
    if e.Fail? && e.tag in s.inFlight {
      assert s.inFlight - multiset{e.tag} + multiset{e.tag} == s.inFlight;
    }
  }

  lemma Balance(before: multiset<Tag>, after: multiset<Tag>, over: multiset<Tag>, started: multiset<Tag>,
                ends: multiset<Tag>, starts: multiset<Tag>)
    requires before + over == started && after + ends == before + starts
    ensures after + (over + ends) == started + starts
  {
    assert after + (over + ends) == (after + ends) + over;
    assert (before + starts) + over == (before + over) + starts;
  }

  /** Every started request is in flight until it ends, once. */
  lemma {:induction false} RequestsEndOnce(usize: nat, events: seq<Event>)
    requires usize > 0
    ensures Run(Spawned, usize, events).inFlight + Over(usize, events) == Started(usize, events)
  {
    if events != [] {
      var before := Front(events);
      var s := Run(Spawned, usize, before);
      RequestsEndOnce(usize, before);
      InFlightStep(s, usize, Last(events));
      Balance(s.inFlight, Run(Spawned, usize, events).inFlight, Over(usize, before), Started(usize, before),
              NewlyOver(s, Last(events)), NewlyStarted(s, Last(events)));
    }
  }

  /** The number of failures among commands. */
  function Failures(commands: seq<Command>): nat {
    if commands == [] then 0 else Failures(Front(commands)) + if Last(commands).NextApiConfig? then 1 else 0
  }

  lemma {:induction false} FailuresHead(commands: seq<Command>)
    requires commands != []
    ensures Failures(commands) == Failures(commands[1..]) + if commands[0].NextApiConfig? then 1 else 0
  {
    if |commands| == 1 {
      assert Front(commands) == [] && commands[1..] == [];
    } else {
      FailuresHead(Front(commands));
      assert Front(commands)[1..] == Front(commands[1..]);
    }
  }

  /** The number of requests that ended in a network error while online. */
  function NetworkErrors(events: seq<Event>): nat {
    if events == [] then 0
    else NetworkErrors(Front(events)) + if Last(events).Fail? && Last(events).rotates then 1 else 0
  }

  lemma RotationStep(s: Service, usize: nat, e: Event)
    requires usize > 0
    ensures var t := Next(s, usize, e);
            |t.accepted| + Failures(t.commands) <=
            |s.accepted| + Failures(s.commands) + if e.Fail? && e.rotates then 1 else 0
  {
    match e
    case Submit(command) => assert Front(s.commands + [command]) == s.commands;
    case Process =>
      if s.commands != [] {
        FailuresHead(s.commands);
      }
    case Fail(tag, _) => assert Front(s.commands + [NextApiConfig(tag)]) == s.commands;
  }

  /** Every rotation, asked for or still queued, goes back to a network error of a request with that tag. */
  ghost predicate Caused(s: Service, events: seq<Event>) {
    && (forall i | 0 <= i < |s.commands| && s.commands[i].NextApiConfig? :: Fail(s.commands[i].tag, true) in events)
    && (forall i | 0 <= i < |s.accepted| :: CausedBy(s.accepted[i], events))
  }

  ghost predicate CausedBy(startedAt: nat, events: seq<Event>) {
    exists tag: Tag :: tag.startedAt == startedAt && Fail(tag, true) in events
  }

  lemma NextKeepsCaused(s: Service, usize: nat, events: seq<Event>, e: Event)
    requires usize > 0 && Caused(s, events) && e in events
    ensures Caused(Next(s, usize, e), events)
  {
    if e.Process? && s.commands != [] && s.commands[0].NextApiConfig? {
      assert CausedBy(s.commands[0].tag.startedAt, events);
    }
  }

  lemma LongerRunKeepsCaused(s: Service, events: seq<Event>, longer: seq<Event>)
    requires Caused(s, events) && forall e | e in events :: e in longer
    ensures Caused(s, longer)
  {
    forall i | 0 <= i < |s.accepted|
      ensures CausedBy(s.accepted[i], longer)
    {
      assert CausedBy(s.accepted[i], events);
      var tag: Tag :| tag.startedAt == s.accepted[i] && Fail(tag, true) in events;
      assert Fail(tag, true) in longer;
    }
  }

  /**
   Only network errors rotate: in every run the rotations asked for and still queued are no more than
   the requests that ended in a network error while online, and each goes back to one of them. So a
   run without such an error keeps its first generation.
   */
  lemma {:induction false} OnlyNetworkErrorsRotate(usize: nat, events: seq<Event>)
    requires usize > 0
    ensures var s := Run(Spawned, usize, events);
            && |s.accepted| + Failures(s.commands) <= NetworkErrors(events)
            && Caused(s, events)
            && (NetworkErrors(events) == 0 ==> s.accepted == [] && s.generation == 0)
  {
    if events != [] {
      var before := Front(events);
      var s := Run(Spawned, usize, before);
      OnlyNetworkErrorsRotate(usize, before);
      RotationStep(s, usize, Last(events));
      LongerRunKeepsCaused(s, before, events);
      NextKeepsCaused(s, usize, events, Last(events));
    }
    RunKeepsInvariant(usize, events);
  }

  /** The service actor. */
  class RequestServiceActor {
    const usize: nat
    var connectionModeGeneration: nat
    var inFlight: multiset<Tag>
    var commands: seq<Command>
    var accepted: seq<nat>

    function Model(): Service
      reads this
    {
      Service(connectionModeGeneration, inFlight, commands, accepted)
    }

    constructor (usize: nat)
      requires usize > 0
      ensures this.usize == usize && Model() == Spawned && Invariant(Model(), usize)
    {
      this.usize := usize;
      connectionModeGeneration, inFlight, commands, accepted := 0, multiset{}, [], [];
    }

    method HandleNewRequest()
      modifies this`inFlight
      ensures inFlight == old(inFlight) + multiset{Tag(connectionModeGeneration, |accepted|)}
    {
      inFlight := inFlight + multiset{Tag(connectionModeGeneration, |accepted|)};
    }

    /** The end of a request task: a network error while online asks for the next configuration. */
    method EndRequest(tag: Tag, networkError: bool, offline: bool)
      requires usize > 0 && Invariant(Model(), usize) && tag in inFlight
      modifies this`inFlight, this`commands
      ensures Model() == Ended(old(Model()), tag, networkError && !offline) && Invariant(Model(), usize)
      ensures commands == old(commands) <==> !networkError || offline
    {
      NextKeepsInvariant(Model(), usize, Fail(tag, networkError && !offline));
      inFlight := inFlight - multiset{tag};
      if networkError && !offline {
        commands := commands + [NextApiConfig(tag)];
        assert |commands| != |old(commands)|;
      }
    }

    /** Handles one command; the result says whether the provider is asked to rotate. */
    method ProcessCommand() returns (rotate: bool)
      requires usize > 0 && Invariant(Model(), usize) && commands != []
      modifies this
      ensures Model() == Processed(old(Model()), usize) && Invariant(Model(), usize)
      ensures rotate == old(Rotates(Model()))
      ensures |accepted| == |old(accepted)| + if rotate then 1 else 0
    {
      ProcessedKeepsInvariant(Model(), usize);
      var command := commands[0];
      commands := commands[1..];
      rotate := false;
      match command
      case NewRequest => HandleNewRequest();
      case Reset =>
      case NextApiConfig(tag) =>
        if tag.generation == connectionModeGeneration {
          connectionModeGeneration := WrappingSuccessor(connectionModeGeneration, usize);
          accepted := accepted + [tag.startedAt];
          rotate := true;
        }
    }
  }
}
