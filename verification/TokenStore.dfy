/**
 The access token store: a single-flight token cache per account.

 Fetches and senders are named by their position in `fetches` and `asked`, which record the account
 of each. A fetch task is running until it finishes, which queues its completion; the store handles
 completions in order. Aborting a task that has already queued its completion does not unqueue it.
 */
module TokenStore {
  import opened Common

  /** A token and the fetch that obtained it; the store never looks at the latter. */
  datatype Token = Token(text: nat, fetch: nat)

  datatype Reply = Granted(token: Token) | Failed

  datatype AccountState = AccountState(token: Option<Token>, inflight: Option<nat>, channels: seq<nat>)

  const Default := AccountState(None, None, [])

  /** A finished fetch; `text` is the token's, or None after an error. */
  datatype Completion = Completion(fetch: nat, text: Option<nat>)

  /**
   `raced` counts, per account, the invalidations that found the tracked fetch already completed;
   `idle` the completions that were handled while no fetch was tracked.
   */
  datatype Store = Store(accounts: map<nat, AccountState>, fetches: seq<nat>, running: set<nat>,
                         completed: seq<Completion>, asked: seq<nat>, answers: map<nat, Reply>,
                         dropped: set<nat>, raced: multiset<nat>, idle: multiset<nat>)

  const New := Store(map[], [], {}, [], [], map[], {}, multiset{}, multiset{})

  datatype Event =
    | Get(account: nat, expired: bool)            // `expired` is what the clock says of a stored token
    | Invalidate(account: nat)
    | Finish(fetch: nat, text: Option<nat>)       // a running task ends and queues its completion
    | Handle                                      // the store handles the next completion

  /** `entry(account).or_default()`. */
  function Of(s: Store, account: nat): AccountState {
    if account in s.accounts then s.accounts[account] else Default
  }

  // ----- the handlers

  function OnGet(s: Store, account: nat, expired: bool): Store {
    var state := Of(s, account);
    var sender := |s.asked|;
    var t := s.(asked := s.asked + [account]);
    if state.token.Some? && !expired then
      t.(accounts := s.accounts[account := state], answers := s.answers[sender := Granted(state.token.value)])
    else if state.inflight.Some? then
      t.(accounts := s.accounts[account := AccountState(None, state.inflight, state.channels + [sender])])
    else
      var fetch := |s.fetches|;
      t.(accounts := s.accounts[account := AccountState(None, Some(fetch), state.channels + [sender])],
         fetches := s.fetches + [account], running := s.running + {fetch})
  }

  function OnInvalidate(s: Store, account: nat): Store {
    var state := Of(s, account);
    var t := s.(accounts := s.accounts[account := Default],
                dropped := s.dropped + set i | 0 <= i < |state.channels| :: state.channels[i]);
    if state.inflight.None? then t
    else if state.inflight.value in s.running then t.(running := s.running - {state.inflight.value})
    else t.(raced := s.raced + multiset{account})
  }

  /** The reply sent to every waiting sender. */
  function ReplyOf(c: Completion): Reply {
    if c.text.Some? then Granted(Token(c.text.value, c.fetch)) else Failed
  }

  function AnswerAll(answers: map<nat, Reply>, channels: seq<nat>, reply: Reply): map<nat, Reply> {
    answers + map i | i in channels :: reply
  }

  lemma AnswerOneMore(answers: map<nat, Reply>, channels: seq<nat>, x: nat, reply: Reply)
    ensures AnswerAll(answers, [], reply) == answers
    ensures AnswerAll(answers, channels + [x], reply) == AnswerAll(answers, channels, reply)[x := reply]
  {
    assert forall i :: i in channels + [x] <==> i in channels || i == x;
  }

  function OnCompleted(s: Store): Store
    requires s.completed != [] && s.completed[0].fetch < |s.fetches|
  {
    var c := s.completed[0];
    var account := s.fetches[c.fetch];
    var state := Of(s, account);
    var token := if c.text.Some? then Some(Token(c.text.value, c.fetch)) else state.token;
    s.(accounts := s.accounts[account := AccountState(token, None, [])], completed := s.completed[1..],
       answers := AnswerAll(s.answers, state.channels, ReplyOf(c)),
       idle := if state.inflight.None? then s.idle + multiset{account} else s.idle)
  }

  predicate Enabled(s: Store, e: Event) {
    match e
    case Get(_, _) => true
    case Invalidate(_) => true
    case Finish(fetch, _) => fetch in s.running
    case Handle => s.completed != [] && s.completed[0].fetch < |s.fetches|
  }

  /** One step; an event that cannot happen in `s` changes nothing. */
  function Next(s: Store, e: Event): Store {
    if !Enabled(s, e) then s
    else match e
      case Get(account, expired) => OnGet(s, account, expired)
      case Invalidate(account) => OnInvalidate(s, account)
      case Finish(fetch, text) => s.(running := s.running - {fetch}, completed := s.completed + [Completion(fetch, text)])
      case Handle => OnCompleted(s)
  }

  function Run(s: Store, events: seq<Event>): Store {
    if events == [] then s else Next(Run(s, Front(events)), Last(events))
  }

  // ----- fetches

  function CompletedIds(completed: seq<Completion>): set<nat> {
    set i | 0 <= i < |completed| :: completed[i].fetch
  }

  /** The fetches of an account that are running, or completed but not handled. */
  function Outstanding(s: Store, account: nat): set<nat> {
    set f | f in s.running + CompletedIds(s.completed) && f < |s.fetches| && s.fetches[f] == account
  }

  function Tracked(s: Store, account: nat): nat {
    if Of(s, account).inflight.Some? then 1 else 0
  }

  ghost predicate FetchesValid(s: Store) {
    && (forall f | f in s.running :: f < |s.fetches|)
    && (forall i | 0 <= i < |s.completed| :: s.completed[i].fetch < |s.fetches| && s.completed[i].fetch !in s.running)
    && (forall i, j | 0 <= i < j < |s.completed| :: s.completed[i].fetch != s.completed[j].fetch)
  }

  /** The exact account of outstanding fetches. */
  ghost predicate FlightValid(s: Store, account: nat) {
    var state := Of(s, account);
    && (state.inflight.Some? ==> state.inflight.value in Outstanding(s, account))
    && |Outstanding(s, account)| + s.idle[account] == s.raced[account] + Tracked(s, account)
    && (state.channels != [] ==> state.inflight.Some?)
  }

  ghost predicate FlightsValid(s: Store) {
    FetchesValid(s) && forall account :: FlightValid(s, account)
  }

  /** An account keeps its balance when neither its state's tracking nor its outstanding fetches change. */
  lemma FlightFrame(s: Store, t: Store, account: nat)
    requires FlightValid(s, account) && Outstanding(t, account) == Outstanding(s, account)
    requires Of(t, account).inflight == Of(s, account).inflight
    requires Of(t, account).channels != [] ==> Of(t, account).inflight.Some?
    requires t.raced[account] == s.raced[account] && t.idle[account] == s.idle[account]
    ensures FlightValid(t, account)
  {
  }

  lemma NewFetchOutstanding(s: Store, account: nat, expired: bool, a: nat)
    requires FetchesValid(s)
    ensures var t := OnGet(s, account, expired);
            Outstanding(t, a) == Outstanding(s, a) + if t.fetches != s.fetches && a == account then {|s.fetches|} else {}
  {
  }

  lemma GetKeepsFlight(s: Store, account: nat, expired: bool, a: nat)
    requires FetchesValid(s) && FlightValid(s, a)
    ensures FlightValid(OnGet(s, account, expired), a)
  {
    var t := OnGet(s, account, expired);
    NewFetchOutstanding(s, account, expired, a);
    if |t.fetches| == |s.fetches| || a != account {
      FlightFrame(s, t, a);
    } else {
      assert |s.fetches| !in Outstanding(s, a);
      assert |Outstanding(t, a)| == |Outstanding(s, a)| + 1;
    }
  }

  lemma GetKeepsFlights(s: Store, account: nat, expired: bool)
    requires FlightsValid(s)
    ensures FlightsValid(OnGet(s, account, expired))
  {
    forall a: nat
      ensures FlightValid(OnGet(s, account, expired), a)
    {
      GetKeepsFlight(s, account, expired, a);
    }
  }

  lemma InvalidateKeepsFlight(s: Store, account: nat, a: nat)
    requires FetchesValid(s) && FlightValid(s, a) && FlightValid(s, account)
    ensures FlightValid(OnInvalidate(s, account), a)
  {
    var t := OnInvalidate(s, account);
    var inflight := Of(s, account).inflight;
    if a == account && inflight.Some? && inflight.value in s.running {
      assert Outstanding(t, a) == Outstanding(s, a) - {inflight.value};
    } else {
      assert Outstanding(t, a) == Outstanding(s, a);
    }
  }

  lemma InvalidateKeepsFlights(s: Store, account: nat)
    requires FlightsValid(s)
    ensures FlightsValid(OnInvalidate(s, account))
  {
    forall a: nat
      ensures FlightValid(OnInvalidate(s, account), a)
    {
      assert FlightValid(s, a) && FlightValid(s, account);
      InvalidateKeepsFlight(s, account, a);
    }
  }

  lemma FinishKeepsFlights(s: Store, fetch: nat, text: Option<nat>)
    requires FlightsValid(s) && fetch in s.running
    ensures FlightsValid(Next(s, Finish(fetch, text)))
  {
    var t := Next(s, Finish(fetch, text));
    assert CompletedIds(t.completed) == CompletedIds(s.completed) + {fetch} by {
      assert t.completed[|s.completed|].fetch == fetch;
      assert forall i | 0 <= i < |s.completed| :: t.completed[i] == s.completed[i];
    }
    forall a: nat
      ensures FlightValid(t, a)
    {
      assert FlightValid(s, a);
      assert Outstanding(t, a) == Outstanding(s, a);
    }
  }

  lemma CompletedIdsTail(completed: seq<Completion>)
    requires completed != []
    requires forall i, j | 0 <= i < j < |completed| :: completed[i].fetch != completed[j].fetch
    ensures CompletedIds(completed[1..]) == CompletedIds(completed) - {completed[0].fetch}
    ensures completed[0].fetch in CompletedIds(completed)
  {
    forall f | f in CompletedIds(completed) && f != completed[0].fetch
      ensures f in CompletedIds(completed[1..])
    {
      var i :| 0 <= i < |completed| && completed[i].fetch == f;
      assert completed[1..][i - 1] == completed[i];
    }
  }

  lemma CompletedKeepsFlights(s: Store)
    requires FlightsValid(s) && Enabled(s, Handle)
    ensures FlightsValid(OnCompleted(s))
  {
    var t := OnCompleted(s);
    var c := s.completed[0];
    CompletedIdsTail(s.completed);
    forall a: nat
      ensures FlightValid(t, a)
    {
      assert FlightValid(s, a);
      if a == s.fetches[c.fetch] {
        assert Outstanding(t, a) == Outstanding(s, a) - {c.fetch};
      } else {
        assert Outstanding(t, a) == Outstanding(s, a);
      }
    }
  }

  lemma NextKeepsFlights(s: Store, e: Event)
    requires FlightsValid(s)
    ensures FlightsValid(Next(s, e))
  {
    if Enabled(s, e) {
      match e
      case Get(account, expired) => GetKeepsFlights(s, account, expired);
      case Invalidate(account) => InvalidateKeepsFlights(s, account);
      case Finish(fetch, text) => FinishKeepsFlights(s, fetch, text);
      case Handle => CompletedKeepsFlights(s);
    }
  }

  lemma {:induction false} RunKeepsFlights(events: seq<Event>)
    ensures FlightsValid(Run(New, events))
  {
    if events != [] {
      RunKeepsFlights(Front(events));
      NextKeepsFlights(Run(New, Front(events)), Last(events));
    } else {
      assert forall a: nat :: Outstanding(New, a) == {};
    }
  }

  /**
   Single flight: in every run an account's outstanding fetches number one for the tracked fetch,
   plus one for each invalidation that found it completed, minus one for each completion handled
   while none was tracked. Without such a race at most one is outstanding.
   */
  lemma {:induction false} SingleFlight(events: seq<Event>, account: nat)
    ensures var s := Run(New, events);
            && |Outstanding(s, account)| + Strays(events, account) == Tracked(s, account) + Races(events, account)
            && |Outstanding(s, account)| <= Tracked(s, account) + Races(events, account)
            && (Races(events, account) == 0 ==> |Outstanding(s, account)| <= Tracked(s, account) <= 1)
  {
    CountersAreExact(events, account);
    RunKeepsFlights(events);
    assert FlightValid(Run(New, events), account);
  }

  /** The invalidations of an account in a run that found its tracked fetch already completed. */
  function Races(events: seq<Event>, account: nat): nat {
    if events == [] then 0
    else
      var s := Run(New, Front(events));
      var inflight := Of(s, account).inflight;
      Races(Front(events), account) +
      if Last(events) == Invalidate(account) && inflight.Some? && inflight.value !in s.running then 1 else 0
  }

  /** The completions of an account handled in a run while no fetch was tracked. */
  function Strays(events: seq<Event>, account: nat): nat {
    if events == [] then 0
    else
      var s := Run(New, Front(events));
      Strays(Front(events), account) +
      if Last(events) == Handle && Enabled(s, Handle) && s.fetches[s.completed[0].fetch] == account &&
         Of(s, account).inflight.None? then 1 else 0
  }

  lemma CountersStep(s: Store, e: Event, account: nat)
    ensures var t := Next(s, e);
            var inflight := Of(s, account).inflight;
            && t.raced[account] == s.raced[account] +
               (if e == Invalidate(account) && inflight.Some? && inflight.value !in s.running then 1 else 0)
            && t.idle[account] == s.idle[account] +
               (if e == Handle && Enabled(s, Handle) && s.fetches[s.completed[0].fetch] == account && inflight.None?
                then 1 else 0)
  {
  }

  /** The two counters count what they are said to count. */
  lemma {:induction false} CountersAreExact(events: seq<Event>, account: nat)
    ensures var s := Run(New, events); s.raced[account] == Races(events, account) && s.idle[account] == Strays(events, account)
  {
    if events != [] {
      CountersAreExact(Front(events), account);
      CountersStep(Run(New, Front(events)), Last(events), account);
    }
  }

  // ----- waiting senders

  /** The senders listed for an account wait for it and have got nothing yet. */
  ghost predicate ChannelsValid(s: Store, account: nat) {
    var channels := Of(s, account).channels;
    && (forall i | 0 <= i < |channels| ::
          channels[i] < |s.asked| && s.asked[channels[i]] == account &&
          channels[i] !in s.answers && channels[i] !in s.dropped)
    && (forall i, j | 0 <= i < j < |channels| :: channels[i] < channels[j])
  }

  ghost predicate SenderValid(s: Store, x: nat)
    requires x < |s.asked|
  {
    && (x in s.answers || x in s.dropped || x in Of(s, s.asked[x]).channels)
    && !(x in s.answers && x in s.dropped)
  }

  ghost predicate SendersValid(s: Store) {
    && (forall account :: ChannelsValid(s, account))
    && (forall x | 0 <= x < |s.asked| :: SenderValid(s, x))
    && (forall x | x in s.answers :: x < |s.asked|)
    && (forall x | x in s.dropped :: x < |s.asked|)
  }

  lemma GetKeepsSenders(s: Store, account: nat, expired: bool)
    requires SendersValid(s)
    ensures SendersValid(OnGet(s, account, expired))
  {
    var t := OnGet(s, account, expired);
    forall a: nat
      ensures ChannelsValid(t, a)
    {
      assert ChannelsValid(s, a);
    }
    forall x | 0 <= x < |t.asked|
      ensures SenderValid(t, x)
    {
      if x < |s.asked| {
        assert SenderValid(s, x);
      } else if x !in t.answers {
        assert Last(Of(t, account).channels) == x;
      }
    }
  }

  lemma InvalidateKeepsSenders(s: Store, account: nat)
    requires SendersValid(s)
    ensures SendersValid(OnInvalidate(s, account))
  {
    var t := OnInvalidate(s, account);
    assert ChannelsValid(s, account);
    forall a: nat
      ensures ChannelsValid(t, a)
    {
      assert ChannelsValid(s, a);
    }
    forall x | 0 <= x < |t.asked|
      ensures SenderValid(t, x)
    {
      assert SenderValid(s, x);
    }
  }

  lemma CompletedKeepsSenders(s: Store)
    requires SendersValid(s) && Enabled(s, Handle)
    ensures SendersValid(OnCompleted(s))
  {
    var t := OnCompleted(s);
    assert ChannelsValid(s, s.fetches[s.completed[0].fetch]);
    forall a: nat
      ensures ChannelsValid(t, a)
    {
      assert ChannelsValid(s, a);
    }
    forall x | 0 <= x < |t.asked|
      ensures SenderValid(t, x)
    {
      assert SenderValid(s, x);
    }
  }

  lemma NextKeepsSenders(s: Store, e: Event)
    requires SendersValid(s)
    ensures SendersValid(Next(s, e))
  {
    if Enabled(s, e) {
      match e
      case Get(account, expired) => GetKeepsSenders(s, account, expired);
      case Invalidate(account) => InvalidateKeepsSenders(s, account);
      case Handle => CompletedKeepsSenders(s);
      case Finish(_, _) =>
        forall a: nat
          ensures ChannelsValid(Next(s, e), a)
        {
          assert ChannelsValid(s, a);
        }
        assert forall x | 0 <= x < |s.asked| :: SenderValid(s, x) ==> SenderValid(Next(s, e), x);
    }
  }

  lemma {:induction false} RunKeepsSenders(events: seq<Event>)
    ensures SendersValid(Run(New, events))
  {
    if events != [] {
      RunKeepsSenders(Front(events));
      NextKeepsSenders(Run(New, Front(events)), Last(events));
    }
  }

  /**
   No waiter is forgotten: in every run each sender is answered, dropped by an invalidation, or
   waiting, and only one of these; a waiting sender's account has a tracked fetch that is running or
   whose completion is queued.
   */
  lemma {:induction false} NoWaiterIsForgotten(events: seq<Event>, x: nat)
    requires x < |Run(New, events).asked|
    ensures var s := Run(New, events);
            var state := Of(s, s.asked[x]);
            && (x in s.answers || x in s.dropped || x in state.channels)
            && !(x in s.answers && x in s.dropped)
            && !(x in s.answers && x in state.channels)
            && !(x in s.dropped && x in state.channels)
            && multiset(state.channels)[x] <= 1
            && (x in state.channels ==> state.inflight.Some? && state.inflight.value in Outstanding(s, s.asked[x]))
  {
    RunKeepsSenders(events);
    RunKeepsFlights(events);
    var s := Run(New, events);
    assert SenderValid(s, x) && ChannelsValid(s, s.asked[x]) && FlightValid(s, s.asked[x]);
    AscendingOnce(Of(s, s.asked[x]).channels, x);
  }

  lemma {:induction false} AscendingOnce(s: seq<nat>, x: nat)
    requires forall i, j | 0 <= i < j < |s| :: s[i] < s[j]
    ensures multiset(s)[x] <= 1
  {
    if s != [] {
      AscendingOnce(Front(s), x);
      assert s == Front(s) + [Last(s)];
      assert Last(s) !in Front(s);
    }
  }

  // ----- where tokens come from

  /** From fetch `n` and sender `y` on, everything `account` has or will hand out is from a fetch numbered `n` or later. */
  ghost predicate FreshFrom(s: Store, account: nat, n: nat, y: nat) {
    && n <= |s.fetches| && y <= |s.asked|
    && (forall f | f in s.running && f < |s.fetches| && s.fetches[f] == account :: n <= f)
    && (forall i | 0 <= i < |s.completed| && s.completed[i].text.Some? && s.completed[i].fetch < |s.fetches| &&
                   s.fetches[s.completed[i].fetch] == account :: n <= s.completed[i].fetch)
    && (var token := Of(s, account).token; token.Some? ==> n <= token.value.fetch)
    && (forall x | y <= x < |s.asked| && s.asked[x] == account && x in s.answers && s.answers[x].Granted? ::
          n <= s.answers[x].token.fetch)
    && (forall x | x in Of(s, account).channels :: y <= x)
  }

  lemma HandleKeepsFresh(s: Store, account: nat, n: nat, y: nat)
    requires FreshFrom(s, account, n, y) && FetchesValid(s) && SendersValid(s) && Enabled(s, Handle)
    ensures FreshFrom(OnCompleted(s), account, n, y)
  {
    var t := OnCompleted(s);
    var c := s.completed[0];
    assert ChannelsValid(s, s.fetches[c.fetch]);
    assert s.completed[0].text.Some? && s.fetches[c.fetch] == account ==> n <= c.fetch;
    assert forall i | 0 <= i < |t.completed| :: t.completed[i] == s.completed[i + 1];
  }

  lemma FinishKeepsFresh(s: Store, fetch: nat, text: Option<nat>, account: nat, n: nat, y: nat)
    requires FreshFrom(s, account, n, y) && FetchesValid(s) && fetch in s.running
    ensures FreshFrom(Next(s, Finish(fetch, text)), account, n, y)
  {
  }

  lemma GetKeepsFresh(s: Store, asking: nat, expired: bool, account: nat, n: nat, y: nat)
    requires FreshFrom(s, account, n, y) && FetchesValid(s) && SendersValid(s)
    ensures FreshFrom(OnGet(s, asking, expired), account, n, y)
  {
  }

  lemma NextKeepsFresh(s: Store, e: Event, account: nat, n: nat, y: nat)
    requires FreshFrom(s, account, n, y) && FetchesValid(s) && SendersValid(s)
    ensures FreshFrom(Next(s, e), account, n, y)
  {
    if Enabled(s, e) {
      match e
      case Get(asking, expired) => GetKeepsFresh(s, asking, expired, account, n, y);
      case Invalidate(_) =>
      case Finish(fetch, text) => FinishKeepsFresh(s, fetch, text, account, n, y);
      case Handle => HandleKeepsFresh(s, account, n, y);
    }
  }

  lemma {:induction false} RunKeepsFresh(s: Store, events: seq<Event>, account: nat, n: nat, y: nat)
    requires FreshFrom(s, account, n, y) && FlightsValid(s) && SendersValid(s)
    ensures FreshFrom(Run(s, events), account, n, y)
    ensures FlightsValid(Run(s, events)) && SendersValid(Run(s, events))
  {
    if events != [] {
      RunKeepsFresh(s, Front(events), account, n, y);
      var t := Run(s, Front(events));
      NextKeepsFresh(t, Last(events), account, n, y);
      NextKeepsFlights(t, Last(events));
      NextKeepsSenders(t, Last(events));
    }
  }

  ghost predicate TokensValid(s: Store) {
    && (forall a | a in s.accounts && s.accounts[a].token.Some? ::
          s.accounts[a].token.value.fetch < |s.fetches| && s.fetches[s.accounts[a].token.value.fetch] == a)
    && (forall x | x in s.answers && s.answers[x].Granted? ::
          x < |s.asked| && s.answers[x].token.fetch < |s.fetches| &&
          s.fetches[s.answers[x].token.fetch] == s.asked[x])
  }

  lemma GetKeepsTokens(s: Store, account: nat, expired: bool)
    requires TokensValid(s) && SendersValid(s)
    ensures TokensValid(OnGet(s, account, expired))
  {
  }

  lemma CompletedKeepsTokens(s: Store)
    requires TokensValid(s) && FetchesValid(s) && SendersValid(s) && Enabled(s, Handle)
    ensures TokensValid(OnCompleted(s))
  {
    var t := OnCompleted(s);
    var account := s.fetches[s.completed[0].fetch];
    assert ChannelsValid(s, account);
    forall x | x in t.answers && t.answers[x].Granted?
      ensures x < |t.asked| && t.answers[x].token.fetch < |t.fetches| &&
              t.fetches[t.answers[x].token.fetch] == t.asked[x]
    {
      if x in Of(s, account).channels {
        assert t.answers[x] == ReplyOf(s.completed[0]);
      } else {
        assert t.answers[x] == s.answers[x];
      }
    }
  }

  lemma NextKeepsTokens(s: Store, e: Event)
    requires TokensValid(s) && FetchesValid(s) && SendersValid(s)
    ensures TokensValid(Next(s, e))
  {
    if Enabled(s, e) {
      match e
      case Get(account, expired) => GetKeepsTokens(s, account, expired);
      case Handle => CompletedKeepsTokens(s);
      case _ =>
    }
  }

  /** Token provenance: in every run a token that is stored or answered came from a fetch for that account. */
  lemma {:induction false} TokenProvenance(events: seq<Event>)
    ensures TokensValid(Run(New, events))
  {
    if events != [] {
      TokenProvenance(Front(events));
      RunKeepsFlights(Front(events));
      RunKeepsSenders(Front(events));
      NextKeepsTokens(Run(New, Front(events)), Last(events));
    }
  }

  /** A fetch of the account that may still hand out its token: running, or completed with a token. */
  ghost predicate OldTokenMayArrive(s: Store, account: nat) {
    || (exists f :: f in s.running && f < |s.fetches| && s.fetches[f] == account)
    || (exists i | 0 <= i < |s.completed| ::
          s.completed[i].text.Some? && s.completed[i].fetch < |s.fetches| && s.fetches[s.completed[i].fetch] == account)
  }

  /** Every token later given to a new sender of the account is from a fetch that starts after `s`. */
  ghost predicate OnlyNewTokensAfter(s: Store, account: nat) {
    forall events: seq<Event> :: OnlyNewTokens(s, Run(s, events), account)
  }

  ghost predicate OnlyNewTokens(s: Store, t: Store, account: nat) {
    forall x | |s.asked| <= x < |t.asked| && t.asked[x] == account && x in t.answers && t.answers[x].Granted? ::
      |s.fetches| <= t.answers[x].token.fetch
  }

  /**
   After an invalidation all later tokens of the account are from later fetches exactly when no
   fetch of the account is left running or queued with a token. The invalidation itself stops the
   tracked fetch if it still runs, but not one that has already completed.
   */
  lemma {:induction false} InvalidationIsFinalIff(events: seq<Event>, account: nat)
    ensures var s := OnInvalidate(Run(New, events), account);
            OnlyNewTokensAfter(s, account) <==> !OldTokenMayArrive(s, account)
  {
    RunKeepsFlights(events);
    RunKeepsSenders(events);
    var s := OnInvalidate(Run(New, events), account);
    InvalidateKeepsFlights(Run(New, events), account);
    InvalidateKeepsSenders(Run(New, events), account);
    if !OldTokenMayArrive(s, account) {
      NoOldTokens(s, account);
    } else {
      var later, x := OldTokenArrives(s, account);
      assert !OnlyNewTokens(s, Run(s, later), account);
    }
  }

  lemma NoOldTokens(s: Store, account: nat)
    requires FlightsValid(s) && SendersValid(s) && Of(s, account) == Default && !OldTokenMayArrive(s, account)
    ensures OnlyNewTokensAfter(s, account)
  {
    forall events: seq<Event>
      ensures OnlyNewTokens(s, Run(s, events), account)
    {
      RunKeepsFresh(s, events, account, |s.fetches|, |s.asked|);
    }
  }

  lemma {:induction false} HandleMany(s: Store, k: nat)
    requires FetchesValid(s) && k <= |s.completed|
    ensures var t := Run(s, seq(k, _ => Handle));
            && t.completed == s.completed[k..] && t.fetches == s.fetches && t.asked == s.asked && t.running == s.running
            && (k > 0 && s.completed[k - 1].text.Some? ==>
                  var c := s.completed[k - 1];
                  Of(t, s.fetches[c.fetch]).token == Some(Token(c.text.value, c.fetch)))
  {
    var events := seq(k, _ => Handle);
    if k > 0 {
      HandleMany(s, k - 1);
      assert Front(events) == seq(k - 1, _ => Handle);
      var t := Run(s, Front(events));
      assert t.completed[0] == s.completed[k - 1] && t.completed[1..] == s.completed[k..];
      assert Run(s, events) == OnCompleted(t);
    }
  }

  /** Handling completions up to one with a token, then asking, yields that token. */
  lemma QueuedTokenArrives(s: Store, k: nat) returns (events: seq<Event>)
    requires FetchesValid(s) && k < |s.completed| && s.completed[k].text.Some?
    ensures var t := Run(s, events);
            && t.asked == s.asked + [s.fetches[s.completed[k].fetch]] && |s.asked| in t.answers
            && t.answers[|s.asked|] == Granted(Token(s.completed[k].text.value, s.completed[k].fetch))
  {
    HandleMany(s, k + 1);
    var handles := seq(k + 1, _ => Handle);
    events := handles + [Get(s.fetches[s.completed[k].fetch], false)];
    assert Front(events) == handles;
  }

  lemma {:induction false} RunCons(s: Store, e: Event, events: seq<Event>)
    ensures Run(s, [e] + events) == Run(Next(s, e), events)
  {
    if events == [] {
      assert Front([e] + events) == [];
    } else {
      RunCons(s, e, Front(events));
      assert Front([e] + events) == [e] + Front(events);
    }
  }

  lemma OldTokenArrives(s: Store, account: nat) returns (events: seq<Event>, x: nat)
    requires FlightsValid(s) && OldTokenMayArrive(s, account)
    ensures var t := Run(s, events);
            && x == |s.asked| < |t.asked| && t.asked[x] == account && x in t.answers && t.answers[x].Granted?
            && t.answers[x].token.fetch < |s.fetches|
  {
    x := |s.asked|;
    if f :| f in s.running && f < |s.fetches| && s.fetches[f] == account {
      var e := Finish(f, Some(0));
      FinishKeepsFlights(s, f, Some(0));
      events := QueuedTokenArrives(Next(s, e), |s.completed|);
      RunCons(s, e, events);
      events := [e] + events;
    } else {
      var i :| 0 <= i < |s.completed| && s.completed[i].text.Some? && s.fetches[s.completed[i].fetch] == account;
      events := QueuedTokenArrives(s, i);
    }
  }

  // ----- what senders are answered

  /** `b` is left alone: its state, and the answer of every sender other than the given ones. */
  ghost predicate OthersKept(s: Store, t: Store, account: nat, senders: set<nat>) {
    && (forall b | b != account :: Of(t, b) == Of(s, b))
    && (forall x | x !in senders :: (x in t.answers <==> x in s.answers) && (x in t.answers ==> t.answers[x] == s.answers[x]))
  }

  /**
   A handled completion gives its result to every sender that waits for the account and to nobody
   else; only a token replaces the stored one, and nothing is tracked afterwards.
   */
  lemma CompletionAnswers(s: Store)
    requires Enabled(s, Handle)
    ensures var c := s.completed[0];
            var account := s.fetches[c.fetch];
            var channels := Of(s, account).channels;
            var t := Next(s, Handle);
            && (forall x | x in channels ::
                  x in t.answers && t.answers[x] == match c.text case Some(text) => Granted(Token(text, c.fetch)) case None => Failed)
            && OthersKept(s, t, account, set x | x in channels)
            && (c.text.Some? ==> Of(t, account) == AccountState(Some(Token(c.text.value, c.fetch)), None, []))
            && (c.text.None? ==> Of(t, account) == AccountState(Of(s, account).token, None, []))
            && t.dropped == s.dropped && t.running == s.running && t.fetches == s.fetches
  {
  }

  /**
   A request is answered from the stored token exactly when there is one and it has not expired.
   Otherwise it waits behind the senders before it, no token is stored any more, and a fetch is
   started exactly when none is tracked.
   */
  lemma GetAnswersOrWaits(s: Store, account: nat, expired: bool)
    requires SendersValid(s)
    ensures var x, state := |s.asked|, Of(s, account);
            var t := Next(s, Get(account, expired));
            && t.asked == s.asked + [account] && OthersKept(s, t, account, {x})
            && (x in t.answers <==> state.token.Some? && !expired)
            && (x in t.answers ==> t.answers[x] == Granted(state.token.value) && Of(t, account) == state && t.fetches == s.fetches)
            && (x !in t.answers ==>
                  && Of(t, account).channels == state.channels + [x] && Of(t, account).token.None?
                  && Of(t, account).inflight.Some?
                  && (state.inflight.Some? ==> Of(t, account).inflight == state.inflight && t.fetches == s.fetches)
                  && (state.inflight.None? ==>
                        var fetch := Of(t, account).inflight.value;
                        fetch == |s.fetches| && t.fetches == s.fetches + [account] && t.running == s.running + {fetch}))
  {
  }

  /** An invalidation drops the senders that wait, forgets the token and stops the tracked fetch if it runs. */
  lemma InvalidationForgets(s: Store, account: nat)
    ensures var state := Of(s, account);
            var t := Next(s, Invalidate(account));
            && Of(t, account) == Default && OthersKept(s, t, account, {})
            && (forall x :: x in t.dropped <==> x in s.dropped || x in state.channels)
            && (forall f :: f in t.running <==> f in s.running && Some(f) != state.inflight)
            && t.completed == s.completed && t.asked == s.asked && t.fetches == s.fetches
  {
  }

  /** Some fetch of the account ended in an error. */
  ghost predicate SomeFailure(s: Store, events: seq<Event>, account: nat) {
    exists f | 0 <= f < |s.fetches| :: s.fetches[f] == account && Finish(f, None) in events
  }

  /** Every token and every error in the store is the result of a fetch that ended so. */
  ghost predicate Earned(s: Store, events: seq<Event>) {
    && (forall i | 0 <= i < |s.completed| :: Finish(s.completed[i].fetch, s.completed[i].text) in events)
    && (forall a | a in s.accounts && s.accounts[a].token.Some? ::
          Finish(s.accounts[a].token.value.fetch, Some(s.accounts[a].token.value.text)) in events)
    && (forall x | x in s.answers && s.answers[x].Granted? ::
          Finish(s.answers[x].token.fetch, Some(s.answers[x].token.text)) in events)
    && (forall x | x in s.answers && s.answers[x].Failed? :: x < |s.asked| && SomeFailure(s, events, s.asked[x]))
  }

  lemma LongerRunKeepsEarned(s: Store, events: seq<Event>, longer: seq<Event>)
    requires Earned(s, events) && forall e | e in events :: e in longer
    ensures Earned(s, longer)
  {
    forall x | x in s.answers && s.answers[x].Failed?
      ensures SomeFailure(s, longer, s.asked[x])
    {
      var f :| 0 <= f < |s.fetches| && s.fetches[f] == s.asked[x] && Finish(f, None) in events;
      assert s.fetches[f] == s.asked[x] && Finish(f, None) in longer;
    }
  }

  lemma CompletedKeepsEarned(s: Store, events: seq<Event>)
    requires Earned(s, events) && FetchesValid(s) && SendersValid(s) && Enabled(s, Handle)
    ensures Earned(OnCompleted(s), events)
  {
    var t := OnCompleted(s);
    var c := s.completed[0];
    CompletionAnswers(s);
    assert ChannelsValid(s, s.fetches[c.fetch]);
    assert forall i | 0 <= i < |t.completed| :: t.completed[i] == s.completed[i + 1];
    forall x | x in t.answers && t.answers[x].Failed?
      ensures x < |t.asked| && SomeFailure(t, events, t.asked[x])
    {
      if x in Of(s, s.fetches[c.fetch]).channels {
        assert c.text.None? && t.fetches[c.fetch] == t.asked[x];
      } else {
        SameFailures(s, t, events, s.asked[x]);
      }
    }
  }

  lemma SameFailures(s: Store, t: Store, events: seq<Event>, account: nat)
    requires SomeFailure(s, events, account) && s.fetches <= t.fetches
    ensures SomeFailure(t, events, account)
  {
    var f :| 0 <= f < |s.fetches| && s.fetches[f] == account && Finish(f, None) in events;
    assert t.fetches[f] == account;
  }

  lemma GetKeepsEarned(s: Store, events: seq<Event>, account: nat, expired: bool)
    requires Earned(s, events) && SendersValid(s)
    ensures Earned(OnGet(s, account, expired), events)
  {
    var t := OnGet(s, account, expired);
    forall x | x in t.answers && t.answers[x].Failed?
      ensures x < |t.asked| && SomeFailure(t, events, t.asked[x])
    {
      SameFailures(s, t, events, s.asked[x]);
    }
  }

  lemma OtherKeepsEarned(s: Store, events: seq<Event>, e: Event)
    requires Earned(s, events) && e in events && (e.Invalidate? || e.Finish?)
    ensures Earned(Next(s, e), events)
  {
    var t := Next(s, e);
    forall x | x in t.answers && t.answers[x].Failed?
      ensures x < |t.asked| && SomeFailure(t, events, t.asked[x])
    {
      SameFailures(s, t, events, s.asked[x]);
    }
  }

  /**
   Answers are earned: in every run a granted or stored token has the text with which its fetch
   ended, and a sender is told of a failure only if a fetch for its account ended in one.
   */
  lemma {:induction false} AnswersAreEarned(events: seq<Event>)
    ensures Earned(Run(New, events), events)
  {
    if events != [] {
      var before, e := Front(events), Last(events);
      var s := Run(New, before);
      AnswersAreEarned(before);
      RunKeepsFlights(before);
      RunKeepsSenders(before);
      LongerRunKeepsEarned(s, before, events);
      if Enabled(s, e) {
        match e
        case Get(account, expired) => GetKeepsEarned(s, events, account, expired);
        case Handle => CompletedKeepsEarned(s, events);
        case _ => OtherKeepsEarned(s, events, e);
      }
    }
  }

  /** The completion that an event queues. */
  function NewlyQueued(s: Store, e: Event): seq<Completion> {
    if e.Finish? && e.fetch in s.running then [Completion(e.fetch, e.text)] else []
  }

  /** The completions queued in a run. */
  function Queued(events: seq<Event>): seq<Completion> {
    if events == [] then [] else Queued(Front(events)) + NewlyQueued(Run(New, Front(events)), Last(events))
  }

  /** How many of them were handled. */
  function HandledCount(events: seq<Event>): nat {
    if events == [] then 0
    else
      var n := HandledCount(Front(events));
      if Last(events).Handle? && n < |Queued(Front(events))| then n + 1 else n
  }

  lemma InOrderStep(s: Store, e: Event, queued: seq<Completion>, n: nat)
    requires FetchesValid(s) && n <= |queued| && s.completed == queued[n..]
    ensures var m := if e.Handle? && n < |queued| then n + 1 else n;
            var longer := queued + NewlyQueued(s, e);
            m <= |longer| && Next(s, e).completed == longer[m..]
  {
    if e.Finish? {
      assert (queued + NewlyQueued(s, e))[n..] == queued[n..] + NewlyQueued(s, e);
    } else {
      assert queued + [] == queued;
      if e.Handle? && n < |queued| {
        assert queued[n..][1..] == queued[n + 1..];
      }
    }
  }

  /** Completions are handled one by one, in the order in which the fetches ended. */
  lemma {:induction false} CompletionsInOrder(events: seq<Event>)
    ensures HandledCount(events) <= |Queued(events)|
    ensures Run(New, events).completed == Queued(events)[HandledCount(events)..]
  {
    if events != [] {
      CompletionsInOrder(Front(events));
      assert FetchesValid(Run(New, Front(events))) by {
        RunKeepsFlights(Front(events));
      }
      InOrderStep(Run(New, Front(events)), Last(events), Queued(Front(events)), HandledCount(Front(events)));
    }
  }

  // ----- the races happen

  lemma RunSnoc(events: seq<Event>, e: Event)
    ensures Run(New, events + [e]) == Next(Run(New, events), e)
  {
    assert Front(events + [e]) == events;
  }

  /** One fetch of an idle account that completes just before it is invalidated. */
  lemma OneRace(events: seq<Event>, account: nat, text: Option<nat>) returns (longer: seq<Event>)
    requires Of(Run(New, events), account) == Default
    ensures var s, t := Run(New, events), Run(New, longer);
            && Of(t, account) == Default && t.idle == s.idle && t.raced == s.raced + multiset{account}
            && t.fetches == s.fetches + [account] && t.completed == s.completed + [Completion(|s.fetches|, text)]
            && t.asked == s.asked + [account] && t.answers == s.answers
  {
    var s := Run(New, events);
    var fetch := |s.fetches|;
    RunSnoc(events, Get(account, false));
    longer := events + [Get(account, false)];
    RunSnoc(longer, Finish(fetch, text));
    longer := longer + [Finish(fetch, text)];
    assert Of(Run(New, longer), account) == AccountState(None, Some(fetch), [|s.asked|]);
    assert fetch !in Run(New, longer).running;
    RunSnoc(longer, Invalidate(account));
    longer := longer + [Invalidate(account)];
  }

  /** Without a bound on the races there is none on the fetches of one account that are outstanding together. */
  lemma {:induction false} RacesPileUp(account: nat, n: nat) returns (events: seq<Event>)
    ensures var s := Run(New, events);
            && Of(s, account) == Default && s.idle == multiset{} && s.raced[account] == n
            && |Outstanding(s, account)| == n
  {
    if n == 0 {
      events := [];
    } else {
      events := RacesPileUp(account, n - 1);
      events := OneRace(events, account, Some(7));
    }
    CountersAreExact(events, account);
    SingleFlight(events, account);
  }

  /** A fetch that completes just before the invalidation hands its token to a sender that asks afterwards. */
  lemma CompletedFetchOutlivesInvalidation(account: nat, text: nat)
    ensures var s := OnInvalidate(Run(New, [Get(account, false), Finish(0, Some(text))]), account);
            OldTokenMayArrive(s, account) && !OnlyNewTokensAfter(s, account)
  {
    var events := [Get(account, false)];
    RunSnoc([], Get(account, false));
    assert [] + [Get(account, false)] == events;
    RunSnoc(events, Finish(0, Some(text)));
    events := [Get(account, false), Finish(0, Some(text))];
    assert [Get(account, false)] + [Finish(0, Some(text))] == events;
    var s := OnInvalidate(Run(New, events), account);
    assert s.completed == [Completion(0, Some(text))] && s.fetches == [account];
    assert s.completed[0].text.Some? && s.completed[0].fetch < |s.fetches| && s.fetches[s.completed[0].fetch] == account;
    InvalidationIsFinalIff(events, account);
  }

  // ----- the actor

  class AccessTokenStore {
    var accountStates: map<nat, AccountState>
    var fetches: seq<nat>
    var running: set<nat>
    var completed: seq<Completion>
    var asked: seq<nat>
    var answers: map<nat, Reply>
    var dropped: set<nat>
    ghost var raced: multiset<nat>
    ghost var idle: multiset<nat>

    ghost function Model(): Store
      reads this
    {
      Store(accountStates, fetches, running, completed, asked, answers, dropped, raced, idle)
    }

    constructor ()
      ensures Model() == New
    {
      accountStates, fetches, running, completed := map[], [], {}, [];
      asked, answers, dropped, raced, idle := [], map[], {}, multiset{}, multiset{};
    }

    method Entry(account: nat) returns (state: AccountState)
      ensures state == Of(Model(), account)
    {
      state := if account in accountStates then accountStates[account] else Default;
    }

    method GetAccessToken(account: nat, expired: bool)
      requires FlightsValid(Model()) && SendersValid(Model())
      modifies this
      ensures Model() == OnGet(old(Model()), account, expired)
      ensures FlightsValid(Model()) && SendersValid(Model())
    {
      GetKeepsFlights(Model(), account, expired);
      GetKeepsSenders(Model(), account, expired);
      var state := Entry(account);
      var sender := |asked|;
      asked := asked + [account];
      if state.token.Some? {
        if !expired {
          accountStates := accountStates[account := state];
          answers := answers[sender := Granted(state.token.value)];
          return;
        }
        state := state.(token := None);
      }
      if state.inflight.None? {
        state := state.(inflight := Some(|fetches|));
        running := running + {|fetches|};
        fetches := fetches + [account];
      }
      accountStates := accountStates[account := state.(channels := state.channels + [sender])];
    }

    method InvalidateToken(account: nat)
      requires FlightsValid(Model()) && SendersValid(Model())
      modifies this
      ensures Model() == OnInvalidate(old(Model()), account)
      ensures FlightsValid(Model()) && SendersValid(Model())
    {
      InvalidateKeepsFlights(Model(), account);
      InvalidateKeepsSenders(Model(), account);
      var state := Entry(account);
      if state.inflight.Some? {
        if state.inflight.value in running {
          running := running - {state.inflight.value};
        } else {
          raced := raced + multiset{account};
        }
      }
      dropped := dropped + set i | 0 <= i < |state.channels| :: state.channels[i];
      accountStates := accountStates[account := Default];
    }

    /** Sends the result to every waiting sender. */
    method Drain(channels: seq<nat>, reply: Reply)
      modifies this`answers
      ensures answers == AnswerAll(old(answers), channels, reply)
    {
      AnswerOneMore(answers, [], 0, reply);
      for i := 0 to |channels|
        invariant answers == AnswerAll(old(answers), channels[..i], reply)
      {
        AnswerOneMore(old(answers), channels[..i], channels[i], reply);
        assert channels[..i + 1] == channels[..i] + [channels[i]];
        answers := answers[channels[i] := reply];
      }
      assert channels[..|channels|] == channels;
    }

    method HandleCompletion()
      requires FlightsValid(Model()) && SendersValid(Model()) && completed != []
      modifies this
      ensures Model() == OnCompleted(old(Model()))
      ensures FlightsValid(Model()) && SendersValid(Model())
    {
      CompletedKeepsFlights(Model());
      CompletedKeepsSenders(Model());
      var c := completed[0];
      var account := fetches[c.fetch];
      var state := Entry(account);
      completed := completed[1..];
      idle := if state.inflight.None? then idle + multiset{account} else idle;
      Drain(state.channels, ReplyOf(c));
      var token := if c.text.Some? then Some(Token(c.text.value, c.fetch)) else state.token;
      accountStates := accountStates[account := AccountState(token, None, [])];
    }
  }
}
