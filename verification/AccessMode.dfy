/**
 The access method settings and the selector that rotates over them.

 The resolver is code outside this model: each handler is given the `Answer` the resolver
 happens to return at that moment, so nothing is assumed about two answers agreeing.
 */
module AccessMode {
  import opened Common
  import opened ConnectionMode

  // ----- settings

  datatype AccessMethod = BuiltInDirect | BuiltInBridge | BuiltInEncryptedDns | Custom(config: nat)

  datatype Setting = Setting(id: nat, name: string, enabled: bool, accessMethod: AccessMethod)

  datatype Settings = Settings(direct: Setting, mullvadBridges: Setting, encryptedDnsProxy: Setting, custom: seq<Setting>)
  {
    /** All methods in rotation order: the built-in ones, then the custom ones. */
    function Iter(): (ms: seq<Setting>)
      ensures |ms| == 3 + |custom| && ms[0] == direct && ms[1] == mullvadBridges && ms[2] == encryptedDnsProxy
      ensures ms[3..] == custom
    {
      [direct, mullvadBridges, encryptedDnsProxy] + custom
    }
  }

  predicate AnyEnabled(ms: seq<Setting>) {
    exists i | 0 <= i < |ms| :: ms[i].enabled
  }

  /** The first position holding the given id. */
  function IndexOf(ms: seq<Setting>, id: nat): (r: Option<nat>)
    ensures r.Some? ==> r.value < |ms| && ms[r.value].id == id
    ensures r.Some? ==> forall i | 0 <= i < r.value :: ms[i].id != id
    ensures r.None? ==> forall i | 0 <= i < |ms| :: ms[i].id != id
  {
    if ms == [] then None
    else if ms[0].id == id then Some(0)
    else
      var rest := IndexOf(ms[1..], id);
      assert forall i | 0 < i < |ms| :: ms[i] == ms[1..][i - 1];
      if rest.Some? then Some(rest.value + 1) else None
  }

  // ----- finding the next active method

  /** Scan `count` entries of the endlessly repeated list, from position `pos`, for an enabled one. */
  function FindCycled(ms: seq<Setting>, pos: nat, count: nat): Option<nat>
    requires |ms| > 0
    decreases count
  {
    if count == 0 then None
    else if ms[Cycled(pos, |ms|)].enabled then Some(Cycled(pos, |ms|))
    else FindCycled(ms, pos + 1, count - 1)
  }

  /** `find_next_active`: the position found, or that of Direct when nothing is enabled. */
  function FindNextActive(start: nat, ms: seq<Setting>): nat
    requires |ms| > 0
  {
    match FindCycled(ms, start, |ms|)
    case Some(i) => i
    case None => 0
  }

  /** `k` is the first place at or after `start` of the endless list that holds an enabled method. */
  ghost predicate FirstActive(ms: seq<Setting>, start: nat, k: nat)
    requires |ms| > 0
  {
    && start <= k
    && ms[Cycled(k, |ms|)].enabled
    && forall j | start <= j < k :: !ms[Cycled(j, |ms|)].enabled
  }

  lemma {:induction false} FindCycledSpec(ms: seq<Setting>, pos: nat, count: nat) returns (k: nat)
    requires |ms| > 0
    ensures FindCycled(ms, pos, count).None? ==> forall j | pos <= j < pos + count :: !ms[Cycled(j, |ms|)].enabled
    ensures FindCycled(ms, pos, count).Some? ==>
              k < pos + count && FirstActive(ms, pos, k) && FindCycled(ms, pos, count).value == Cycled(k, |ms|)
    decreases count
  {
    k := pos;
    if count != 0 && !ms[Cycled(pos, |ms|)].enabled {
      k := FindCycledSpec(ms, pos + 1, count - 1);
    }
  }

  /** Every position occurs among the scanned ones. */
  lemma {:induction false} CycleCovers(n: nat, start: nat, i: nat) returns (k: nat)
    requires i < n
    ensures start <= k < start + n && Cycled(k, n) == i
  {
    if start < n {
      k := if start <= i then i else i + n;
    } else {
      k := CycleCovers(n, start - n, i);
      k := k + n;
    }
  }

  /**
   The search finds the first enabled method at or cyclically after `start`; it falls back to
   Direct exactly when no method is enabled.
   */
  lemma FindNextActiveSpec(start: nat, ms: seq<Setting>)
    requires |ms| > 0
    ensures FindNextActive(start, ms) < |ms|
    ensures AnyEnabled(ms) <==> ms[FindNextActive(start, ms)].enabled
    ensures !AnyEnabled(ms) ==> FindNextActive(start, ms) == 0
    ensures AnyEnabled(ms) ==>
              exists k: nat :: FirstActive(ms, start, k) && k < start + |ms| && FindNextActive(start, ms) == Cycled(k, |ms|)
  {
    var k := FindCycledSpec(ms, start, |ms|);
    if AnyEnabled(ms) {
      var i :| 0 <= i < |ms| && ms[i].enabled;
      var j := CycleCovers(|ms|, start, i);
    }
  }

  // ----- round robin

  /** The enabled positions in `lo..hi`, ascending. */
  function EnabledIn(ms: seq<Setting>, lo: nat, hi: nat): (s: seq<nat>)
    requires lo <= hi <= |ms|
    decreases hi - lo
  {
    if lo == hi then []
    else if ms[lo].enabled then [lo] + EnabledIn(ms, lo + 1, hi)
    else EnabledIn(ms, lo + 1, hi)
  }

  /** Enabled positions between `lo` and `hi`, in strictly ascending order. */
  predicate AscendingEnabled(ms: seq<Setting>, lo: nat, hi: nat, s: seq<nat>)
    requires hi <= |ms|
  {
    && (forall k | 0 <= k < |s| :: lo <= s[k] < hi && ms[s[k]].enabled)
    && (forall i, j | 0 <= i < j < |s| :: s[i] < s[j])
  }

  lemma {:induction false} EnabledInAscends(ms: seq<Setting>, lo: nat, hi: nat)
    requires lo <= hi <= |ms|
    ensures AscendingEnabled(ms, lo, hi, EnabledIn(ms, lo, hi))
    decreases hi - lo
  {
    if lo < hi {
      EnabledInAscends(ms, lo + 1, hi);
    }
  }

  lemma {:induction false} EnabledInHas(ms: seq<Setting>, lo: nat, hi: nat, x: nat)
    requires lo <= x < hi <= |ms| && ms[x].enabled
    ensures x in EnabledIn(ms, lo, hi)
    decreases hi - lo
  {
    if lo < x {
      EnabledInHas(ms, lo + 1, hi, x);
    }
  }

  /** `EnabledIn` lists exactly the enabled positions, in strictly ascending order. */
  lemma EnabledInSpec(ms: seq<Setting>, lo: nat, hi: nat)
    requires lo <= hi <= |ms|
    ensures AscendingEnabled(ms, lo, hi, EnabledIn(ms, lo, hi))
    ensures forall x | lo <= x < hi && ms[x].enabled :: x in EnabledIn(ms, lo, hi)
  {
    EnabledInAscends(ms, lo, hi);
    forall x | lo <= x < hi && ms[x].enabled
      ensures x in EnabledIn(ms, lo, hi)
    {
      EnabledInHas(ms, lo, hi, x);
    }
  }

  lemma {:induction false} EnabledInSplit(ms: seq<Setting>, lo: nat, mid: nat, hi: nat)
    requires lo <= mid <= hi <= |ms|
    ensures EnabledIn(ms, lo, hi) == EnabledIn(ms, lo, mid) + EnabledIn(ms, mid, hi)
    decreases mid - lo
  {
    if lo < mid {
      EnabledInSplit(ms, lo + 1, mid, hi);
    }
  }

  /** The enabled positions in the cyclic order in which they follow position `i`. */
  function OrderAfter(ms: seq<Setting>, i: nat): seq<nat>
    requires i < |ms|
  {
    EnabledIn(ms, i + 1, |ms|) + EnabledIn(ms, 0, i + 1)
  }

  /** Where a rotation from position `i` goes. */
  function Rotated(ms: seq<Setting>, i: nat): nat
    requires i < |ms|
  {
    FindNextActive(i + 1, ms)
  }

  /** The positions visited by `k` rotations from position `i`. */
  function Visits(ms: seq<Setting>, i: nat, k: nat): seq<nat>
    requires i < |ms|
    decreases k
  {
    if k == 0 then []
    else
      FindNextActiveSpec(i + 1, ms);
      [Rotated(ms, i)] + Visits(ms, Rotated(ms, i), k - 1)
  }

  lemma {:induction false} NoneEnabled(ms: seq<Setting>, lo: nat, hi: nat)
    requires lo <= hi <= |ms| && forall j | lo <= j < hi :: !ms[j].enabled
    ensures EnabledIn(ms, lo, hi) == []
    decreases hi - lo
  {
    if lo < hi {
      NoneEnabled(ms, lo + 1, hi);
    }
  }

  /** Splitting off the first enabled position. */
  lemma {:induction false} EnabledInHead(ms: seq<Setting>, lo: nat, hi: nat)
    requires lo <= hi <= |ms| && EnabledIn(ms, lo, hi) != []
    ensures var x := EnabledIn(ms, lo, hi)[0];
            && lo <= x < hi
            && EnabledIn(ms, lo, hi) == [x] + EnabledIn(ms, x + 1, hi)
            && EnabledIn(ms, lo, x + 1) == [x]
    decreases hi - lo
  {
    if !ms[lo].enabled {
      EnabledInHead(ms, lo + 1, hi);
    } else {
      assert EnabledIn(ms, lo, lo + 1) == [lo] + EnabledIn(ms, lo + 1, lo + 1);
    }
  }

  lemma FirstEnabledIsHead(ms: seq<Setting>, lo: nat, hi: nat, x: nat)
    requires lo <= x < hi <= |ms| && ms[x].enabled
    requires forall j | lo <= j < x :: !ms[j].enabled
    ensures EnabledIn(ms, lo, hi) != [] && EnabledIn(ms, lo, hi)[0] == x
  {
    EnabledInSplit(ms, lo, x, hi);
    NoneEnabled(ms, lo, x);
  }

  lemma RotatedIsHead(ms: seq<Setting>, i: nat)
    requires i < |ms| && AnyEnabled(ms)
    ensures OrderAfter(ms, i) != [] && Rotated(ms, i) == OrderAfter(ms, i)[0]
  {
    FindNextActiveSpec(i + 1, ms);
    var n := |ms|;
    var k: nat :| FirstActive(ms, i + 1, k) && k < i + 1 + n && Rotated(ms, i) == Cycled(k, n);
    forall j | i + 1 <= j < n && j < k
      ensures !ms[j].enabled
    {
      assert Cycled(j, n) == j;
    }
    if k < n {
      FirstEnabledIsHead(ms, i + 1, n, k);
    } else {
      forall j | 0 <= j < k - n
        ensures !ms[j].enabled
      {
        assert Cycled(j + n, n) == j;
      }
      FirstEnabledIsHead(ms, 0, i + 1, k - n);
      NoneEnabled(ms, i + 1, n);
    }
  }

  /** One rotation moves the head of the visiting order to its end. */
  lemma RotationShiftsOrder(ms: seq<Setting>, i: nat)
    requires i < |ms| && AnyEnabled(ms)
    ensures Rotated(ms, i) < |ms| && OrderAfter(ms, i) != []
    ensures OrderAfter(ms, Rotated(ms, i)) == OrderAfter(ms, i)[1..] + [OrderAfter(ms, i)[0]]
  {
    RotatedIsHead(ms, i);
    var n, x := |ms|, Rotated(ms, i);
    var after, before := EnabledIn(ms, i + 1, n), EnabledIn(ms, 0, i + 1);
    if after != [] {
      EnabledInHead(ms, i + 1, n);
      EnabledInSplit(ms, 0, i + 1, x + 1);
      assert OrderAfter(ms, i)[1..] == EnabledIn(ms, x + 1, n) + before;
    } else {
      assert OrderAfter(ms, i) == before;
      EnabledInHead(ms, 0, i + 1);
      EnabledInSplit(ms, x + 1, i + 1, n);
      assert before[1..] == EnabledIn(ms, x + 1, i + 1);
    }
  }

  lemma {:induction false} VisitsFollowOrder(ms: seq<Setting>, i: nat, k: nat)
    requires i < |ms| && AnyEnabled(ms) && k <= |OrderAfter(ms, i)|
    ensures Visits(ms, i, k) == OrderAfter(ms, i)[..k]
    decreases k
  {
    if k > 0 {
      var x, order := Rotated(ms, i), OrderAfter(ms, i);
      RotatedIsHead(ms, i);
      RotationShiftsOrder(ms, i);
      VisitsFollowOrder(ms, x, k - 1);
      assert OrderAfter(ms, x)[..k - 1] == order[1..k];
    }
  }

  /**
   Round robin: with m enabled methods, m rotations from any position visit the enabled methods
   in cyclic order, each exactly once.
   */
  lemma RoundRobin(ms: seq<Setting>, i: nat)
    requires i < |ms| && AnyEnabled(ms)
    ensures var enabled := EnabledIn(ms, 0, |ms|);
            && Visits(ms, i, |enabled|) == EnabledIn(ms, i + 1, |ms|) + EnabledIn(ms, 0, i + 1)
            && multiset(Visits(ms, i, |enabled|)) == multiset(enabled)
  {
    var order := OrderAfter(ms, i);
    EnabledInSplit(ms, 0, i + 1, |ms|);
    assert multiset(order) == multiset(EnabledIn(ms, 0, |ms|));
    VisitsFollowOrder(ms, i, |order|);
    assert order[..|order|] == order;
  }

  // ----- the selector

  /** What the resolver returns for one request. */
  datatype Answer = Answer(resolution: Option<(nat, Mode)>, defaultEndpoint: nat)

  datatype Resolved = Resolved(mode: Mode, endpoint: nat, setting: Setting)

  datatype Message =
    | Get
    | Use(id: nat)
    | Rotate
    | Update(settings: Settings)
    | Resolve(setting: Setting)

  /** `announced` holds every mode sent to the REST client so far, oldest first. */
  datatype Selector = Selector(settings: Settings, current: Resolved, index: nat, announced: seq<Mode>)
  {
    /** The selector's position names its current setting. */
    predicate Consistent() {
      index < |settings.Iter()| && settings.Iter()[index] == current.setting
    }
  }

  function ResolveWithDefault(setting: Setting, answer: Answer): Resolved {
    match answer.resolution
    case Some((endpoint, mode)) => Resolved(mode, endpoint, setting)
    case None => Resolved(Direct, answer.defaultEndpoint, setting)
  }

  function Spawned(settings: Settings, answer: Answer): Selector {
    FindNextActiveSpec(0, settings.Iter());
    var index := FindNextActive(0, settings.Iter());
    Selector(settings, ResolveWithDefault(settings.Iter()[index], answer), index, [])
  }

  function SetCurrent(s: Selector, setting: Setting, answer: Answer): Selector {
    var resolved := ResolveWithDefault(setting, answer);
    s.(current := resolved, announced := s.announced + [resolved.mode])
  }

  function NextConnectionMode(s: Selector, answer: Answer): Selector {
    FindNextActiveSpec(s.index + 1, s.settings.Iter());
    var next := FindNextActive(s.index + 1, s.settings.Iter());
    SetCurrent(s.(index := next), s.settings.Iter()[next], answer)
  }

  function UseAccessMethod(s: Selector, id: nat, answer: Answer): Selector {
    match IndexOf(s.settings.Iter(), id)
    case Some(i) => SetCurrent(s.(index := i), s.settings.Iter()[i], answer)
    case None => s
  }

  function SaturatingPredecessor(i: nat): nat {
    if i == 0 then 0 else i - 1
  }

  function UpdateAccessMethods(s: Selector, settings: Settings, answer: Answer): Selector {
    var t := s.(settings := settings);
    match IndexOf(settings.Iter(), s.current.setting.id)
    case Some(i) =>
      var found := settings.Iter()[i];
      if s.current.setting == found then t.(index := i)
      else if found.enabled then SetCurrent(t.(index := i), found, answer)
      else NextConnectionMode(t.(index := i), answer)
    case None => NextConnectionMode(t.(index := SaturatingPredecessor(s.index)), answer)
  }

  /** One command of the selector's loop. */
  function Handled(s: Selector, message: Message, answer: Answer): Selector {
    match message
    case Get => s
    case Use(id) => UseAccessMethod(s, id, answer)
    case Rotate => NextConnectionMode(s, answer)
    case Update(settings) => UpdateAccessMethods(s, settings, answer)
    case Resolve(_) => s
  }

  /** The selector after a whole run of commands. */
  function Run(s: Selector, commands: seq<(Message, Answer)>): Selector {
    if commands == [] then s
    else
      var (message, answer) := Last(commands);
      Handled(Run(s, Front(commands)), message, answer)
  }

  lemma NextIsConsistent(s: Selector, answer: Answer)
    ensures NextConnectionMode(s, answer).Consistent()
    ensures NextConnectionMode(s, answer).current.setting.enabled <==> AnyEnabled(s.settings.Iter())
  {
    FindNextActiveSpec(s.index + 1, s.settings.Iter());
  }

  /** Each command leaves the position naming the current setting, and announces exactly the changes. */
  lemma HandledKeepsConsistency(s: Selector, message: Message, answer: Answer)
    requires s.Consistent()
    ensures var t := Handled(s, message, answer);
            && t.Consistent()
            && (t.announced == s.announced ==> t.current == s.current)
            && (t.announced != s.announced ==> t.announced == s.announced + [t.current.mode])
  {
    var t := Handled(s, message, answer);
    match message
    case Rotate => NextIsConsistent(s, answer);
    case Update(settings) =>
      var i := IndexOf(settings.Iter(), s.current.setting.id);
      var at := if i.Some? then i.value else SaturatingPredecessor(s.index);
      NextIsConsistent(s.(settings := settings, index := at), answer);
    case _ =>
    if t.announced == s.announced {
      assert |t.announced| == |s.announced|;
    }
  }

  /** The mode the REST client knows of: the last announcement, or the mode it was spawned with. */
  function LastAnnounced(initial: Mode, announced: seq<Mode>): Mode {
    if announced == [] then initial else Last(announced)
  }

  /** In every run from a spawned selector, `index` names the current setting and the last announcement is its mode. */
  lemma {:induction false} RunIsConsistent(settings: Settings, first: Answer, commands: seq<(Message, Answer)>)
    ensures var s := Spawned(settings, first);
            var t := Run(s, commands);
            t.Consistent() && LastAnnounced(s.current.mode, t.announced) == t.current.mode
  {
    if commands != [] {
      RunIsConsistent(settings, first, Front(commands));
      var s := Run(Spawned(settings, first), Front(commands));
      HandledKeepsConsistency(s, Last(commands).0, Last(commands).1);
    } else {
      FindNextActiveSpec(0, settings.Iter());
    }
  }

  /** Exactly when a command leaves an enabled method in use. */
  lemma EnabledAfterCommand(s: Selector, message: Message, answer: Answer)
    requires s.Consistent()
    ensures Handled(s, message, answer).current.setting.enabled <==>
            match message
            case Get => s.current.setting.enabled
            case Resolve(_) => s.current.setting.enabled
            case Use(id) =>
              var i := IndexOf(s.settings.Iter(), id);
              if i.Some? then s.settings.Iter()[i.value].enabled else s.current.setting.enabled
            case Rotate => AnyEnabled(s.settings.Iter())
            case Update(settings) =>
              var i := IndexOf(settings.Iter(), s.current.setting.id);
              if i.Some? && settings.Iter()[i.value] == s.current.setting then s.current.setting.enabled
              else AnyEnabled(settings.Iter())
  {
    match message
    case Rotate => NextIsConsistent(s, answer);
    case Update(settings) =>
      var i := IndexOf(settings.Iter(), s.current.setting.id);
      var at := if i.Some? then i.value else SaturatingPredecessor(s.index);
      NextIsConsistent(s.(settings := settings, index := at), answer);
    case _ =>
  }

  /** A command that cannot itself put a disabled method in use. */
  predicate Careful(s: Selector, message: Message) {
    match message
    case Use(id) =>
      var i := IndexOf(s.settings.Iter(), id);
      i.Some? ==> s.settings.Iter()[i.value].enabled
    case Update(settings) => AnyEnabled(settings.Iter())
    case _ => true
  }

  /**
   If some method of the first settings and of every update is enabled and `Use` names no disabled
   method, the method in use is enabled in every state, however updates remove, disable or reorder it.
   */
  lemma {:induction false} RunKeepsEnabled(settings: Settings, first: Answer, commands: seq<(Message, Answer)>)
    requires AnyEnabled(settings.Iter())
    requires forall k | 0 <= k < |commands| :: Careful(Run(Spawned(settings, first), commands[..k]), commands[k].0)
    ensures var t := Run(Spawned(settings, first), commands);
            t.current.setting.enabled && AnyEnabled(t.settings.Iter())
  {
    if commands != [] {
      var before := Front(commands);
      assert forall k | 0 <= k < |before| :: before[..k] == commands[..k];
      RunKeepsEnabled(settings, first, before);
      RunIsConsistent(settings, first, before);
      var s := Run(Spawned(settings, first), before);
      EnabledAfterCommand(s, Last(commands).0, Last(commands).1);
      assert Careful(s, Last(commands).0);
    } else {
      FindNextActiveSpec(0, settings.Iter());
    }
  }

  // ----- what each command puts in use

  /** `i` is the first position whose method has the id. */
  predicate FirstWithId(ms: seq<Setting>, id: nat, i: nat) {
    i < |ms| && ms[i].id == id && forall j | 0 <= j < i :: ms[j].id != id
  }

  /**
   Use puts the named method in use: the first one with the id, enabled or not, announced once. An
   unknown id changes nothing.
   */
  lemma UsePutsMethodInUse(s: Selector, id: nat, answer: Answer)
    ensures var t := Handled(s, Use(id), answer);
            if exists i | 0 <= i < |s.settings.Iter()| :: s.settings.Iter()[i].id == id then
              && FirstWithId(s.settings.Iter(), id, t.index) && t.current.setting == s.settings.Iter()[t.index]
              && t.settings == s.settings && |t.announced| == |s.announced| + 1
            else t == s
  {
  }

  /**
   An update takes the new settings. If they still have the method in use, the position follows it:
   unchanged it stays in use without an announcement, changed but enabled it is used with its new
   setting, and disabled it gives way to the first enabled method cyclically after it.
   */
  lemma UpdateFollowsMethod(s: Selector, settings: Settings, answer: Answer, i: nat)
    requires FirstWithId(settings.Iter(), s.current.setting.id, i)
    ensures var ms := settings.Iter();
            var t := Handled(s, Update(settings), answer);
            && t.settings == settings
            && (ms[i] == s.current.setting ==> t.index == i && t.current == s.current && t.announced == s.announced)
            && (ms[i] != s.current.setting ==> |t.announced| == |s.announced| + 1)
            && (ms[i] != s.current.setting && ms[i].enabled ==> t.index == i && t.current.setting == ms[i])
            && (ms[i] != s.current.setting && !ms[i].enabled && AnyEnabled(ms) ==>
                  exists k: nat :: FirstActive(ms, i, k) && t.index == Cycled(k, |ms|) && t.current.setting == ms[t.index])
  {
    var ms := settings.Iter();
    assert IndexOf(ms, s.current.setting.id) == Some(i);
    if ms[i] != s.current.setting && !ms[i].enabled && AnyEnabled(ms) {
      var k := FirstActiveAfterDisabled(ms, i);
      assert Handled(s, Update(settings), answer).index == Cycled(k, |ms|);
    }
  }

  lemma FirstActiveAfterDisabled(ms: seq<Setting>, i: nat) returns (k: nat)
    requires i < |ms| && !ms[i].enabled && AnyEnabled(ms)
    ensures FirstActive(ms, i, k) && FindNextActive(i + 1, ms) == Cycled(k, |ms|)
  {
    FindNextActiveSpec(i + 1, ms);
    k :| FirstActive(ms, i + 1, k) && k < i + 1 + |ms| && FindNextActive(i + 1, ms) == Cycled(k, |ms|);
    assert Cycled(i, |ms|) == i;
  }

  /** A method put in use has the mode and endpoint the resolver gave for it, or else a direct connection. */
  lemma AnnouncedIsResolved(s: Selector, message: Message, answer: Answer)
    requires s.Consistent()
    ensures var t := Handled(s, message, answer);
            t.announced != s.announced ==>
              match answer.resolution
              case Some((endpoint, mode)) =>
                Last(t.announced) == mode && t.current.mode == mode && t.current.endpoint == endpoint
              case None =>
                Last(t.announced) == Direct && t.current.mode == Direct && t.current.endpoint == answer.defaultEndpoint
  {
    HandledKeepsConsistency(s, message, answer);
  }

  lemma RotationStep(s: Selector, answer: Answer)
    requires s.Consistent()
    ensures var t := Handled(s, Rotate, answer);
            && t.Consistent() && t.settings == s.settings && |t.announced| == |s.announced| + 1
            && s.index < |s.settings.Iter()| && t.index == Rotated(s.settings.Iter(), s.index)
  {
    HandledKeepsConsistency(s, Rotate, answer);
  }

  /** A run of rotations alone moves the position along `Visits`. */
  lemma {:induction false} RotationsVisit(s: Selector, answers: seq<Answer>)
    requires s.Consistent()
    ensures var ms := s.settings.Iter();
            var t := Run(s, seq(|answers|, k requires 0 <= k < |answers| => (Rotate, answers[k])));
            && t.settings == s.settings && t.Consistent()
            && t.index == (if answers == [] then s.index else Last(Visits(ms, s.index, |answers|)))
            && |t.announced| == |s.announced| + |answers|
  {
    var rotations := seq(|answers|, k requires 0 <= k < |answers| => (Rotate, answers[k]));
    if answers != [] {
      var fewer := Front(answers);
      RotationsVisit(s, fewer);
      assert Front(rotations) == seq(|fewer|, k requires 0 <= k < |fewer| => (Rotate, fewer[k]));
      RotationStep(Run(s, Front(rotations)), Last(answers));
      VisitsAppend(s.settings.Iter(), s.index, |fewer|);
    }
  }

  lemma {:induction false} VisitsAppend(ms: seq<Setting>, i: nat, k: nat)
    requires i < |ms|
    ensures |Visits(ms, i, k)| == k && |Visits(ms, i, k + 1)| == k + 1
    ensures forall j | 0 <= j < k :: Visits(ms, i, k)[j] < |ms|
    ensures Last(Visits(ms, i, k + 1)) == Rotated(ms, if k == 0 then i else Last(Visits(ms, i, k)))
    decreases k
  {
    FindNextActiveSpec(i + 1, ms);
    if k > 0 {
      VisitsAppend(ms, Rotated(ms, i), k - 1);
    }
  }

  /**
   Updating away the method in use is meant to keep the method that takes over its position a
   candidate. That holds exactly when the position was not 0, or method 0 is disabled, or it is the
   only enabled one: at position 0 the decremented index saturates and the search skips method 0.
   */
  lemma RemovalKeepsSuccessorACandidate(s: Selector, settings: Settings, answer: Answer)
    requires s.Consistent() && IndexOf(settings.Iter(), s.current.setting.id).None?
    ensures var ms := settings.Iter();
            UpdateAccessMethods(s, settings, answer).index == FindNextActive(s.index, ms) <==>
            s.index > 0 || !ms[0].enabled || forall i | 0 < i < |ms| :: !ms[i].enabled
  {
    var ms := settings.Iter();
    if s.index == 0 {
      assert Cycled(0, |ms|) == 0;
      FindNextActiveSpec(0, ms);
      FindNextActiveSpec(1, ms);
      if ms[0].enabled {
        assert FindCycled(ms, 0, |ms|) == Some(0);
        var k: nat :| FirstActive(ms, 1, k) && k < 1 + |ms| && FindNextActive(1, ms) == Cycled(k, |ms|);
        if i :| 0 < i < |ms| && ms[i].enabled {
          assert Cycled(i, |ms|) == i;
          assert k <= i;
          assert Cycled(k, |ms|) == k;
        }
      } else {
        ScanSkipsDisabledStart(ms);
      }
    }
  }

  lemma ScanSkipsDisabledStart(ms: seq<Setting>)
    requires |ms| > 0 && !ms[0].enabled
    ensures FindNextActive(0, ms) == FindNextActive(1, ms)
  {
    FindNextActiveSpec(0, ms);
    FindNextActiveSpec(1, ms);
    var n := |ms|;
    if AnyEnabled(ms) {
      var k: nat :| FirstActive(ms, 0, k) && k < n && FindNextActive(0, ms) == Cycled(k, n);
      var l: nat :| FirstActive(ms, 1, l) && l < 1 + n && FindNextActive(1, ms) == Cycled(l, n);
      assert Cycled(k, n) == k && ms[k].enabled && k != 0;
      assert l <= k;
      assert Cycled(l, n) == l;
    }
  }

  /** The skipping is reachable: a fresh selector uses Direct, and an update replaces every method by an enabled one. */
  lemma RemovalSkipsFirstMethod(answer: Answer)
    ensures var before := Settings(Setting(0, "Direct", true, BuiltInDirect), Setting(1, "Bridges", true, BuiltInBridge),
                                   Setting(2, "DNS", true, BuiltInEncryptedDns), []);
            var after := Settings(Setting(3, "Direct", true, BuiltInDirect), Setting(4, "Bridges", true, BuiltInBridge),
                                  Setting(5, "DNS", true, BuiltInEncryptedDns), []);
            var s := Spawned(before, answer);
            && s.index == 0 && FindNextActive(s.index, after.Iter()) == 0
            && UpdateAccessMethods(s, after, answer).index == 1
  {
    var before := Settings(Setting(0, "Direct", true, BuiltInDirect), Setting(1, "Bridges", true, BuiltInBridge),
                           Setting(2, "DNS", true, BuiltInEncryptedDns), []);
    var after := Settings(Setting(3, "Direct", true, BuiltInDirect), Setting(4, "Bridges", true, BuiltInBridge),
                          Setting(5, "DNS", true, BuiltInEncryptedDns), []);
    assert Cycled(0, 3) == 0 && Cycled(1, 3) == 1;
    assert FindCycled(before.Iter(), 0, 3) == Some(0) && FindCycled(after.Iter(), 0, 3) == Some(0);
    assert FindCycled(after.Iter(), 1, 3) == Some(1);
    assert IndexOf(after.Iter(), 0).None?;
  }

  /** The selector actor: the fields and handlers of the source, each tied to the functions above. */
  class AccessModeSelector {
    var accessMethodSettings: Settings
    var current: Resolved
    var index: nat
    var announced: seq<Mode>

    function Model(): Selector
      reads this
    {
      Selector(accessMethodSettings, current, index, announced)
    }

    constructor (settings: Settings, answer: Answer)
      ensures Model() == Spawned(settings, answer) && Model().Consistent()
    {
      FindNextActiveSpec(0, settings.Iter());
      var i := FindNextActive(0, settings.Iter());
      accessMethodSettings := settings;
      index := i;
      current := ResolveWithDefault(settings.Iter()[i], answer);
      announced := [];
    }

    method NotifyConnectionMode(resolved: Resolved)
      modifies this`announced
      ensures announced == old(announced) + [resolved.mode]
    {
      announced := announced + [resolved.mode];
    }

    method MakeCurrent(setting: Setting, answer: Answer)
      modifies this`announced, this`current
      ensures Model() == SetCurrent(old(Model()), setting, answer)
    {
      var resolved := ResolveWithDefault(setting, answer);
      NotifyConnectionMode(resolved);
      current := resolved;
    }

    method OnUse(id: nat, answer: Answer)
      modifies this
      ensures Model() == UseAccessMethod(old(Model()), id, answer)
      ensures old(Model().Consistent()) ==> Model().Consistent()
    {
      var found := IndexOf(accessMethodSettings.Iter(), id);
      if found.None? {
        return;
      }
      index := found.value;
      MakeCurrent(accessMethodSettings.Iter()[found.value], answer);
    }

    method OnRotate(answer: Answer) returns (mode: Mode)
      modifies this
      ensures Model() == NextConnectionMode(old(Model()), answer)
      ensures mode == current.mode
      ensures Model().Consistent()
      ensures current.setting.enabled <==> AnyEnabled(accessMethodSettings.Iter())
    {
      FindNextActiveSpec(index + 1, accessMethodSettings.Iter());
      index := FindNextActive(index + 1, accessMethodSettings.Iter());
      MakeCurrent(accessMethodSettings.Iter()[index], answer);
      mode := current.mode;
    }

    method OnUpdate(settings: Settings, answer: Answer)
      modifies this
      ensures Model() == UpdateAccessMethods(old(Model()), settings, answer)
      ensures Model().Consistent()
    {
      accessMethodSettings := settings;
      var found := IndexOf(settings.Iter(), current.setting.id);
      if found.Some? {
        index := found.value;
        var setting := settings.Iter()[index];
        if current.setting != setting {
          if setting.enabled {
            MakeCurrent(setting, answer);
          } else {
            var _ := OnRotate(answer);
          }
        }
      } else {
        index := SaturatingPredecessor(index);
        var _ := OnRotate(answer);
      }
    }

    /** The body of the command loop. */
    method Handle(message: Message, answer: Answer)
      requires Model().Consistent()
      modifies this
      ensures Model() == Handled(old(Model()), message, answer)
      ensures Model().Consistent()
      ensures announced == old(announced) ==> current == old(current)
    {
      HandledKeepsConsistency(Model(), message, answer);
      match message
      case Get =>
      case Use(id) => OnUse(id, answer);
      case Rotate => var _ := OnRotate(answer);
      case Update(settings) => OnUpdate(settings, answer);
      case Resolve(_) =>
    }
  }
}
