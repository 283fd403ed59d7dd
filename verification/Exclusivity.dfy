/**
 Mutually exclusive operations: the manager chains each new operation behind the last one listed
 in each of its categories.

 Operations are named by the order in which they were registered. An operation starts once its
 dependencies have finished; it leaves the lists some time after it finished. `Flush` is a
 cancelled operation that finishes without executing: Foundation may find a cancelled operation
 ready before its dependencies are, so the model lets that happen at any time.
 */
module Exclusivity {
  import opened Common

  datatype Status = Waiting | Executing | Finished

  datatype Manager = Manager(lists: map<string, seq<nat>>, categories: seq<set<string>>, deps: seq<set<nat>>,
                             status: seq<Status>)

  datatype Event =
    | Add(categories: set<string>)
    | Start(op: nat)
    | Finish(op: nat)
    | Flush(op: nat)
    | Remove(op: nat)

  function ListOf(lists: map<string, seq<nat>>, category: string): seq<nat> {
    if category in lists then lists[category] else []
  }

  /** The lists after appending an operation to each of the given categories. */
  function Appended(lists: map<string, seq<nat>>, op: nat, categories: set<string>): map<string, seq<nat>> {
    lists + map c | c in categories :: ListOf(lists, c) + [op]
  }

  /** The operations a new one has to wait for: the last listed one of each category. */
  function LastOnes(lists: map<string, seq<nat>>, categories: set<string>): set<nat> {
    set c | c in categories && ListOf(lists, c) != [] :: Last(ListOf(lists, c))
  }

  /** A list without the first occurrence of an operation. */
  function Without(list: seq<nat>, op: nat): seq<nat> {
    if list == [] then []
    else if list[0] == op then list[1..]
    else [list[0]] + Without(list[1..], op)
  }

  /** The lists after removing an operation from the given categories; an empty list goes away. */
  function Removed(lists: map<string, seq<nat>>, op: nat, categories: set<string>): map<string, seq<nat>> {
    map c | c in lists && (c in categories ==> Without(lists[c], op) != []) ::
      if c in categories then Without(lists[c], op) else lists[c]
  }

  predicate Shaped(m: Manager) {
    && |m.categories| == |m.deps| == |m.status|
    && (forall i | 0 <= i < |m.deps| :: forall d | d in m.deps[i] :: d < i)
  }

  predicate DepsFinished(m: Manager, op: nat)
    requires Shaped(m) && op < |m.status|
  {
    forall d | d in m.deps[op] :: m.status[d] == Finished
  }

  predicate Enabled(m: Manager, e: Event)
    requires Shaped(m)
  {
    match e
    case Add(_) => true
    case Start(op) => op < |m.status| && m.status[op] == Waiting && DepsFinished(m, op)
    case Finish(op) => op < |m.status| && m.status[op] == Executing
    case Flush(op) => op < |m.status| && m.status[op] == Waiting
    case Remove(op) => op < |m.status| && m.status[op] == Finished
  }

  /** One step; an event that cannot happen in `m` changes nothing. */
  function Next(m: Manager, e: Event): (t: Manager)
    requires Shaped(m)
  {
    if !Enabled(m, e) then m
    else match e
      case Add(categories) =>
        Manager(Appended(m.lists, |m.status|, categories), m.categories + [categories],
                m.deps + [LastOnes(m.lists, categories)], m.status + [Waiting])
      case Start(op) => m.(status := m.status[op := Executing])
      case Finish(op) => m.(status := m.status[op := Finished])
      case Flush(op) => m.(status := m.status[op := Finished])
      case Remove(op) => m.(lists := Removed(m.lists, op, m.categories[op]))
  }

  // ----- shape

  /** A category's list is ascending and holds only its operations. */
  ghost predicate ListSound(m: Manager, c: string)
    requires |m.categories| == |m.status|
  {
    var list := ListOf(m.lists, c);
    Ascending(list) && forall k | 0 <= k < |list| :: list[k] < |m.status| && c in m.categories[list[k]]
  }

  /** It holds all the unfinished ones. */
  ghost predicate ListComplete(m: Manager, c: string)
    requires |m.categories| == |m.status|
  {
    forall i | 0 <= i < |m.status| && m.status[i] != Finished && c in m.categories[i] :: i in ListOf(m.lists, c)
  }

  ghost predicate ListValid(m: Manager, c: string)
    requires |m.categories| == |m.status|
  {
    ListSound(m, c) && ListComplete(m, c)
  }

  /** Every run keeps: dependencies point to earlier registrations, executing operations have none left, lists are valid. */
  ghost predicate WellFormed(m: Manager) {
    && Shaped(m)
    && (forall i | 0 <= i < |m.status| && m.status[i] == Executing :: DepsFinished(m, i))
    && forall c :: ListValid(m, c)
  }

  /** The manager before any registration. */
  ghost function Empty(): (m: Manager)
    ensures WellFormed(m) && Ordered(m)
  {
    Manager(map[], [], [], [])
  }

  lemma {:induction false} WithoutKeeps(list: seq<nat>, op: nat)
    ensures forall x | x in list && x != op :: x in Without(list, op)
    ensures forall x | x in Without(list, op) :: x in list
    ensures list != [] && Last(list) != op ==> Without(list, op) != [] && Last(Without(list, op)) == Last(list)
  {
    if list != [] && list[0] != op {
      WithoutKeeps(list[1..], op);
    }
    assert list != [] ==> list == [list[0]] + list[1..];
  }

  predicate Ascending(list: seq<nat>) {
    forall k, l | 0 <= k < l < |list| :: list[k] < list[l]
  }

  lemma HeadIsLeast(list: seq<nat>)
    requires Ascending(list) && list != []
    ensures Ascending(list[1..]) && forall x | x in list[1..] :: list[0] < x
  {
    assert forall k | 0 <= k < |list[1..]| :: list[1..][k] == list[k + 1];
  }

  lemma {:induction false} WithoutAscending(list: seq<nat>, op: nat)
    requires Ascending(list)
    ensures Ascending(Without(list, op)) && op !in Without(list, op)
  {
    if list != [] {
      HeadIsLeast(list);
      if list[0] != op {
        WithoutAscending(list[1..], op);
        WithoutKeeps(list[1..], op);
        PrependAscending(list[0], Without(list[1..], op));
      }
    }
  }

  lemma PrependAscending(x: nat, list: seq<nat>)
    requires Ascending(list) && forall y | y in list :: x < y
    ensures Ascending([x] + list)
  {
    assert forall k | 0 <= k < |list| :: list[k] in list;
  }

  lemma SnocAscending(list: seq<nat>, x: nat)
    requires Ascending(list) && forall k | 0 <= k < |list| :: list[k] < x
    ensures Ascending(list + [x]) && x in list + [x]
  {
    assert Last(list + [x]) == x;
  }

  lemma AppendedList(lists: map<string, seq<nat>>, op: nat, categories: set<string>, c: string)
    ensures ListOf(Appended(lists, op, categories), c) == if c in categories then ListOf(lists, c) + [op] else ListOf(lists, c)
  {
  }

  function Registered(m: Manager, categories: set<string>): Manager {
    m.(lists := Appended(m.lists, |m.status|, categories), categories := m.categories + [categories],
       status := m.status + [Waiting])
  }

  lemma AddKeepsMember(m: Manager, categories: set<string>, c: string, k: nat)
    requires |m.categories| == |m.status| && ListSound(m, c) && k < |ListOf(Registered(m, categories).lists, c)|
    ensures var t := Registered(m, categories);
            var x := ListOf(t.lists, c)[k];
            x < |t.status| && c in t.categories[x]
  {
    AppendedList(m.lists, |m.status|, categories, c);
    var before := ListOf(m.lists, c);
    if k < |before| {
      assert before[k] < |m.status| && c in m.categories[before[k]];
    }
  }

  lemma AddKeepsSound(m: Manager, categories: set<string>, c: string)
    requires |m.categories| == |m.status| && ListSound(m, c)
    ensures ListSound(Registered(m, categories), c)
  {
    var t := Registered(m, categories);
    forall k: nat | k < |ListOf(t.lists, c)|
      ensures ListOf(t.lists, c)[k] < |t.status| && c in t.categories[ListOf(t.lists, c)[k]]
    {
      AddKeepsMember(m, categories, c, k);
    }
    assert Ascending(ListOf(t.lists, c)) by {
      AppendedList(m.lists, |m.status|, categories, c);
      SnocAscending(ListOf(m.lists, c), |m.status|);
    }
  }

  lemma AddKeepsComplete(m: Manager, categories: set<string>, c: string)
    requires |m.categories| == |m.status| && ListComplete(m, c)
    ensures ListComplete(Registered(m, categories), c)
  {
    var t := Registered(m, categories);
    var before, after := ListOf(m.lists, c), ListOf(t.lists, c);
    AppendedList(m.lists, |m.status|, categories, c);
    forall i | 0 <= i < |t.status| && t.status[i] != Finished && c in t.categories[i]
      ensures i in after
    {
      if i < |m.status| {
        assert i in before;
      } else {
        assert after[|before|] == i;
      }
    }
  }

  lemma AddKeepsShape(m: Manager, categories: set<string>)
    requires WellFormed(m)
    ensures Shaped(Next(m, Add(categories)))
  {
    forall d | d in LastOnes(m.lists, categories)
      ensures d < |m.status|
    {
      var c :| c in categories && ListOf(m.lists, c) != [] && Last(ListOf(m.lists, c)) == d;
      assert ListValid(m, c);
    }
  }

  lemma AddKeepsWellFormed(m: Manager, categories: set<string>)
    requires WellFormed(m)
    ensures WellFormed(Next(m, Add(categories)))
  {
    var t := Next(m, Add(categories));
    AddKeepsShape(m, categories);
    forall i | 0 <= i < |t.status| && t.status[i] == Executing
      ensures DepsFinished(t, i)
    {
      assert DepsFinished(m, i);
    }
    forall c
      ensures ListValid(t, c)
    {
      assert ListValid(m, c);
      AddKeepsSound(m, categories, c);
      AddKeepsComplete(m, categories, c);
    }
  }

  lemma RemoveKeepsList(m: Manager, op: nat, c: string)
    requires |m.categories| == |m.status| && op < |m.status| && m.status[op] == Finished && ListValid(m, c)
    ensures ListValid(m.(lists := Removed(m.lists, op, m.categories[op])), c)
  {
    var before, after := ListOf(m.lists, c), ListOf(Removed(m.lists, op, m.categories[op]), c);
    RemovedList(m.lists, op, m.categories[op], c);
    WithoutAscending(before, op);
    WithoutKeeps(before, op);
    forall k | 0 <= k < |after|
      ensures after[k] < |m.status| && c in m.categories[after[k]]
    {
      assert after[k] in before;
    }
  }

  lemma RemoveKeepsWellFormed(m: Manager, op: nat)
    requires WellFormed(m) && Enabled(m, Remove(op))
    ensures WellFormed(Next(m, Remove(op)))
  {
    var t := Next(m, Remove(op));
    assert forall i | 0 <= i < |m.status| :: DepsFinished(t, i) <==> DepsFinished(m, i);
    forall c
      ensures ListValid(t, c)
    {
      assert ListValid(m, c);
      RemoveKeepsList(m, op, c);
    }
  }

  lemma RemovedList(lists: map<string, seq<nat>>, op: nat, categories: set<string>, c: string)
    ensures ListOf(Removed(lists, op, categories), c) ==
            if c in categories then Without(ListOf(lists, c), op) else ListOf(lists, c)
  {
  }

  lemma StatusKeepsWellFormed(m: Manager, op: nat, status: Status)
    requires WellFormed(m) && op < |m.status| && m.status[op] != Finished
    requires status == Finished || (status == Executing && DepsFinished(m, op))
    ensures WellFormed(m.(status := m.status[op := status]))
  {
    var t := m.(status := m.status[op := status]);
    forall i | 0 <= i < |t.status| && t.status[i] == Executing
      ensures DepsFinished(t, i)
    {
      assert DepsFinished(m, i);
    }
    forall c
      ensures ListValid(t, c)
    {
      assert ListValid(m, c);
    }
  }

  lemma NextKeepsWellFormed(m: Manager, e: Event)
    requires WellFormed(m)
    ensures WellFormed(Next(m, e))
  {
    if Enabled(m, e) {
      match e
      case Add(categories) => AddKeepsWellFormed(m, categories);
      case Start(op) => StatusKeepsWellFormed(m, op, Executing);
      case Finish(op) => StatusKeepsWellFormed(m, op, Finished);
      case Flush(op) => StatusKeepsWellFormed(m, op, Finished);
      case Remove(op) => RemoveKeepsWellFormed(m, op);
    }
  }

  /** A run, from any well-formed manager. */
  ghost function Run(m: Manager, events: seq<Event>): (t: Manager)
    requires WellFormed(m)
    ensures WellFormed(t)
  {
    if events == [] then m
    else
      var s := Run(m, Front(events));
      NextKeepsWellFormed(s, Last(events));
      Next(s, Last(events))
  }

  lemma {:induction false} RunAppend(m: Manager, a: seq<Event>, b: seq<Event>)
    requires WellFormed(m)
    ensures Run(m, a + b) == Run(Run(m, a), b)
  {
    if b == [] {
      assert a + b == a;
    } else {
      RunAppend(m, a, Front(b));
      assert Front(a + b) == a + Front(b);
    }
  }

  /** Dependencies point to earlier registrations, so some unfinished operation has none left unfinished. */
  lemma {:induction false} FreeOperation(m: Manager, op: nat) returns (free: nat)
    requires Shaped(m) && op < |m.status| && m.status[op] != Finished
    ensures free < |m.status| && m.status[free] != Finished && DepsFinished(m, free)
    decreases op
  {
    if d :| d in m.deps[op] && m.status[d] != Finished {
      free := FreeOperation(m, d);
    } else {
      free := op;
    }
  }

  // ----- what is listed

  function NewlyGone(m: Manager, e: Event): set<nat> {
    if e.Remove? && e.op < |m.status| && m.status[e.op] == Finished then {e.op} else {}
  }

  /** The operations removed in a run. */
  ghost function Gone(events: seq<Event>): set<nat> {
    if events == [] then {} else Gone(Front(events)) + NewlyGone(Run(Empty(), Front(events)), Last(events))
  }

  predicate ListedAs(m: Manager, gone: set<nat>, c: string, op: nat)
    requires Shaped(m)
  {
    op in ListOf(m.lists, c) <==> op < |m.status| && c in m.categories[op] && op !in gone
  }

  /** Each category's list holds its operations that are not gone, and there is no empty list. */
  ghost predicate Listed(m: Manager, gone: set<nat>)
    requires Shaped(m)
  {
    && (forall c: string, op: nat :: ListedAs(m, gone, c, op))
    && (forall c | c in m.lists :: m.lists[c] != [])
    && (forall op | op in gone :: op < |m.status|)
  }

  lemma AddKeepsListed(m: Manager, gone: set<nat>, categories: set<string>)
    requires WellFormed(m) && Listed(m, gone)
    ensures Shaped(Next(m, Add(categories))) && Listed(Next(m, Add(categories)), gone)
  {
    var t := Next(m, Add(categories));
    AddKeepsShape(m, categories);
    forall c: string, op: nat
      ensures ListedAs(t, gone, c, op)
    {
      assert ListedAs(m, gone, c, op);
      AppendedList(m.lists, |m.status|, categories, c);
      assert op in ListOf(m.lists, c) + [|m.status|] <==> op in ListOf(m.lists, c) || op == |m.status|;
    }
  }

  lemma RemoveKeepsListed(m: Manager, gone: set<nat>, op: nat)
    requires WellFormed(m) && Listed(m, gone) && Enabled(m, Remove(op))
    ensures Listed(Next(m, Remove(op)), gone + {op})
  {
    var t := Next(m, Remove(op));
    forall c: string, x: nat
      ensures ListedAs(t, gone + {op}, c, x)
    {
      assert ListedAs(m, gone, c, x) && ListValid(m, c);
      RemovedList(m.lists, op, m.categories[op], c);
      WithoutAscending(ListOf(m.lists, c), op);
      WithoutKeeps(ListOf(m.lists, c), op);
    }
  }

  lemma StatusKeepsListed(m: Manager, gone: set<nat>, e: Event)
    requires WellFormed(m) && Listed(m, gone) && (e.Start? || e.Finish? || e.Flush?)
    ensures Shaped(Next(m, e)) && Listed(Next(m, e), gone)
  {
    forall c: string, op: nat
      ensures ListedAs(Next(m, e), gone, c, op)
    {
      assert ListedAs(m, gone, c, op);
    }
  }

  lemma NextKeepsListed(m: Manager, gone: set<nat>, e: Event)
    requires WellFormed(m) && Listed(m, gone)
    ensures Shaped(Next(m, e)) && Listed(Next(m, e), gone + NewlyGone(m, e))
  {
    assert gone + {} == gone;
    match e
    case Add(categories) => AddKeepsListed(m, gone, categories);
    case Remove(op) =>
      if Enabled(m, e) {
        RemoveKeepsListed(m, gone, op);
      }
    case _ => StatusKeepsListed(m, gone, e);
  }

  /**
   In every run each category's list holds exactly the operations registered under it that were not
   removed after finishing, in the order of registration, and a list that becomes empty goes away.
   */
  lemma {:induction false} ListsHoldRegistered(events: seq<Event>, c: string)
    ensures Listed(Run(Empty(), events), Gone(events)) && Ascending(ListOf(Run(Empty(), events).lists, c))
  {
    if events != [] {
      ListsHoldRegistered(Front(events), c);
      NextKeepsListed(Run(Empty(), Front(events)), Gone(Front(events)), Last(events));
    }
    assert ListValid(Run(Empty(), events), c);
    assert events == [] ==> forall x: string, op: nat :: ListedAs(Empty(), {}, x, op);
  }

  // ----- waiting order

  /** `y` is `x`, or has to wait for it: a path of dependencies over unfinished operations leads there. */
  predicate Reach(m: Manager, y: nat, x: nat)
    requires Shaped(m) && y < |m.status|
    decreases y
  {
    y == x || exists d | d in m.deps[y] :: m.status[d] != Finished && Reach(m, d, x)
  }

  lemma {:induction false} ReachDown(m: Manager, y: nat, x: nat)
    requires Shaped(m) && y < |m.status| && Reach(m, y, x)
    ensures x <= y
    decreases y
  {
    if y != x {
      var d :| d in m.deps[y] && m.status[d] != Finished && Reach(m, d, x);
      ReachDown(m, d, x);
    }
  }

  /** What is unfinished in `t` was unfinished in `m`. */
  predicate Later(m: Manager, t: Manager) {
    && Shaped(m) && Shaped(t) && |t.status| >= |m.status|
    && (forall i | 0 <= i < |m.status| :: t.deps[i] == m.deps[i] && t.categories[i] == m.categories[i])
    && (forall i | 0 <= i < |m.status| && m.status[i] == Finished :: t.status[i] == Finished)
  }

  lemma {:induction false} ReachEarlier(m: Manager, t: Manager, y: nat, x: nat)
    requires Later(m, t) && y < |m.status| && Reach(t, y, x)
    ensures Reach(m, y, x)
    decreases y
  {
    if y != x {
      var d :| d in t.deps[y] && t.status[d] != Finished && Reach(t, d, x);
      ReachEarlier(m, t, d, x);
    }
  }

  /** Paths survive when the only operation that finished, `f`, had nothing left to wait for. */
  lemma {:induction false} ReachStays(m: Manager, t: Manager, f: nat, y: nat, x: nat)
    requires Later(m, t) && y < |m.status| && f < |m.status| && DepsFinished(m, f)
    requires forall i | 0 <= i < |m.status| && i != f && m.status[i] != Finished :: t.status[i] != Finished
    requires x != f && Reach(m, y, x)
    ensures Reach(t, y, x) && y != f
    decreases y
  {
    if y != x {
      var d :| d in m.deps[y] && m.status[d] != Finished && Reach(m, d, x);
      ReachStays(m, t, f, d, x);
    }
  }

  predicate Share(m: Manager, x: nat, y: nat, c: string)
    requires Shaped(m)
  {
    && x < y < |m.status| && m.status[x] != Finished && m.status[y] != Finished
    && c in m.categories[x] && c in m.categories[y]
  }

  /** New operations of the category would wait for the unfinished operation `x`. */
  predicate Covered(m: Manager, c: string, x: nat)
    requires Shaped(m)
  {
    var list := ListOf(m.lists, c);
    list != [] && Last(list) < |m.status| && m.status[Last(list)] != Finished && Reach(m, Last(list), x)
  }

  /** Unfinished operations of one category wait for each other in turn, and so will new ones. */
  ghost predicate Ordered(m: Manager)
    requires Shaped(m)
  {
    && (forall c: string, x: nat, y: nat | Share(m, x, y, c) :: Reach(m, y, x))
    && (forall c: string, x: nat | 0 <= x < |m.status| && m.status[x] != Finished && c in m.categories[x] :: Covered(m, c, x))
  }

  /** No two executing operations share a category. */
  ghost predicate Exclusive(m: Manager)
    requires Shaped(m)
  {
    forall c: string, x: nat, y: nat | Share(m, x, y, c) :: !(m.status[x] == Executing && m.status[y] == Executing)
  }

  /** In an ordered state an executing operation has seen every earlier one of its categories finish. */
  lemma OrderedIsExclusive(m: Manager)
    requires WellFormed(m) && Ordered(m)
    ensures Exclusive(m)
    ensures forall c: string, x: nat, y: nat | 0 <= x < y < |m.status| && m.status[y] == Executing &&
                                         c in m.categories[x] && c in m.categories[y] ::
              m.status[x] == Finished
  {
    SharingWaits(m);
    forall c: string, x: nat, y: nat | 0 <= x < y < |m.status| && m.status[y] == Executing &&
                                         c in m.categories[x] && c in m.categories[y]
      ensures m.status[x] == Finished
    {
      assert Share(m, x, y, c) <==> m.status[x] != Finished;
    }
  }

  lemma SharingWaits(m: Manager)
    requires Shaped(m) && Ordered(m)
    ensures forall c: string, x: nat, y: nat | Share(m, x, y, c) :: !DepsFinished(m, y)
  {
    forall c: string, x: nat, y: nat | Share(m, x, y, c)
      ensures !DepsFinished(m, y)
    {
      assert Reach(m, y, x);
    }
  }

  // ----- the order is kept

  lemma AddKeepsOrder(m: Manager, categories: set<string>)
    requires WellFormed(m) && Ordered(m)
    ensures WellFormed(Next(m, Add(categories))) && Ordered(Next(m, Add(categories)))
  {
    var t := Next(m, Add(categories));
    AddKeepsWellFormed(m, categories);
    forall c: string, x: nat | 0 <= x < |m.status| && m.status[x] != Finished && c in m.categories[x]
      ensures c in categories ==> Reach(t, |m.status|, x)
      ensures c !in categories ==> Covered(t, c, x)
    {
      assert Covered(m, c, x);
      var last := Last(ListOf(m.lists, c));
      ReachLater(m, t, last, x);
      if c in categories {
        assert last in t.deps[|m.status|];
      } else {
        assert ListOf(t.lists, c) == ListOf(m.lists, c);
      }
    }
    forall c: string, x: nat | 0 <= x < |t.status| && t.status[x] != Finished && c in t.categories[x]
      ensures Covered(t, c, x)
    {
      if c in categories {
        assert Last(ListOf(t.lists, c)) == |m.status|;
      }
    }
    forall c: string, x: nat, y: nat | Share(t, x, y, c)
      ensures Reach(t, y, x)
    {
      if y < |m.status| {
        assert Share(m, x, y, c);
        ReachLater(m, t, y, x);
      }
    }
  }

  /** Registering more operations does not change who waits for whom. */
  lemma {:induction false} ReachLater(m: Manager, t: Manager, y: nat, x: nat)
    requires Later(m, t) && y < |m.status| && Reach(m, y, x)
    requires forall i | 0 <= i < |m.status| :: m.status[i] != Finished ==> t.status[i] != Finished
    ensures Reach(t, y, x)
    decreases y
  {
    if y != x {
      var d :| d in m.deps[y] && m.status[d] != Finished && Reach(m, d, x);
      ReachLater(m, t, d, x);
    }
  }

  lemma FinishKeepsOrder(m: Manager, f: nat)
    requires WellFormed(m) && Ordered(m) && f < |m.status| && DepsFinished(m, f)
    ensures Ordered(m.(status := m.status[f := Finished]))
  {
    var t := m.(status := m.status[f := Finished]);
    forall c: string, x: nat, y: nat | Share(t, x, y, c)
      ensures Reach(t, y, x)
    {
      assert Share(m, x, y, c);
      ReachStays(m, t, f, y, x);
    }
    forall c: string, x: nat | 0 <= x < |t.status| && t.status[x] != Finished && c in t.categories[x]
      ensures Covered(t, c, x)
    {
      assert Covered(m, c, x);
      ReachStays(m, t, f, Last(ListOf(m.lists, c)), x);
    }
  }

  lemma StartKeepsOrder(m: Manager, op: nat)
    requires WellFormed(m) && Ordered(m) && Enabled(m, Start(op))
    ensures Ordered(Next(m, Start(op)))
  {
    var t := Next(m, Start(op));
    forall c: string, x: nat, y: nat | Share(t, x, y, c)
      ensures Reach(t, y, x)
    {
      assert Share(m, x, y, c);
      ReachLater(m, t, y, x);
    }
    forall c: string, x: nat | 0 <= x < |t.status| && t.status[x] != Finished && c in t.categories[x]
      ensures Covered(t, c, x)
    {
      assert Covered(m, c, x);
      ReachLater(m, t, Last(ListOf(m.lists, c)), x);
    }
  }

  lemma WithoutKeepsLast(list: seq<nat>, op: nat)
    requires list != [] && Last(list) != op
    ensures Without(list, op) != [] && Last(Without(list, op)) == Last(list)
  {
    WithoutKeeps(list, op);
  }

  lemma RemoveKeepsCovered(m: Manager, op: nat, c: string, x: nat)
    requires Shaped(m) && x < |m.status| && m.status[x] != Finished && Covered(m, c, x) && Enabled(m, Remove(op))
    ensures Covered(Next(m, Remove(op)), c, x)
  {
    RemovedList(m.lists, op, m.categories[op], c);
    WithoutKeepsLast(ListOf(m.lists, c), op);
    ReachLater(m, Next(m, Remove(op)), Last(ListOf(m.lists, c)), x);
  }

  lemma RemoveKeepsOrder(m: Manager, op: nat)
    requires WellFormed(m) && Ordered(m) && Enabled(m, Remove(op))
    ensures Ordered(Next(m, Remove(op)))
  {
    var t := Next(m, Remove(op));
    forall c: string, x: nat, y: nat | Share(t, x, y, c)
      ensures Reach(t, y, x)
    {
      assert Share(m, x, y, c);
      ReachLater(m, t, y, x);
    }
    forall c: string, x: nat | 0 <= x < |t.status| && t.status[x] != Finished && c in t.categories[x]
      ensures Covered(t, c, x)
    {
      assert Covered(m, c, x);
      RemoveKeepsCovered(m, op, c, x);
    }
  }

  /** A cancelled operation is flushed only once its dependencies have finished. */
  predicate InTurn(m: Manager, e: Event)
    requires Shaped(m)
  {
    e.Flush? && e.op < |m.status| ==> DepsFinished(m, e.op)
  }

  lemma NextKeepsOrder(m: Manager, e: Event)
    requires WellFormed(m) && Ordered(m) && InTurn(m, e)
    ensures WellFormed(Next(m, e)) && Ordered(Next(m, e))
  {
    NextKeepsWellFormed(m, e);
    if Enabled(m, e) {
      match e
      case Add(categories) => AddKeepsOrder(m, categories);
      case Start(op) => StartKeepsOrder(m, op);
      case Finish(op) => FinishKeepsOrder(m, op);
      case Flush(op) => FinishKeepsOrder(m, op);
      case Remove(op) => RemoveKeepsOrder(m, op);
    }
  }

  /** Every flush in a run is in turn. */
  ghost predicate RunInTurn(m: Manager, events: seq<Event>)
    requires WellFormed(m)
  {
    forall k | 0 <= k < |events| :: InTurn(Run(m, events[..k]), events[k])
  }

  lemma {:induction false} RunKeepsOrder(m: Manager, events: seq<Event>)
    requires WellFormed(m) && Ordered(m) && RunInTurn(m, events)
    ensures Ordered(Run(m, events))
  {
    if events != [] {
      var before := Front(events);
      assert forall k | 0 <= k < |before| :: before[..k] == events[..k] && before[k] == events[k];
      RunKeepsOrder(m, before);
      assert events[..|events| - 1] == before;
      NextKeepsOrder(Run(m, before), Last(events));
    }
  }

  /**
   Mutual exclusion: in every run in which no cancelled operation overtakes its dependencies, two
   operations sharing a category never execute at once, and an operation executes only when every
   earlier one of its categories has finished, whatever was removed from the lists.
   */
  lemma {:induction false} MutualExclusion(events: seq<Event>)
    requires RunInTurn(Empty(), events)
    ensures var m := Run(Empty(), events);
            && Exclusive(m)
            && (forall c: string, x: nat, y: nat | 0 <= x < y < |m.status| && m.status[y] == Executing &&
                                 c in m.categories[x] && c in m.categories[y] :: m.status[x] == Finished)
  {
    RunKeepsOrder(Empty(), events);
    OrderedIsExclusive(Run(Empty(), events));
  }

  // ----- without the order exclusion can fail

  function Unfinished(m: Manager): set<nat> {
    set i | 0 <= i < |m.status| && m.status[i] != Finished
  }

  /** Runs `op`, whose dependencies have finished, to completion. */
  lemma Complete(m: Manager, op: nat) returns (events: seq<Event>)
    requires WellFormed(m) && op < |m.status| && m.status[op] != Finished && DepsFinished(m, op)
    ensures Run(m, events) == m.(status := m.status[op := Finished]) && RunInTurn(m, events)
  {
    if m.status[op] == Waiting {
      events := [Start(op), Finish(op)];
      assert Front(events) == [Start(op)] && Front(Front(events)) == [];
      assert Run(m, Front(events)) == m.(status := m.status[op := Executing]);
    } else {
      events := [Finish(op)];
      assert Front(events) == [];
    }
  }

  lemma InTurnAt(m: Manager, a: seq<Event>, b: seq<Event>, k: nat)
    requires WellFormed(m) && RunInTurn(m, a) && RunInTurn(Run(m, a), b) && k < |a + b|
    ensures InTurn(Run(m, (a + b)[..k]), (a + b)[k])
  {
    if k < |a| {
      assert (a + b)[..k] == a[..k];
    } else {
      RunAppend(m, a, b[..k - |a|]);
      assert (a + b)[..k] == a + b[..k - |a|];
    }
  }

  lemma InTurnAppend(m: Manager, a: seq<Event>, b: seq<Event>)
    requires WellFormed(m) && RunInTurn(m, a) && RunInTurn(Run(m, a), b)
    ensures RunInTurn(m, a + b) && Run(m, a + b) == Run(Run(m, a), b)
  {
    RunAppend(m, a, b);
    forall k | 0 <= k < |a + b|
      ensures InTurn(Run(m, (a + b)[..k]), (a + b)[k])
    {
      InTurnAt(m, a, b, k);
    }
  }

  /** In `t` everything `op` waited for in `m` has finished, and nothing else has changed. */
  ghost predicate Unblocked(m: Manager, op: nat, t: Manager)
    requires Shaped(m) && op < |m.status|
  {
    && Later(m, t) && t.lists == m.lists && |t.status| == |m.status|
    && DepsFinished(t, op) && Unfinished(t) <= Unfinished(m)
    && (forall w | 0 <= w < |m.status| && (w == op || !Reach(m, op, w)) :: t.status[w] == m.status[w])
  }

  lemma UntouchedThrough(m: Manager, op: nat, d: nat, m2: Manager, w: nat)
    requires Later(m, m2) && op < |m.status| && d in m.deps[op] && m.status[d] != Finished
    requires w < |m.status| && (w == op || !Reach(m, op, w))
    ensures w != d && !Reach(m, d, w) && (w == op || !Reach(m2, op, w))
  {
    assert Reach(m, d, d);
    if Reach(m, d, w) {
      ReachDown(m, d, w);
      assert false;
    }
    if w != op && Reach(m2, op, w) {
      ReachEarlier(m, m2, op, w);
      assert false;
    }
  }

  lemma LaterThrough(m: Manager, d: nat, m1: Manager, t: Manager)
    requires Shaped(m) && d < |m.status| && Later(m, m1) && |m.status| == |m1.status|
    requires Later(m1.(status := m1.status[d := Finished]), t)
    ensures Later(m, m1.(status := m1.status[d := Finished])) && Later(m, t)
  {
  }

  /** Unblocking and completing one dependency, and then the rest. */
  lemma UnblockedThrough(m: Manager, op: nat, d: nat, m1: Manager, t: Manager)
    requires Shaped(m) && op < |m.status| && d in m.deps[op] && m.status[d] != Finished && Unblocked(m, d, m1)
    requires Unblocked(m1.(status := m1.status[d := Finished]), op, t)
    ensures Unblocked(m, op, t)
  {
    var m2 := m1.(status := m1.status[d := Finished]);
    LaterThrough(m, d, m1, t);
    assert Unfinished(m2) <= Unfinished(m1);
    forall w: nat | w < |m.status| && (w == op || !Reach(m, op, w))
      ensures t.status[w] == m.status[w]
    {
      UntouchedThrough(m, op, d, m2, w);
      assert m2.status[w] == m1.status[w] == m.status[w];
    }
  }

  /** Everything `op` waits for can be completed, touching nothing else. */
  lemma {:induction false} Unblock(m: Manager, op: nat) returns (events: seq<Event>)
    requires WellFormed(m) && op < |m.status|
    ensures RunInTurn(m, events) && Unblocked(m, op, Run(m, events))
    decreases |Unfinished(m)|, op
  {
    if d :| d in m.deps[op] && m.status[d] != Finished {
      var e1 := Unblock(m, d);
      var m1 := Run(m, e1);
      assert m1.status[d] == m.status[d];
      var e2 := Complete(m1, d);
      var m2 := Run(m1, e2);
      assert d in Unfinished(m) && d !in Unfinished(m2);
      assert Unfinished(m2) < Unfinished(m);
      SmallerSet(Unfinished(m2), Unfinished(m));
      var e3 := Unblock(m2, op);
      InTurnAppend(m1, e2, e3);
      InTurnAppend(m, e1, e2 + e3);
      events := e1 + (e2 + e3);
      UnblockedThrough(m, op, d, m1, Run(m2, e3));
    } else {
      events := [];
    }
  }

  lemma SmallerSet(a: set<nat>, b: set<nat>)
    requires a < b
    ensures |a| < |b|
  {
    assert |b| == |a| + |b - a| by {
      assert b == a + (b - a);
    }
    assert b - a != {};
  }

  lemma {:induction false} FinishAll(m: Manager) returns (events: seq<Event>)
    requires WellFormed(m)
    ensures RunInTurn(m, events) && |Run(m, events).status| == |m.status| && Unfinished(Run(m, events)) == {}
    decreases |Unfinished(m)|
  {
    if op: nat :| op < |m.status| && m.status[op] != Finished {
      var free := FreeOperation(m, op);
      var first := Complete(m, free);
      var t := Run(m, first);
      assert free in Unfinished(m) && free !in Unfinished(t);
      SmallerSet(Unfinished(t), Unfinished(m));
      var rest := FinishAll(t);
      InTurnAppend(m, first, rest);
      events := first + rest;
    } else {
      events := [];
    }
  }

  /**
   Exclusivity never deadlocks: in every state of every run with unfinished operations one of them
   has all its exclusivity dependencies finished, and all of them can be run to completion in turn,
   however many categories they share and whatever was cancelled before.
   */
  lemma {:induction false} NoDeadlock(events: seq<Event>) returns (free: nat, more: seq<Event>)
    ensures var m := Run(Empty(), events);
            && (Unfinished(m) != {} ==> free in Unfinished(m) && DepsFinished(m, free))
            && RunInTurn(m, more) && Unfinished(Run(Empty(), events + more)) == {}
            && |Run(Empty(), events + more).status| == |m.status|
  {
    var m := Run(Empty(), events);
    free := 0;
    if op: nat :| op < |m.status| && m.status[op] != Finished {
      free := FreeOperation(m, op);
    }
    more := FinishAll(m);
    RunAppend(Empty(), events, more);
  }

  /** Two unfinished operations of a category that do not wait for each other can be made to execute together. */
  lemma Collide(m: Manager, x: nat, y: nat, c: string) returns (events: seq<Event>)
    requires WellFormed(m) && Share(m, x, y, c) && !Reach(m, y, x)
    ensures RunInTurn(m, events) && !Exclusive(Run(m, events))
  {
    var e1 := Unblock(m, y);
    var m1 := Run(m, e1);
    var e2 := Begin(m1, y);
    var m2 := Run(m1, e2);
    var e3 := Unblock(m2, x);
    var m3 := Run(m2, e3);
    if Reach(m2, x, y) {
      ReachDown(m2, x, y);
    }
    var e4 := Begin(m3, x);
    InTurnAppend(m2, e3, e4);
    InTurnAppend(m1, e2, e3 + e4);
    InTurnAppend(m, e1, e2 + (e3 + e4));
    events := e1 + (e2 + (e3 + e4));
    assert Share(Run(m, events), x, y, c);
  }

  lemma Begin(m: Manager, op: nat) returns (events: seq<Event>)
    requires WellFormed(m) && op < |m.status| && m.status[op] != Finished && DepsFinished(m, op)
    ensures Run(m, events) == m.(status := m.status[op := Executing]) && RunInTurn(m, events)
  {
    if m.status[op] == Waiting {
      events := [Start(op)];
      assert Front(events) == [];
    } else {
      events := [];
    }
  }

  /** Exclusion holds in all runs from `m` without overtaking. */
  ghost predicate AlwaysExclusive(m: Manager)
    requires WellFormed(m)
  {
    forall events: seq<Event> | RunInTurn(m, events) :: Exclusive(Run(m, events))
  }

  /**
   The exact condition: from a state, mutual exclusion holds forever (without further overtaking)
   if and only if unfinished operations of each category wait for each other and new ones will.
   */
  lemma ExclusiveForeverIffOrdered(m: Manager)
    requires WellFormed(m)
    ensures AlwaysExclusive(m) <==> Ordered(m)
  {
    if Ordered(m) {
      forall events: seq<Event> | RunInTurn(m, events)
        ensures Exclusive(Run(m, events))
      {
        RunKeepsOrder(m, events);
        OrderedIsExclusive(Run(m, events));
      }
    } else if c: string, x: nat, y: nat :| Share(m, x, y, c) && !Reach(m, y, x) {
      var events := Collide(m, x, y, c);
    } else {
      var c: string, x: nat :| 0 <= x < |m.status| && m.status[x] != Finished && c in m.categories[x] && !Covered(m, c, x);
      var events := CollideWithNew(m, c, x);
    }
  }

  /** Where operations of a category wait in turn, its last listed one covers them all, unless it has finished. */
  lemma LastCovers(m: Manager, c: string, x: nat)
    requires WellFormed(m) && x < |m.status| && m.status[x] != Finished && c in m.categories[x]
    requires forall c: string, x: nat, y: nat | Share(m, x, y, c) :: Reach(m, y, x)
    ensures var list := ListOf(m.lists, c);
            list != [] && Last(list) < |m.status| && (m.status[Last(list)] == Finished || Covered(m, c, x))
  {
    assert ListValid(m, c);
    var list := ListOf(m.lists, c);
    var k :| 0 <= k < |list| && list[k] == x;
    var last := Last(list);
    if m.status[last] != Finished && x != last {
      assert Share(m, x, last, c);
    }
  }

  lemma CollideWithNew(m: Manager, c: string, x: nat) returns (events: seq<Event>)
    requires WellFormed(m) && x < |m.status| && m.status[x] != Finished && c in m.categories[x] && !Covered(m, c, x)
    requires forall c: string, x: nat, y: nat | Share(m, x, y, c) :: Reach(m, y, x)
    ensures RunInTurn(m, events) && !Exclusive(Run(m, events))
  {
    LastCovers(m, c, x);
    var last := Last(ListOf(m.lists, c));
    RunSnoc(m, [], Add({c}));
    var add := [] + [Add({c})];
    var t := Run(m, add);
    AddOne(m, c);
    var rest := Collide(t, x, |m.status|, c);
    InTurnAppend(m, add, rest);
    events := add + rest;
  }

  /**
   Cancelling a waiting operation can break exclusion: with one operation executing and a second one
   waiting for it, flushing the second lets a third start beside the first.
   */
  lemma OvertakingBreaksExclusion(c: string) returns (events: seq<Event>)
    ensures var m := Run(Empty(), events); m.status == [Executing, Finished, Executing] && !Exclusive(m)
  {
    events := OneFlushed(c);
    var m := Run(Empty(), events);
    RunSnoc(Empty(), events, Add({c}));
    events := events + [Add({c})];
    AddOne(m, c);
    RunSnoc(Empty(), events, Start(2));
    events := events + [Start(2)];
    assert Share(Run(Empty(), events), 0, 2, c);
  }

  lemma AddOne(m: Manager, c: string)
    requires Shaped(m)
    ensures var list := ListOf(m.lists, c);
            Next(m, Add({c})) ==
            Manager(m.lists[c := list + [|m.status|]], m.categories + [{c}],
                    m.deps + [if list == [] then {} else {Last(list)}], m.status + [Waiting])
  {
    var list := ListOf(m.lists, c);
    assert LastOnes(m.lists, {c}) == if list == [] then {} else {Last(list)};
    assert Appended(m.lists, |m.status|, {c}) == m.lists[c := list + [|m.status|]];
  }

  lemma OneExecuting(c: string) returns (events: seq<Event>)
    ensures Run(Empty(), events) == Manager(map[c := [0]], [{c}], [{}], [Executing])
  {
    RunSnoc(Empty(), [], Add({c}));
    events := [] + [Add({c})];
    AddOne(Empty(), c);
    var none: seq<nat> := [];
    assert none + [0] == [0];
    assert Run(Empty(), events) == Manager(map[c := [0]], [{c}], [{}], [Waiting]);
    RunSnoc(Empty(), events, Start(0));
    events := events + [Start(0)];
  }

  lemma OneFlushed(c: string) returns (events: seq<Event>)
    ensures Run(Empty(), events) == Manager(map[c := [0, 1]], [{c}, {c}], [{}, {0}], [Executing, Finished])
  {
    events := OneExecuting(c);
    var m := Run(Empty(), events);
    RunSnoc(Empty(), events, Add({c}));
    events := events + [Add({c})];
    AddOne(m, c);
    assert [0] + [1] == [0, 1] && map[c := [0]][c := [0, 1]] == map[c := [0, 1]];
    assert Next(m, Add({c})) == Manager(map[c := [0, 1]], [{c}, {c}], [{}, {0}], [Executing, Waiting]);
    RunSnoc(Empty(), events, Flush(1));
    events := events + [Flush(1)];
    assert [Executing, Waiting][1 := Finished] == [Executing, Finished];
  }

  lemma RunSnoc(m: Manager, events: seq<Event>, e: Event)
    requires WellFormed(m)
    ensures Run(m, events + [e]) == Next(Run(m, events), e)
  {
    assert Front(events + [e]) == events;
  }

  // ----- the object

  class ExclusivityManager {
    var operationsByCategory: map<string, seq<nat>>

    constructor ()
      ensures operationsByCategory == map[]
    {
      operationsByCategory := map[];
    }

    /** Registers an operation; `dependencies` are the ones added to it. The categories come in no particular order. */
    method AddOperation(op: nat, categories: set<string>) returns (dependencies: set<nat>)
      modifies this
      ensures operationsByCategory == Appended(old(operationsByCategory), op, categories)
      ensures dependencies == LastOnes(old(operationsByCategory), categories)
    {
      dependencies := {};
      var remaining, done: set<string> := categories, {};
      while remaining != {}
        invariant remaining !! done && remaining + done == categories
        invariant operationsByCategory == Appended(old(operationsByCategory), op, done)
        invariant dependencies == LastOnes(old(operationsByCategory), done)
        decreases remaining
      {
        var category :| category in remaining;
        var operations := ListOf(operationsByCategory, category);
        assert operations == ListOf(old(operationsByCategory), category);
        LastOnesOneMore(old(operationsByCategory), done, category);
        AppendedOneMore(old(operationsByCategory), op, done, category);
        if operations != [] {
          dependencies := dependencies + {Last(operations)};
        }
        operationsByCategory := operationsByCategory[category := operations + [op]];
        remaining, done := remaining - {category}, done + {category};
      }
      assert done == categories;
    }

    method RemoveOperation(op: nat, categories: set<string>)
      modifies this
      ensures operationsByCategory == Removed(old(operationsByCategory), op, categories)
    {
      var remaining, done: set<string> := categories, {};
      while remaining != {}
        invariant remaining !! done && remaining + done == categories
        invariant operationsByCategory == Removed(old(operationsByCategory), op, done)
        decreases remaining
      {
        var category :| category in remaining;
        RemovedOneMore(old(operationsByCategory), op, done, category);
        remaining, done := remaining - {category}, done + {category};
        if category in operationsByCategory {
          var operations := Without(operationsByCategory[category], op);
          if operations == [] {
            operationsByCategory := operationsByCategory - {category};
          } else {
            operationsByCategory := operationsByCategory[category := operations];
          }
        }
      }
      assert done == categories;
    }
  }

  lemma LastOnesOneMore(lists: map<string, seq<nat>>, done: set<string>, c: string)
    ensures LastOnes(lists, done + {c}) ==
            LastOnes(lists, done) + if ListOf(lists, c) != [] then {Last(ListOf(lists, c))} else {}
  {
  }

  lemma AppendedOneMore(lists: map<string, seq<nat>>, op: nat, done: set<string>, c: string)
    requires c !in done
    ensures Appended(lists, op, done)[c := ListOf(lists, c) + [op]] == Appended(lists, op, done + {c})
  {
  }

  lemma RemovedOneMore(lists: map<string, seq<nat>>, op: nat, done: set<string>, c: string)
    requires c !in done
    ensures var before := Removed(lists, op, done);
            && (c in before <==> c in lists) && (c in lists ==> before[c] == lists[c])
            && Removed(lists, op, done + {c}) ==
               if c !in before then before
               else if Without(before[c], op) == [] then before - {c}
               else before[c := Without(before[c], op)]
  {
  }
}
