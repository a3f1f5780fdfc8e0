/** What the lock server guarantees: subtree exclusion, no deadlock, and that nothing stays locked. */
module LockTheorems {
  import opened LockPaths
  import opened LockProtocol

  // ---- Exclusion ------------------------------------------------------------------------------

  lemma HoldsLevel(c: Call, level: string)
    requires Sane(c) && Planned(c) && Completed(c) && level in Prefixes(c.path)
    ensures var w := Want(Level(c.rep, level), c.mode.Exclusive? && level == c.path);
      multiset(Has(c))[w] > 0
  {
    var k := LevelInPlan(c, level);
    assert Has(c) == c.plan;
    assert c.plan[k] in Has(c);
  }

  lemma LevelInPlan(c: Call, level: string) returns (k: nat)
    requires Planned(c) && level in Prefixes(c.path)
    ensures k < |c.plan| && c.plan[k] == Want(Level(c.rep, level), c.mode.Exclusive? && level == c.path)
  {
    k := LevelAmong(c.rep, c.path, c.mode, Prefixes(c.path), level);
  }

  lemma LevelAmong(rep: int, path: string, mode: Mode, levels: seq<string>, level: string) returns (k: nat)
    requires level in levels
    ensures k < |PlanOver(rep, path, mode, levels)|
    ensures PlanOver(rep, path, mode, levels)[k] == Want(Level(rep, level), mode.Exclusive? && level == path)
  {
    var j :| 0 <= j < |levels| && levels[j] == level;
    k := j + 1;
  }

  // An exclusive hold on a lock keeps everyone else off it.
  lemma WriterIsAlone(s: System, i: nat, j: nat, l: Lock)
    requires Inv(s) && i < |s.calls| && j < |s.calls| && i != j
    requires Share(s.calls[i], l, Writes) > 0
    ensures Share(s.calls[j], l, Writes) == 0 && Share(s.calls[j], l, Reader) == 0
  {
    assert Conserved(s, l);
    TallyAtLeast(s.calls, i, l, Writes);
    TallyAtLeast(s.calls, j, l, Reader);
    if i < j {
      TallyTwo(s.calls, i, j, l, Writes);
    } else {
      TallyTwo(s.calls, j, i, l, Writes);
    }
  }

  // A completed exclusive hold on a named path excludes every other completed hold on it or below it.
  lemma SubtreeExclusion(s: System, i: nat, j: nat)
    requires Inv(s) && i < |s.calls| && j < |s.calls| && i != j
    requires Completed(s.calls[i]) && s.calls[i].mode.Exclusive? && Named(s.calls[i].path)
    requires Completed(s.calls[j]) && s.calls[j].rep == s.calls[i].rep
    ensures !Below(s.calls[i].path, s.calls[j].path)
  {
    var ci, cj := s.calls[i], s.calls[j];
    OwnLevel(ci.path);
    HoldsLevel(ci, ci.path);
    WriterIsAlone(s, i, j, Level(ci.rep, ci.path));
    if Below(ci.path, cj.path) {
      LevelsOfDescendants(ci.path, cj.path);
      HoldsLevel(cj, ci.path);
    }
  }

  // Holding "/" in exclusive mode excludes nobody below it: a request for it takes no level exclusively.
  lemma RootTakesNothingExclusively(c: Call, k: nat)
    requires Planned(c) && c.path == "" && 1 <= k < |c.plan|
    ensures !c.plan[k].exclusive
  {
    PrefixesShape("");
  }

  // ---- No deadlock ----------------------------------------------------------------------------

  function Rank(l: Lock): nat {
    if l.Whole? then 0 else |l.path|
  }

  lemma PlanAt(c: Call, k: nat)
    requires Planned(c) && 1 <= k < |c.plan|
    ensures |c.plan| == 1 + |Prefixes(c.path)| && c.plan[k].lock == Level(c.rep, Prefixes(c.path)[k - 1])
    ensures |Prefixes(c.path)[k - 1]| >= 1 && (|Prefixes(c.path)[k - 1]| == 1 ==> Prefixes(c.path)[k - 1] == "/")
  {
    PlanLevel(c.rep, c.path, c.mode, k);
    LevelShape(c.path, k - 1);
  }

  lemma PlanLevel(rep: int, path: string, mode: Mode, k: nat)
    requires 1 <= k < |Plan(rep, path, mode)|
    ensures |Plan(rep, path, mode)| == 1 + |Prefixes(path)|
    ensures Plan(rep, path, mode)[k] ==
      Want(Level(rep, Prefixes(path)[k - 1]), mode.Exclusive? && Prefixes(path)[k - 1] == path)
  {
  }

  lemma LevelShape(path: string, k: nat)
    requires Accepted(path) && k < |Prefixes(path)|
    ensures var level := Prefixes(path)[k]; |level| >= 1 && (|level| == 1 ==> level == "/")
  {
    PrefixesRooted(path, k);
    RootedShape(Prefixes(path)[k]);
  }

  lemma RootedShape(level: string)
    requires Rooted(level)
    ensures |level| >= 1 && (|level| == 1 ==> level == "/")
  {
  }

  lemma PlanRises(c: Call, a: nat, b: nat)
    requires Planned(c) && a < b < |c.plan|
    ensures Rank(c.plan[a].lock) < Rank(c.plan[b].lock) || c.plan[a].lock == Level(c.rep, "/")
  {
    PlanAt(c, b);
    if a > 0 {
      PlanAt(c, a);
      PrefixesRise(c.path, a - 1, b - 1);
    }
  }

  // Whoever holds a lock and is still acquiring wants a higher one next; the root level, which may
  // come twice, nobody holds exclusively.
  lemma HolderWantsMore(c: Call, l: Lock, exclusive: bool)
    requires Sane(c) && Planned(c) && Steady(c) && InFlight(c) && Want(l, exclusive) in Has(c)
    ensures Rank(l) < Rank(NextWant(c).lock) || (l.Level? && l.path == "/" && !exclusive)
  {
    var a :| 0 <= a < |Has(c)| && Has(c)[a] == Want(l, exclusive);
    PlanRises(c, a, c.taken);
  }

  lemma RootIsShared(c: Call, k: nat)
    requires Sane(c) && Planned(c) && Steady(c) && k < |c.plan| && c.plan[k].lock.Level? && c.plan[k].lock.path == "/"
    ensures !c.plan[k].exclusive
  {
  }

  lemma {:induction false} HighestInFlight(calls: seq<Call>, i: nat) returns (m: nat)
    requires i < |calls| && InFlight(calls[i])
    ensures m < |calls| && InFlight(calls[m])
    ensures forall j :: 0 <= j < |calls| && InFlight(calls[j]) ==>
      Rank(NextWant(calls[j]).lock) <= Rank(NextWant(calls[m]).lock)
  {
    m := i;
    for k := 0 to |calls|
      invariant m < |calls| && InFlight(calls[m])
      invariant forall j :: 0 <= j < k && InFlight(calls[j]) ==>
        Rank(NextWant(calls[j]).lock) <= Rank(NextWant(calls[m]).lock)
    {
      if InFlight(calls[k]) && Rank(NextWant(calls[k]).lock) > Rank(NextWant(calls[m]).lock) {
        m := k;
      }
    }
  }

  ghost predicate CanMove(s: System, i: nat) {
    Enabled(s, Announce(i)) || Enabled(s, Take(i))
  }

  ghost predicate SomeoneMovesOrHolds(s: System) {
    (exists i: nat :: i < |s.calls| && CanMove(s, i)) || (exists i: nat :: i < |s.calls| && Holding(s.calls[i]))
  }

  // A lock that nobody in flight ranks above is held, if at all, by a call that has all it asked for.
  lemma HeldByHolding(s: System, l: Lock, role: Role)
    requires Inv(s) && AllSteady(s.calls) && !role.Waits? && Tally(s.calls, l, role) > 0
    requires role.Reader? ==> !(l.Level? && l.path == "/")
    requires forall j :: 0 <= j < |s.calls| && InFlight(s.calls[j]) ==> Rank(NextWant(s.calls[j]).lock) <= Rank(l)
    ensures SomeoneMovesOrHolds(s)
  {
    var j := TallyWitness(s.calls, l, role);
    var c := s.calls[j];
    assert Want(l, role.Writes?) in Has(c);
    assert Planned(c) && Steady(c);
    if InFlight(c) {
      HolderWantsMore(c, l, role.Writes?);
    }
    assert Holding(c);
  }

  // Someone waits to write: it can go ahead, or the readers it waits for have all they asked for.
  lemma WaiterMoves(s: System, l: Lock)
    requires Inv(s) && AllSteady(s.calls) && At(s, l).writer.Pending?
    requires forall j :: 0 <= j < |s.calls| && InFlight(s.calls[j]) ==> Rank(NextWant(s.calls[j]).lock) <= Rank(l)
    ensures SomeoneMovesOrHolds(s)
  {
    assert Conserved(s, l);
    var j := TallyWitness(s.calls, l, Waits);
    var c := s.calls[j];
    assert Planned(c) && Steady(c) && Sane(c);
    if At(s, l).readers == 0 {
      assert CanMove(s, j);
    } else {
      if l.Level? && l.path == "/" {
        RootIsShared(c, c.taken);
      }
      HeldByHolding(s, l, Reader);
    }
  }

  // In any reachable state with a request in flight and none for "//", some request can take a step
  // or some hold is complete and will be released.
  lemma Progress(s: System, i: nat)
    requires Inv(s) && AllSteady(s.calls) && i < |s.calls| && InFlight(s.calls[i])
    ensures SomeoneMovesOrHolds(s)
  {
    var m := HighestInFlight(s.calls, i);
    var c, w := s.calls[m], NextWant(s.calls[m]);
    assert Conserved(s, w.lock) && Planned(c) && Steady(c) && Sane(c);
    if At(s, w.lock).writer.Pending? {
      WaiterMoves(s, w.lock);
    } else if At(s, w.lock).writer.Active? {
      HeldByHolding(s, w.lock, Writes);
    } else if !w.exclusive || !c.announced || At(s, w.lock).readers == 0 {
      assert CanMove(s, m);
    } else {
      AnnouncedIsPending(s, m);
    }
  }

  // ---- Steps run out --------------------------------------------------------------------------

  function Left(c: Call): nat
    requires Sane(c)
  {
    2 * (|c.plan| - c.taken) - One(c.announced) + (|c.plan| - c.released)
  }

  function Work(calls: seq<Call>): nat
    requires AllSane(calls)
  {
    Sum(seq(|calls|, i requires 0 <= i < |calls| => Left(calls[i])), |calls|)
  }

  lemma WorkUpdate(calls: seq<Call>, i: nat, c: Call)
    requires AllSane(calls) && i < |calls| && Sane(c)
    ensures AllSane(calls[i := c]) && Work(calls[i := c]) + Left(calls[i]) == Work(calls) + Left(c)
  {
    var ns: seq<nat> := seq(|calls|, j requires 0 <= j < |calls| => Left(calls[j]));
    var calls' := calls[i := c];
    assert seq(|calls'|, j requires 0 <= j < |calls'| => Left(calls'[j])) == ns[i := Left(c)];
    SumUpdate(ns, i, Left(c), |calls|);
  }

  // Without new arrivals the steps of any schedule run out.
  lemma StepsRunOut(s: System, e: Event)
    requires Inv(s) && Enabled(s, e) && !e.Enter?
    ensures AllSane(Next(s, e).calls) && Work(Next(s, e).calls) < Work(s.calls)
  {
    StepInv(s, e);
    var c1 := Next(s, e).calls[e.i];
    assert Next(s, e).calls == s.calls[e.i := c1];
    WorkUpdate(s.calls, e.i, c1);
  }

  // When no step is left, every request has been served and released, and every lock is free.
  lemma NothingLeftBehind(s: System, l: Lock)
    requires Inv(s) && AllSteady(s.calls)
    requires forall i: nat :: i < |s.calls| ==> !CanMove(s, i) && !Holding(s.calls[i])
    ensures forall i :: 0 <= i < |s.calls| ==> Finished(s.calls[i])
    ensures At(s, l) == UNLOCKED
  {
    forall i | 0 <= i < |s.calls| ensures Finished(s.calls[i]) {
      assert Sane(s.calls[i]) && !Holding(s.calls[i]);
      if InFlight(s.calls[i]) {
        Progress(s, i);
      }
    }
    FinishedHoldNothing(s, l);
  }

  // Release undoes Acquire: once every request is finished, nothing is locked.
  lemma FinishedHoldNothing(s: System, l: Lock)
    requires Inv(s) && forall i :: 0 <= i < |s.calls| ==> Finished(s.calls[i])
    ensures At(s, l) == UNLOCKED
  {
    assert Conserved(s, l);
    forall role: Role ensures Tally(s.calls, l, role) == 0 {
      if Tally(s.calls, l, role) > 0 {
        var i := TallyWitness(s.calls, l, role);
        HasNothing(s.calls[i], l, role);
      }
    }
    assert Tally(s.calls, l, Reader) == Tally(s.calls, l, Writes) == Tally(s.calls, l, Waits) == 0;
  }

  // ---- Exactly when the server can come to rest -----------------------------------------------

  // The events, none of them an arrival, can happen in this order.
  ghost predicate Follows(s: System, events: seq<Event>)
    decreases |events|
  {
    events == [] || (Enabled(s, events[0]) && !events[0].Enter? && Follows(Next(s, events[0]), events[1..]))
  }

  ghost function After(s: System, events: seq<Event>): System
    requires Follows(s, events)
    decreases |events|
  {
    if events == [] then s else After(Next(s, events[0]), events[1..])
  }

  ghost predicate AllFinished(calls: seq<Call>) {
    forall i :: 0 <= i < |calls| ==> Finished(calls[i])
  }

  ghost predicate Drainable(s: System) {
    exists events :: Follows(s, events) && AllFinished(After(s, events).calls)
  }

  lemma SameCalls(s: System, e: Event)
    requires Enabled(s, e) && !e.Enter?
    ensures |Next(s, e).calls| == |s.calls|
    ensures forall i :: 0 <= i < |s.calls| ==>
      Next(s, e).calls[i].path == s.calls[i].path && Next(s, e).calls[i].mode == s.calls[i].mode
  {
  }

  lemma SomeStep(s: System) returns (e: Event)
    requires Inv(s) && AllSteady(s.calls) && !AllFinished(s.calls)
    ensures Enabled(s, e) && !e.Enter?
  {
    var i :| 0 <= i < |s.calls| && !Finished(s.calls[i]);
    assert Sane(s.calls[i]);
    if Holding(s.calls[i]) {
      return Drop(i);
    }
    Progress(s, i);
    if j: nat :| j < |s.calls| && CanMove(s, j) {
      e := if Enabled(s, Take(j)) then Take(j) else Announce(j);
    } else {
      var j: nat :| j < |s.calls| && Holding(s.calls[j]);
      e := Drop(j);
    }
  }

  lemma {:induction false} Drains(s: System) returns (events: seq<Event>)
    requires Inv(s) && AllSteady(s.calls)
    ensures Follows(s, events) && AllFinished(After(s, events).calls)
    decreases Work(s.calls)
  {
    if AllFinished(s.calls) {
      return [];
    }
    var e := SomeStep(s);
    StepInv(s, e);
    SameCalls(s, e);
    StepsRunOut(s, e);
    var rest := Drains(Next(s, e));
    events := [e] + rest;
    assert events[1..] == rest;
  }

  lemma {:induction false} UnsteadyStays(s: System, events: seq<Event>, i: nat)
    requires Inv(s) && Follows(s, events) && i < |s.calls| && !Steady(s.calls[i])
    ensures !AllFinished(After(s, events).calls)
    decreases |events|
  {
    if events == [] {
      assert !Finished(s.calls[i]);
    } else {
      StepInv(s, events[0]);
      SameCalls(s, events[0]);
      UnsteadyStays(Next(s, events[0]), events[1..], i);
    }
  }

  // The requests already in can all be served and released exactly when none is an exclusive request for "//".
  lemma DrainableExactly(s: System)
    requires Inv(s)
    ensures Drainable(s) <==> AllSteady(s.calls)
  {
    if AllSteady(s.calls) {
      var events := Drains(s);
    } else {
      var i :| 0 <= i < |s.calls| && !Steady(s.calls[i]);
      forall events | Follows(s, events) ensures !AllFinished(After(s, events).calls) {
        UnsteadyStays(s, events, i);
      }
    }
  }

  // Once it has the root, every other request of that replica that comes to the root waits for good.
  lemma JammedRoot(s: System, i: nat, j: nat)
    requires Inv(s) && i < |s.calls| && !Steady(s.calls[i]) && s.calls[i].taken == 2
    requires j < |s.calls| && InFlight(s.calls[j]) && NextWant(s.calls[j]).lock == Level(s.calls[i].rep, "/")
    ensures !CanMove(s, j)
  {
    RootIsWritten(s, i);
    if s.calls[j].announced {
      AnnouncedIsPending(s, j);
    }
  }

  lemma RootIsWritten(s: System, i: nat)
    requires Inv(s) && i < |s.calls| && !Steady(s.calls[i]) && s.calls[i].taken == 2
    ensures At(s, Level(s.calls[i].rep, "/")).writer.Active?
  {
    var c := s.calls[i];
    assert Planned(c) && Sane(c);
    DoubleSlashPlan(c);
    var l := Level(c.rep, "/");
    assert c.plan[1] in Has(c);
    assert Conserved(s, l);
    TallyAtLeast(s.calls, i, l, Writes);
  }

  lemma JammedForGood(s: System, i: nat, e: Event)
    requires Inv(s) && i < |s.calls| && !Steady(s.calls[i]) && s.calls[i].taken == 2 && Enabled(s, e)
    ensures i < |Next(s, e).calls| && Next(s, e).calls[i] == s.calls[i]
  {
    assert Planned(s.calls[i]) && Sane(s.calls[i]);
    CannotTakeTwice(s, i);
    DoubleSlashPlan(s.calls[i]);
  }

  // ---- What Release gives back ----------------------------------------------------------------

  // A lock's state is determined by who holds it and who waits for it.
  lemma LocksFollowHolders(s: System, s': System, l: Lock)
    requires Inv(s) && Inv(s') && forall role: Role :: Tally(s.calls, l, role) == Tally(s'.calls, l, role)
    ensures At(s, l) == At(s', l)
  {
    assert Conserved(s, l) && Conserved(s', l);
    assert Tally(s.calls, l, Reader) == Tally(s'.calls, l, Reader);
    assert Tally(s.calls, l, Writes) == Tally(s'.calls, l, Writes);
    assert Tally(s.calls, l, Waits) == Tally(s'.calls, l, Waits);
  }

  // Whatever happened in between, a request that came and went leaves every lock as if it never had.
  lemma ReleaseRestores(s: System, s': System, i: nat, l: Lock)
    requires Inv(s) && Inv(s') && i < |s.calls| && |s'.calls| == |s.calls| && s'.calls == s.calls[i := s'.calls[i]]
    requires s.calls[i].taken == 0 && !s.calls[i].announced && Finished(s'.calls[i])
    ensures At(s', l) == At(s, l)
  {
    assert Sane(s.calls[i]) && Sane(s'.calls[i]);
    forall role: Role ensures Tally(s.calls, l, role) == Tally(s'.calls, l, role) {
      HasNothing(s.calls[i], l, role);
      HasNothing(s'.calls[i], l, role);
      TallyUpdate(s.calls, i, s'.calls[i], l, role);
    }
    LocksFollowHolders(s, s', l);
  }

  lemma HasNothing(c: Call, l: Lock, role: Role)
    requires Sane(c) && c.taken == c.released && !c.announced
    ensures Share(c, l, role) == 0
  {
    assert Has(c) == [];
  }

  // ---- Every run ------------------------------------------------------------------------------

  predicate Sensible(e: Event) {
    e.Enter? ==> e.raw != "//" || e.mode.Shared?
  }

  lemma {:induction false} RunSteady(states: seq<System>, events: seq<Event>, k: nat)
    requires IsRun(states, events) && k < |states| && forall j :: 0 <= j < |events| ==> Sensible(events[j])
    ensures AllSteady(states[k].calls)
    decreases k
  {
    if k > 0 {
      RunSteady(states, events, k - 1);
      var s, e := states[k - 1], events[k - 1];
      if e.Enter? {
        FilteredIsAccepted(e.raw);
      } else {
        SameCalls(s, e);
      }
    }
  }

  // No run deadlocks, and from every state of it everyone can still be served.
  lemma NoDeadlock(states: seq<System>, events: seq<Event>, k: nat, i: nat)
    requires IsRun(states, events) && k < |states| && forall j :: 0 <= j < |events| ==> Sensible(events[j])
    requires i < |states[k].calls| && InFlight(states[k].calls[i])
    ensures SomeoneMovesOrHolds(states[k]) && Drainable(states[k])
  {
    RunInv(states, events, k);
    RunSteady(states, events, k);
    Progress(states[k], i);
    DrainableExactly(states[k]);
  }
}
