/** Which exclusive holds protect what lies below them, and which do not. */
module LockCoexistence {
  import opened LockPaths
  import opened LockProtocol
  import opened LockTheorems

  ghost predicate Reachable(s: System) {
    exists states, events :: IsRun(states, events) && states[|events|] == s
  }

  lemma ReachableStart()
    ensures Reachable(Start())
  {
    assert IsRun([Start()], []);
  }

  lemma ReachableNext(s: System, e: Event)
    requires Reachable(s) && Enabled(s, e)
    ensures Reachable(Next(s, e))
  {
    var states, events :| IsRun(states, events) && states[|events|] == s;
    RunExtends(states, events, e);
    var states', events' := states + [Next(s, e)], events + [e];
    assert IsRun(states', events') && states'[|events'|] == Next(s, e);
  }

  lemma RunExtends(states: seq<System>, events: seq<Event>, e: Event)
    requires IsRun(states, events) && Enabled(states[|events|], e)
    ensures IsRun(states + [Next(states[|events|], e)], events + [e])
  {
    var states', events' := states + [Next(states[|events|], e)], events + [e];
    forall k | 0 <= k < |events'|
      ensures Enabled(states'[k], events'[k]) && states'[k + 1] == Next(states'[k], events'[k])
    {
      if k < |events| {
        assert states'[k] == states[k] && states'[k + 1] == states[k + 1] && events'[k] == events[k];
      }
    }
  }

  lemma ReachableInv(s: System)
    requires Reachable(s)
    ensures Inv(s)
  {
    var states, events :| IsRun(states, events) && states[|events|] == s;
    RunInv(states, events, |events|);
  }

  // Requests i and j of replica rep hold p exclusively and q in some mode.
  predicate BothHold(s: System, rep: int, p: string, q: string, i: nat, j: nat) {
    && i < |s.calls| && j < |s.calls| && i != j && Completed(s.calls[i]) && Completed(s.calls[j])
    && s.calls[i].rep == s.calls[j].rep == rep && s.calls[i].path == p && s.calls[j].path == q
    && s.calls[i].mode.Exclusive?
  }

  ghost predicate CanCoexist(rep: int, p: string, q: string) {
    exists s, i, j :: Reachable(s) && BothHold(s, rep, p, q, i, j)
  }

  // The locks call i still has to take are shared and nobody writes or waits to write on them.
  ghost predicate WayFree(s: System, i: nat) {
    && i < |s.calls| && !s.calls[i].announced && s.calls[i].released == 0 && s.calls[i].taken <= |s.calls[i].plan|
    && forall k :: s.calls[i].taken <= k < |s.calls[i].plan| ==>
         !s.calls[i].plan[k].exclusive && At(s, s.calls[i].plan[k].lock).writer.Free?
  }

  // s' is s, but call i has all it asked for; nobody became a writer.
  ghost predicate Served(s: System, i: nat, s': System) {
    && i < |s.calls| && s'.calls == s.calls[i := s.calls[i].(taken := |s.calls[i].plan|)]
    && forall l :: At(s', l).writer == At(s, l).writer
  }

  lemma TakeKeepsWriters(s: System, i: nat)
    requires WayFree(s, i) && InFlight(s.calls[i])
    ensures Enabled(s, Take(i)) && WayFree(Next(s, Take(i)), i)
    ensures forall l :: At(Next(s, Take(i)), l).writer == At(s, l).writer
  {
    var w := NextWant(s.calls[i]);
    forall l ensures At(Next(s, Take(i)), l).writer == At(s, l).writer {
      AtWith(s, w.lock, Locked(At(s, w.lock), w.exclusive), l);
    }
  }

  lemma {:induction false} TakeAll(s: System, i: nat) returns (s': System)
    requires Reachable(s) && WayFree(s, i)
    ensures Reachable(s') && Served(s, i, s')
    decreases |s.calls[i].plan| - s.calls[i].taken
  {
    if InFlight(s.calls[i]) {
      TakeKeepsWriters(s, i);
      ReachableNext(s, Take(i));
      s' := TakeAll(Next(s, Take(i)), i);
    } else {
      s' := s;
    }
  }

  // A new request, for a path the filter leaves as it is.
  lemma EnterFor(s: System, rep: int, path: string, mode: Mode) returns (s': System)
    requires Reachable(s) && Accepted(path)
    ensures Reachable(s') && s'.calls == s.calls + [Call(rep, path, mode, Plan(rep, path, mode), 0, false, 0)]
    ensures forall l :: At(s', l) == At(s, l)
  {
    var e := Enter(rep, path + "/", mode);
    assert FilterPath(path + "/") == Path(path) by {
      assert (path + "/")[..|path|] == path;
    }
    ReachableInv(s);
    ReachableNext(s, e);
    s' := Next(s, e);
    SamePreparedLocks(s, rep, path, s');
  }

  lemma SamePreparedLocks(s: System, rep: int, path: string, s': System)
    requires s.tLock.Keys == s.mLock.Keys && s' == Prepared(s, rep, path).(calls := s'.calls)
    ensures forall l :: At(s', l) == At(s, l)
  {
    forall l ensures At(s', l) == At(s, l) {
      PreparedIsInvisible(s, rep, path, l);
    }
  }

  // With nothing else in the server, an exclusive request takes its whole-path lock.
  lemma TakeWhole(s: System, rep: int, path: string) returns (s': System)
    requires Reachable(s) && s.calls == [Call(rep, path, Exclusive, Plan(rep, path, Exclusive), 0, false, 0)]
    requires forall l :: At(s, l) == UNLOCKED
    ensures Reachable(s') && s'.calls == [Call(rep, path, Exclusive, Plan(rep, path, Exclusive), 1, false, 0)]
    ensures forall l :: At(s', l).writer == if l == Whole(rep, path) then Active else Free
  {
    var l0, c := Whole(rep, path), s.calls[0];
    assert NextWant(c) == Want(l0, true);
    ReachableNext(s, Announce(0));
    var s1 := Next(s, Announce(0));
    assert s1 == With(s, l0, RW(0, Pending)).(calls := [c.(announced := true)]);
    OneLockSet(s, l0, RW(0, Pending), s1);
    ReachableNext(s1, Take(0));
    s' := Next(s1, Take(0));
    assert s' == With(s1, l0, RW(0, Active)).(calls := [c.(taken := 1)]);
    OneLockSet(s1, l0, RW(0, Active), s');
  }

  lemma OneLockSet(s: System, l0: Lock, rw: RW, s': System)
    requires s' == With(s, l0, rw).(calls := s'.calls)
    ensures forall l :: At(s', l) == if l == l0 then rw else At(s, l)
  {
    forall l ensures At(s', l) == if l == l0 then rw else At(s, l) {
      AtWith(s, l0, rw, l);
    }
  }

  lemma LevelsShared(rep: int, path: string, mode: Mode, k: nat)
    requires Accepted(path) && 1 <= k < |Plan(rep, path, mode)| && (mode.Shared? || path !in Prefixes(path))
    ensures !Plan(rep, path, mode)[k].exclusive && Plan(rep, path, mode)[k].lock.Level?
  {
  }

  lemma Coexist(rep: int, p: string, q: string) returns (s: System)
    requires Accepted(p) && Accepted(q) && p != q && p !in Prefixes(p)
    ensures Reachable(s) && BothHold(s, rep, p, q, 0, 1)
  {
    s := HoldAlone(rep, p);
    var s1 := EnterFor(s, rep, q, Shared);
    forall k: nat | k < |s1.calls[1].plan|
      ensures !s1.calls[1].plan[k].exclusive && At(s1, s1.calls[1].plan[k].lock).writer.Free?
    {
      if k > 0 {
        LevelsShared(rep, q, Shared, k);
      }
    }
    s := TakeAll(s1, 1);
  }

  // An exclusive request for such a path, served with nobody else in the server, writes no level.
  lemma HoldAlone(rep: int, p: string) returns (s: System)
    requires Accepted(p) && p !in Prefixes(p)
    ensures Reachable(s) && |s.calls| == 1 && Completed(s.calls[0])
    ensures s.calls[0].rep == rep && s.calls[0].path == p && s.calls[0].mode == Exclusive
    ensures forall l :: At(s, l).writer == if l == Whole(rep, p) then Active else Free
  {
    ReachableStart();
    s := EnterFor(Start(), rep, p, Exclusive);
    s := TakeWhole(s, rep, p);
    forall k: nat | 1 <= k < |s.calls[0].plan| ensures !s.calls[0].plan[k].exclusive && s.calls[0].plan[k].lock.Level? {
      LevelsShared(rep, p, Exclusive, k);
    }
    s := TakeAll(s, 0);
  }

  // An exclusive hold on p keeps others from holding a path below it if and only if p has its own
  // level among its levels: "/" and paths that begin with two slashes protect nothing below them.
  lemma ExclusionExactly(rep: int, p: string, q: string)
    requires Accepted(p) && Accepted(q) && p != q && Below(p, q)
    ensures CanCoexist(rep, p, q) <==> !(Named(p) || p == "/")
  {
    OwnLevel(p);
    if !(Named(p) || p == "/") {
      var s := Coexist(rep, p, q);
    }
    forall s, i: nat, j: nat | Reachable(s) && BothHold(s, rep, p, q, i, j) ensures !(Named(p) || p == "/") {
      ReachableInv(s);
      if Named(p) {
        SubtreeExclusion(s, i, j);
      }
      assert p == "/" ==> !Steady(s.calls[i]);
    }
  }
}
