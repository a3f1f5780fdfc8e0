/** The lock server itself: two tables of locks changed in place by the calls that run through them. */
module LockServer {
  import opened LockPaths
  import opened LockProtocol
  import opened LockTheorems

  // Stopped: Go ends the program when a lock that nobody holds or waits for is unlocked. Astray: a
  // lock that a writer has or waits for is unlocked in the mode it is not locked in. Go may let that
  // pass, and what the lock then lets in is not described here.
  datatype Status = Done | InvalidPath | LockNotExist | Stopped | Astray

  // s after call i gave back its next n locks.
  ghost function Dropped(s: System, i: nat, n: nat): System
    requires i < |s.calls| && s.calls[i].taken == |s.calls[i].plan| && s.calls[i].released + n <= |s.calls[i].plan|
    ensures Dropped(s, i, n).calls == s.calls[i := s.calls[i].(released := s.calls[i].released + n)]
    decreases n
  {
    if n == 0 then s
    else
      var s1 := Dropped(s, i, n - 1);
      Next(s1, Drop(i))
  }

  lemma {:induction false} DroppedInv(s: System, i: nat, n: nat)
    requires Inv(s) && i < |s.calls| && s.calls[i].taken == |s.calls[i].plan|
    requires s.calls[i].released + n <= |s.calls[i].plan|
    ensures Inv(Dropped(s, i, n))
    decreases n
  {
    if n > 0 {
      DroppedInv(s, i, n - 1);
      StepInv(Dropped(s, i, n - 1), Drop(i));
    }
  }

  // Unlock in this mode finds the lock locked so.
  predicate LockedFor(rw: RW, exclusive: bool) {
    if exclusive then rw.writer.Active? else rw.readers > 0
  }

  // s after the first n locks of the plan were unlocked.
  ghost function Returned(s: System, plan: seq<Want>, n: nat): System
    requires n <= |plan|
    decreases n
  {
    if n == 0 then s
    else
      var s1, w := Returned(s, plan, n - 1), plan[n - 1];
      With(s1, w.lock, Given(At(s1, w.lock), w.exclusive))
  }

  ghost predicate FoundLocked(s: System, plan: seq<Want>, k: nat) {
    k < |plan| && LockedFor(At(Returned(s, plan, k), plan[k].lock), plan[k].exclusive)
  }

  // Every unlock of the plan finds its lock locked.
  ghost predicate CanReturn(s: System, plan: seq<Want>) {
    forall k: nat :: k < |plan| ==> FoundLocked(s, plan, k)
  }

  // The first unlock of the plan that does not find its lock locked is the k-th.
  ghost predicate FailsAt(s: System, plan: seq<Want>, k: nat) {
    k < |plan| && !FoundLocked(s, plan, k) && forall j: nat :: j < k ==> FoundLocked(s, plan, j)
  }

  // A writer has the lock that the k-th unlock is about, or waits for it.
  ghost predicate WriterAt(s: System, plan: seq<Want>, k: nat) {
    k < |plan| && !At(Returned(s, plan, k), plan[k].lock).writer.Free?
  }

  ghost predicate HeldBy(s: System, i: nat, rep: int, path: string, mode: Mode) {
    i < |s.calls| && Completed(s.calls[i]) && s.calls[i].rep == rep && s.calls[i].path == path
    && s.calls[i].mode == mode
  }

  // For a request that has what it asked for, unlocking is its Release in the protocol.
  lemma {:induction false} ReturnedIsDropped(s: System, i: nat, n: nat)
    requires Inv(s) && i < |s.calls| && Completed(s.calls[i]) && n <= |s.calls[i].plan|
    ensures var c := s.calls[i]; Dropped(s, i, n) == Returned(s, c.plan, n).(calls := s.calls[i := c.(released := n)])
    decreases n
  {
    var c := s.calls[i];
    if n == 0 {
      assert s.calls[i := c.(released := 0)] == s.calls;
    } else {
      ReturnedIsDropped(s, i, n - 1);
      DroppedInv(s, i, n - 1);
      var t, r := Dropped(s, i, n - 1), Returned(s, c.plan, n - 1);
      DropIsReturn(t, r, i);
      OneMoreDrop(s, i, n, t, r);
    }
  }

  lemma OneMoreDrop(s: System, i: nat, n: nat, t: System, r: System)
    requires i < |s.calls| && Completed(s.calls[i]) && 0 < n <= |s.calls[i].plan|
    requires t == Dropped(s, i, n - 1) && r == Returned(s, s.calls[i].plan, n - 1)
    requires var w := s.calls[i].plan[n - 1];
      Enabled(t, Drop(i)) &&
      Next(t, Drop(i)) ==
        With(r, w.lock, Given(At(r, w.lock), w.exclusive)).(calls := t.calls[i := s.calls[i].(released := n)])
    ensures var c := s.calls[i]; Dropped(s, i, n) == Returned(s, c.plan, n).(calls := s.calls[i := c.(released := n)])
  {
    assert t.calls[i := s.calls[i].(released := n)] == s.calls[i := s.calls[i].(released := n)];
  }

  // It finds every lock locked.
  lemma FoundEach(s: System, i: nat)
    requires Inv(s) && i < |s.calls| && Completed(s.calls[i])
    ensures CanReturn(s, s.calls[i].plan)
  {
    forall k: nat | k < |s.calls[i].plan| ensures FoundLocked(s, s.calls[i].plan, k) {
      ReturnedIsDropped(s, i, k);
      DroppedInv(s, i, k);
      DropIsReturn(Dropped(s, i, k), Returned(s, s.calls[i].plan, k), i);
    }
  }

  lemma DropIsReturn(s: System, t: System, i: nat)
    requires Inv(s) && Enabled(s, Drop(i)) && s == t.(calls := s.calls)
    ensures var c := s.calls[i];
      var w := c.plan[c.released];
      && LockedFor(At(t, w.lock), w.exclusive)
      && Next(s, Drop(i)) ==
           With(t, w.lock, Given(At(t, w.lock), w.exclusive)).(calls := s.calls[i := c.(released := c.released + 1)])
  {
    DropFindsItLocked(s, i);
    var c := s.calls[i];
    assert At(t, c.plan[c.released].lock) == At(s, c.plan[c.released].lock);
  }

  lemma EnterInv(s: System, rep: int, raw: string, mode: Mode)
    requires Inv(s) && FilterPath(raw).Path?
    ensures rep in s.tLock <==> rep in s.mLock
    ensures Inv(Next(s, Enter(rep, raw, mode)))
  {
    StepInv(s, Enter(rep, raw, mode));
  }

  class LockServer {
    var tLock: Table
    var mLock: Table
    var calls: seq<Call>      // every Acquire there has been, and how far it and its Release have come

    ghost function State(): System
      reads this
    {
      System(tLock, mLock, calls)
    }

    constructor ()
      ensures State() == Start() && Inv(State())
    {
      tLock, mLock, calls := map[], map[], [];
    }

    // The locks the loop of Acquire asks for, accPath growing by one name at a time.
    static method PlanFor(rep: int, path: string, mode: Mode) returns (plan: seq<Want>)
      ensures plan == Plan(rep, path, mode)
    {
      plan := [Want(Whole(rep, path), mode.Exclusive?)];
      var names := Split(path);
      var acc := "";
      ghost var levels, all := Prefixes(path), Plan(rep, path, mode);
      for k := 0 to |names|
        invariant |plan| == k + 1 && plan == all[..k + 1] && LevelsFrom(levels, acc, names, k)
      {
        NextLevel(levels, acc, names, k);
        PlanLevel(rep, path, mode, k + 1);
        acc := if |acc| == 1 then acc + names[k] else acc + "/" + names[k];
        plan := plan + [Want(Level(rep, acc), mode.Exclusive? && acc == path)];
      }
    }

    // Acquire up to its first lock.
    method Enter(rep: int, raw: string, mode: Mode) returns (status: Status)
      requires Inv(State())
      modifies this
      ensures Inv(State())
      ensures status == if FilterPath(raw).Path? then Done else InvalidPath
      ensures State() == if status.Done? then Next(old(State()), Event.Enter(rep, raw, mode)) else old(State())
    {
      var filtered := FilterPath(raw);
      if filtered.NotAPath? {
        return InvalidPath;
      }
      EnterInv(State(), rep, raw, mode);
      PreparedTables(State(), rep, filtered.path);
      if rep !in mLock {
        mLock := mLock[rep := map[]];
        tLock := tLock[rep := map[]];
      }
      if filtered.path !in tLock[rep] {
        tLock := tLock[rep := tLock[rep][filtered.path := UNLOCKED]];
      }
      var plan := PlanFor(rep, filtered.path, mode);
      calls := calls + [Call(rep, filtered.path, mode, plan, 0, false, 0)];
      status := Done;
    }

    method SetLock(l: Lock, rw: RW)
      modifies this`tLock, this`mLock
      ensures State() == With(old(State()), l, rw)
    {
      match l
      case Whole(rep, path) => tLock := Store(tLock, rep, path, rw);
      case Level(rep, path) => mLock := Store(mLock, rep, path, rw);
    }

    method GetLock(l: Lock) returns (rw: RW)
      ensures rw == At(State(), l)
    {
      match l
      case Whole(rep, path) => rw := if rep in tLock && path in tLock[rep] then tLock[rep][path] else UNLOCKED;
      case Level(rep, path) => rw := if rep in mLock && path in mLock[rep] then mLock[rep][path] else UNLOCKED;
    }

    // One attempt of call i at its next lock: RLock, or one of the two halves of Lock.
    method Try(i: nat) returns (moved: bool)
      requires Inv(State()) && i < |calls| && InFlight(calls[i])
      modifies this
      ensures Inv(State()) && moved == CanMove(old(State()), i)
      ensures i < |calls| && calls == old(calls)[i := calls[i]] && Advanced(old(calls)[i], calls[i])
      ensures moved ==> Ahead(calls[i]) < Ahead(old(calls)[i])
      ensures State() == if moved then Next(old(State()), NextMove(old(calls)[i], i)) else old(State())
    {
      Moves(State(), i);
      var c := calls[i];
      var w := NextWant(c);
      var rw := GetLock(w.lock);
      moved := if w.exclusive && c.announced then rw.readers == 0 else rw.writer.Free?;
      if moved {
        if w.exclusive && !c.announced {
          Queue(i);
        } else {
          Grab(i);
        }
      }
    }

    method Queue(i: nat)
      requires Enabled(State(), Announce(i))
      modifies this
      ensures State() == Next(old(State()), Announce(i))
    {
      var c := calls[i];
      var rw := GetLock(NextWant(c).lock);
      SetLock(NextWant(c).lock, rw.(writer := Pending));
      calls := calls[i := c.(announced := true)];
    }

    method Grab(i: nat)
      requires Enabled(State(), Take(i))
      modifies this
      ensures State() == Next(old(State()), Take(i))
    {
      var c := calls[i];
      var w := NextWant(c);
      var rw := GetLock(w.lock);
      SetLock(w.lock, if w.exclusive then rw.(writer := Active) else rw.(readers := rw.readers + 1));
      calls := calls[i := c.(taken := c.taken + 1, announced := false)];
    }

    // Acquire while nobody else runs: on until it has everything or has to wait.
    method Proceed(i: nat)
      requires Inv(State()) && i < |calls|
      modifies this
      ensures Inv(State()) && !CanMove(State(), i)
      ensures i < |calls| && calls == old(calls)[i := calls[i]] && Advanced(old(calls)[i], calls[i])
    {
      while InFlight(calls[i])
        invariant Inv(State()) && i < |calls| && calls == old(calls)[i := calls[i]] && Advanced(old(calls)[i], calls[i])
        decreases Ahead(calls[i])
      {
        var moved := Try(i);
        if !moved {
          return;
        }
      }
    }

    // Release: unlocks the whole-path lock, then every level, root first. Nothing is asked about who
    // holds them: a caller that holds nothing gives back what another holds, up to the first lock that
    // is not locked in its mode. There the server stops if no writer has that lock or waits for it.
    // 'holder' is the Acquire this is the Release of, if it is the Release of one.
    method Release(rep: int, raw: string, mode: Mode, holder: nat) returns (status: Status)
      requires Inv(State())
      modifies this
      ensures status.InvalidPath? <==> FilterPath(raw).NotAPath?
      ensures status.LockNotExist? <==>
        FilterPath(raw).Path? && !(rep in old(tLock) && FilterPath(raw).path in old(tLock)[rep])
      ensures status.InvalidPath? || status.LockNotExist? ==> State() == old(State())
      ensures status.Stopped? || status.Astray? ==>
        Strayed(old(State()), Plan(rep, FilterPath(raw).path, mode), status.Astray?)
      ensures status.Done? ==>
        var plan := Plan(rep, FilterPath(raw).path, mode);
        && CanReturn(old(State()), plan) && tLock == Returned(old(State()), plan, |plan|).tLock
        && mLock == Returned(old(State()), plan, |plan|).mLock
      ensures FilterPath(raw).Path? && HeldBy(old(State()), holder, rep, FilterPath(raw).path, mode) ==>
        && status.Done? && Inv(State()) && holder < |calls| && Finished(calls[holder])
        && State() == Dropped(old(State()), holder, |old(calls)[holder].plan|)
    {
      var filtered := FilterPath(raw);
      if filtered.NotAPath? {
        return InvalidPath;
      }
      ReleaseOfHeld(State(), holder, rep, filtered.path, mode);
      if rep !in tLock || filtered.path !in tLock[rep] {
        return LockNotExist;
      }
      status := UnlockAll(rep, filtered.path, mode);
      if !status.Done? {
        return;
      }
      if holder < |calls| && calls[holder].taken == |calls[holder].plan| && calls[holder].released == 0
         && calls[holder].rep == rep && calls[holder].path == filtered.path && calls[holder].mode == mode {
        calls := calls[holder := calls[holder].(released := |calls[holder].plan|)];
      }
    }

    // The first k locks of the plan were found locked and are unlocked.
    ghost predicate Unlocking(s0: System, plan: seq<Want>, k: nat)
      reads this
    {
      k <= |plan| && State() == Returned(s0, plan, k) && forall j: nat :: j < k ==> FoundLocked(s0, plan, j)
    }

    // The unlocking came to a lock that is not locked in its mode, and which a writer has or waits
    // for if 'writer' is set.
    ghost predicate Strayed(s0: System, plan: seq<Want>, writer: bool)
      reads this
    {
      exists k: nat :: FailsAt(s0, plan, k) && WriterAt(s0, plan, k) == writer && State() == Returned(s0, plan, k)
    }

    // After the first k unlocks, or where they failed.
    ghost predicate Unlocked(s0: System, plan: seq<Want>, k: nat, status: Status)
      reads this
    {
      match status
      case Done => Unlocking(s0, plan, k)
      case Stopped => Strayed(s0, plan, false)
      case Astray => Strayed(s0, plan, true)
      case _ => false
    }

    method UnlockAll(rep: int, path: string, mode: Mode) returns (status: Status)
      modifies this`tLock, this`mLock
      ensures var plan := Plan(rep, path, mode); Unlocked(old(State()), plan, |plan|, status)
    {
      ghost var s0, plan, levels := State(), Plan(rep, path, mode), Prefixes(path);
      status := Unlock(Whole(rep, path), mode.Exclusive?, s0, plan, 0);
      var names := Split(path);
      var acc := "";
      for k := 0 to |names|
        invariant |plan| == 1 + |names| && LevelsFrom(levels, acc, names, k)
        invariant Unlocked(s0, plan, k + 1, status)
      {
        NextLevel(levels, acc, names, k);
        acc := if |acc| == 1 then acc + names[k] else acc + "/" + names[k];
        if status.Done? {
          PlanLevel(rep, path, mode, k + 1);
          status := Unlock(Level(rep, acc), mode.Exclusive? && acc == path, s0, plan, k + 1);
        }
      }
    }

    // RUnlock or Unlock, the k-th of a Release.
    method Unlock(l: Lock, exclusive: bool, ghost s0: System, ghost plan: seq<Want>, ghost k: nat)
      returns (status: Status)
      requires k < |plan| && Unlocking(s0, plan, k) && plan[k] == Want(l, exclusive)
      modifies this`tLock, this`mLock
      ensures Unlocked(s0, plan, k + 1, status)
    {
      var rw := GetLock(l);
      var locked := if exclusive then rw.writer.Active? else rw.readers > 0;
      assert locked <==> FoundLocked(s0, plan, k);
      if locked {
        SetLock(l, Given(rw, exclusive));
        return Done;
      }
      assert FailsAt(s0, plan, k) && WriterAt(s0, plan, k) == !rw.writer.Free?;
      status := if rw.writer.Free? then Stopped else Astray;
    }
  }

  // The Release of a request that has what it asked for finds its locks, locked.
  lemma ReleaseOfHeld(s: System, i: nat, rep: int, path: string, mode: Mode)
    requires Inv(s)
    ensures HeldBy(s, i, rep, path, mode) ==>
      && rep in s.tLock && path in s.tLock[rep] && s.calls[i].plan == Plan(rep, path, mode)
      && CanReturn(s, s.calls[i].plan)
      && Inv(Dropped(s, i, |s.calls[i].plan|)) && Returned(s, s.calls[i].plan, |s.calls[i].plan|).calls == s.calls
      && Dropped(s, i, |s.calls[i].plan|)
         == Returned(s, s.calls[i].plan,
             |s.calls[i].plan|).(calls := s.calls[i := s.calls[i].(released := |s.calls[i].plan|)])
  {
    if HeldBy(s, i, rep, path, mode) {
      assert Planned(s.calls[i]);
      FoundEach(s, i);
      ReturnedIsDropped(s, i, |s.calls[i].plan|);
      DroppedInv(s, i, |s.calls[i].plan|);
      ReturnedCalls(s, s.calls[i].plan, |s.calls[i].plan|);
    }
  }

  lemma {:induction false} ReturnedCalls(s: System, plan: seq<Want>, n: nat)
    requires n <= |plan|
    ensures Returned(s, plan, n).calls == s.calls
    decreases n
  {
    if n > 0 {
      ReturnedCalls(s, plan, n - 1);
    }
  }

  // The call acquired more of its locks, or announced itself, and nothing else.
  predicate Advanced(c: Call, c1: Call) {
    c1 == c.(taken := c1.taken, announced := c1.announced) && c.taken <= c1.taken
  }

  // Steps a call in flight has before it.
  function Ahead(c: Call): int {
    2 * (|c.plan| - c.taken) + (if c.announced then 0 else 1)
  }

  function NextMove(c: Call, i: nat): Event
    requires InFlight(c)
  {
    if c.announced || !NextWant(c).exclusive then Take(i) else Announce(i)
  }

  lemma PreparedTables(s: System, rep: int, path: string)
    requires rep in s.tLock <==> rep in s.mLock
    ensures var s1, t := Prepared(s, rep, path), if rep in s.tLock then s.tLock else s.tLock[rep := map[]];
      && s1.mLock == (if rep in s.mLock then s.mLock else s.mLock[rep := map[]])
      && s1.tLock == (if path in t[rep] then t else t[rep := t[rep][path := UNLOCKED]])
  {
    var t := if rep in s.tLock then s.tLock else s.tLock[rep := map[]];
    if path in t[rep] {
      assert t[rep][path := t[rep][path]] == t[rep];
      assert t[rep := t[rep]] == t;
    }
  }

  lemma Moves(s: System, i: nat)
    requires Inv(s) && i < |s.calls| && InFlight(s.calls[i])
    ensures var c := s.calls[i];
      var w, rw := NextWant(c), At(s, NextWant(c).lock);
      && CanMove(s, i) == (if w.exclusive && c.announced then rw.readers == 0 else rw.writer.Free?)
      && (CanMove(s, i) ==> Enabled(s, NextMove(c, i)) && Inv(Next(s, NextMove(c, i))))
  {
    var c := s.calls[i];
    assert Sane(c);
    if CanMove(s, i) {
      StepInv(s, NextMove(c, i));
    }
  }
}
