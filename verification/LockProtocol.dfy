/** The lock server's Acquire and Release calls as steps on single locks, in any interleaving. */
module LockProtocol {
  import opened LockPaths

  datatype Mode = Shared | Exclusive

  // A Go RWMutex: a writer first announces itself, which keeps new readers out, then waits for the
  // readers that are in.
  datatype Writer = Free | Pending | Active
  datatype RW = RW(readers: nat, writer: Writer)

  const UNLOCKED := RW(0, Free)

  // tLock and mLock: by replica, then by path. A lock not there yet is unlocked.
  type Table = map<int, map<string, RW>>

  datatype Lock = Whole(rep: int, path: string) | Level(rep: int, path: string)

  datatype Want = Want(lock: Lock, exclusive: bool)

  // One Acquire and the Release that follows it: the locks it asks for in turn, how many of them it
  // took and gave back, and whether it announced itself on the next.
  datatype Call = Call(rep: int, path: string, mode: Mode, plan: seq<Want>, taken: nat, announced: bool, released: nat)

  datatype System = System(tLock: Table, mLock: Table, calls: seq<Call>)

  // ---- The lock tables ------------------------------------------------------------------------

  function Look(t: Table, rep: int, path: string): RW {
    if rep in t && path in t[rep] then t[rep][path] else UNLOCKED
  }

  function Store(t: Table, rep: int, path: string, rw: RW): Table {
    t[rep := (if rep in t then t[rep] else map[])[path := rw]]
  }

  function At(s: System, l: Lock): RW {
    match l
    case Whole(rep, path) => Look(s.tLock, rep, path)
    case Level(rep, path) => Look(s.mLock, rep, path)
  }

  function With(s: System, l: Lock, rw: RW): System {
    match l
    case Whole(rep, path) => s.(tLock := Store(s.tLock, rep, path, rw))
    case Level(rep, path) => s.(mLock := Store(s.mLock, rep, path, rw))
  }

  lemma AtWith(s: System, l: Lock, rw: RW, other: Lock)
    ensures At(With(s, l, rw), other) == if other == l then rw else At(s, other)
    ensures With(s, l, rw).calls == s.calls
  {
  }

  // ---- What a call locks ----------------------------------------------------------------------

  // The whole path first, then every level from the root down; the path's own level in the mode
  // asked for, the others shared.
  function Plan(rep: int, path: string, mode: Mode): seq<Want> {
    PlanOver(rep, path, mode, Prefixes(path))
  }

  function PlanOver(rep: int, path: string, mode: Mode, levels: seq<string>): (plan: seq<Want>)
    ensures |plan| == 1 + |levels|
  {
    [Want(Whole(rep, path), mode.Exclusive?)] +
    seq(|levels|, k requires 0 <= k < |levels| => Want(Level(rep, levels[k]), mode.Exclusive? && levels[k] == path))
  }

  ghost predicate Planned(c: Call) {
    Accepted(c.path) && c.plan == Plan(c.rep, c.path, c.mode)
  }

  predicate InFlight(c: Call) {
    c.taken < |c.plan|
  }

  predicate Holding(c: Call) {
    c.taken == |c.plan| && c.released < |c.plan|
  }

  // Acquire returned, Release has not begun.
  predicate Completed(c: Call) {
    c.taken == |c.plan| && c.released == 0
  }

  predicate Finished(c: Call) {
    c.taken == |c.plan| && c.released == |c.plan|
  }

  function NextWant(c: Call): Want
    requires InFlight(c)
  {
    c.plan[c.taken]
  }

  // ---- Steps ----------------------------------------------------------------------------------

  datatype Event =
    | Enter(rep: int, raw: string, mode: Mode)    // an Acquire arrives
    | Announce(i: nat)                            // an exclusive request queues up on its next lock
    | Take(i: nat)                                // the next lock is taken
    | Drop(i: nat)                                // Release gives the next lock back

  function Locked(rw: RW, exclusive: bool): RW {
    if exclusive then rw.(writer := Active) else rw.(readers := rw.readers + 1)
  }

  function Given(rw: RW, exclusive: bool): RW {
    if exclusive then rw.(writer := Free) else rw.(readers := if rw.readers > 0 then rw.readers - 1 else 0)
  }

  predicate Enabled(s: System, e: Event) {
    match e
    case Enter(_, raw, _) => FilterPath(raw).Path?
    case Announce(i) =>
      i < |s.calls| && InFlight(s.calls[i]) && NextWant(s.calls[i]).exclusive && !s.calls[i].announced
      && At(s, NextWant(s.calls[i]).lock).writer.Free?
    case Take(i) =>
      i < |s.calls| && InFlight(s.calls[i])
      && var rw := At(s, NextWant(s.calls[i]).lock);
         if NextWant(s.calls[i]).exclusive then s.calls[i].announced && rw.readers == 0 else rw.writer.Free?
    case Drop(i) => i < |s.calls| && Holding(s.calls[i])
  }

  // The two tables exist for the replica, and the call's whole-path lock does.
  function Prepared(s: System, rep: int, path: string): System {
    var s1 := if rep in s.mLock then s else s.(mLock := s.mLock[rep := map[]], tLock := s.tLock[rep := map[]]);
    With(s1, Whole(rep, path), At(s1, Whole(rep, path)))
  }

  function Next(s: System, e: Event): System
    requires Enabled(s, e)
  {
    match e
    case Enter(rep, raw, mode) =>
      var path := FilterPath(raw).path;
      Prepared(s, rep, path).(calls := s.calls + [Call(rep, path, mode, Plan(rep, path, mode), 0, false, 0)])
    case Announce(i) =>
      var c := s.calls[i];
      var l := NextWant(c).lock;
      With(s, l, At(s, l).(writer := Pending)).(calls := s.calls[i := c.(announced := true)])
    case Take(i) =>
      var c := s.calls[i];
      var w := NextWant(c);
      With(s, w.lock,
          Locked(At(s, w.lock), w.exclusive)).(calls := s.calls[i := c.(taken := c.taken + 1, announced := false)])
    case Drop(i) =>
      var c := s.calls[i];
      var w := c.plan[c.released];
      With(s, w.lock, Given(At(s, w.lock), w.exclusive)).(calls := s.calls[i := c.(released := c.released + 1)])
  }

  function Start(): System {
    System(map[], map[], [])
  }

  // ---- Who holds what -------------------------------------------------------------------------

  datatype Role = Reader | Writes | Waits

  predicate Sane(c: Call) {
    && c.released <= c.taken <= |c.plan|
    && (c.released > 0 ==> c.taken == |c.plan|)
    && (c.announced ==> InFlight(c) && NextWant(c).exclusive)
  }

  // The locks a call has, taken and not given back.
  function Has(c: Call): seq<Want>
    requires Sane(c)
  {
    c.plan[c.released..c.taken]
  }

  function Share(c: Call, l: Lock, role: Role): nat
    requires Sane(c)
  {
    match role
    case Reader => multiset(Has(c))[Want(l, false)]
    case Writes => multiset(Has(c))[Want(l, true)]
    case Waits => if c.announced && NextWant(c).lock == l then 1 else 0
  }

  predicate AllSane(calls: seq<Call>) {
    forall i :: 0 <= i < |calls| ==> Sane(calls[i])
  }

  function Shares(calls: seq<Call>, l: Lock, role: Role): (r: seq<nat>)
    requires AllSane(calls)
    ensures |r| == |calls|
  {
    seq(|calls|, i requires 0 <= i < |calls| => Share(calls[i], l, role))
  }

  // The first k numbers added up.
  function Sum(ns: seq<nat>, k: nat): nat
    requires k <= |ns|
  {
    if k == 0 then 0 else Sum(ns, k - 1) + ns[k - 1]
  }

  // Over all calls, how many times l is held or awaited in this role.
  function Tally(calls: seq<Call>, l: Lock, role: Role): nat
    requires AllSane(calls)
  {
    Sum(Shares(calls, l, role), |calls|)
  }

  function One(b: bool): nat {
    if b then 1 else 0
  }

  // A lock's state counts exactly those who hold it and those who wait to write.
  ghost predicate Conserved(s: System, l: Lock)
    requires AllSane(s.calls)
  {
    var rw := At(s, l);
    && rw.readers == Tally(s.calls, l, Reader)
    && One(rw.writer.Active?) == Tally(s.calls, l, Writes)
    && One(rw.writer.Pending?) == Tally(s.calls, l, Waits)
    && (rw.writer.Active? ==> rw.readers == 0)
  }

  ghost predicate Counted(s: System) {
    AllSane(s.calls) && forall l :: Conserved(s, l)
  }

  // Every call follows the plan for its path, and the tables it needs are there.
  ghost predicate Filed(s: System) {
    && s.tLock.Keys == s.mLock.Keys
    && forall i :: 0 <= i < |s.calls| ==>
         var c := s.calls[i];
         Planned(c) && c.rep in s.tLock && c.path in s.tLock[c.rep]
  }

  // Not an exclusive request for "//", which would lock the root twice.
  predicate Steady(c: Call) {
    c.path != "/" || c.mode.Shared?
  }

  predicate AllSteady(calls: seq<Call>) {
    forall i :: 0 <= i < |calls| ==> Steady(calls[i])
  }

  // An exclusive request for "//" never gets past its first lock on the root.
  ghost predicate Jammed(s: System) {
    forall i :: 0 <= i < |s.calls| && !Steady(s.calls[i]) ==> s.calls[i].taken <= 2 < |s.calls[i].plan|
  }

  ghost predicate Inv(s: System) {
    Counted(s) && Filed(s) && Jammed(s)
  }

  lemma {:induction false} SumUpdate(ns: seq<nat>, i: nat, x: nat, k: nat)
    requires i < |ns| && k <= |ns|
    ensures Sum(ns[i := x], k) + (if i < k then ns[i] else 0) == Sum(ns, k) + (if i < k then x else 0)
  {
    if k > 0 {
      SumUpdate(ns, i, x, k - 1);
    }
  }

  lemma {:induction false} SumAppend(ns: seq<nat>, x: nat, k: nat)
    requires k <= |ns|
    ensures Sum(ns + [x], k) == Sum(ns, k)
  {
    if k > 0 {
      SumAppend(ns, x, k - 1);
    }
  }

  lemma {:induction false} SumAtLeast(ns: seq<nat>, i: nat, k: nat)
    requires i < k <= |ns|
    ensures ns[i] <= Sum(ns, k)
  {
    if i < k - 1 {
      SumAtLeast(ns, i, k - 1);
    }
  }

  lemma {:induction false} SumOfTwo(ns: seq<nat>, i: nat, j: nat, k: nat)
    requires i < j < k <= |ns|
    ensures ns[i] + ns[j] <= Sum(ns, k)
  {
    if j < k - 1 {
      SumOfTwo(ns, i, j, k - 1);
    } else {
      SumAtLeast(ns, i, j);
    }
  }

  lemma {:induction false} SumWitness(ns: seq<nat>, k: nat) returns (i: nat)
    requires k <= |ns| && Sum(ns, k) > 0
    ensures i < k && ns[i] > 0
  {
    i := k - 1;
    if ns[i] == 0 {
      i := SumWitness(ns, k - 1);
    }
  }

  lemma TallyUpdate(calls: seq<Call>, i: nat, c: Call, l: Lock, role: Role)
    requires AllSane(calls) && i < |calls| && Sane(c)
    ensures AllSane(calls[i := c])
    ensures Tally(calls[i := c], l, role) + Share(calls[i], l, role) == Tally(calls, l, role) + Share(c, l, role)
  {
    assert Shares(calls[i := c], l, role) == Shares(calls, l, role)[i := Share(c, l, role)];
    SumUpdate(Shares(calls, l, role), i, Share(c, l, role), |calls|);
  }

  lemma TallyAppend(calls: seq<Call>, c: Call, l: Lock, role: Role)
    requires AllSane(calls) && Sane(c)
    ensures AllSane(calls + [c]) && Tally(calls + [c], l, role) == Tally(calls, l, role) + Share(c, l, role)
  {
    assert Shares(calls + [c], l, role) == Shares(calls, l, role) + [Share(c, l, role)];
    SumAppend(Shares(calls, l, role), Share(c, l, role), |calls|);
  }

  lemma TallyAtLeast(calls: seq<Call>, i: nat, l: Lock, role: Role)
    requires AllSane(calls) && i < |calls|
    ensures Share(calls[i], l, role) <= Tally(calls, l, role)
  {
    SumAtLeast(Shares(calls, l, role), i, |calls|);
  }

  lemma TallyTwo(calls: seq<Call>, i: nat, j: nat, l: Lock, role: Role)
    requires AllSane(calls) && i < j < |calls|
    ensures Share(calls[i], l, role) + Share(calls[j], l, role) <= Tally(calls, l, role)
  {
    SumOfTwo(Shares(calls, l, role), i, j, |calls|);
  }

  lemma TallyWitness(calls: seq<Call>, l: Lock, role: Role) returns (i: nat)
    requires AllSane(calls) && Tally(calls, l, role) > 0
    ensures i < |calls| && Share(calls[i], l, role) > 0
  {
    i := SumWitness(Shares(calls, l, role), |calls|);
  }

  // ---- Every step conserves -------------------------------------------------------------------

  // Taking the next lock adds it to what the call has; dropping removes the first.
  lemma TakenShares(c: Call, l: Lock, role: Role)
    requires Sane(c) && InFlight(c)
    ensures var c1, w := c.(taken := c.taken + 1, announced := false), NextWant(c);
      && Sane(c1)
      && (role.Waits? ==> Share(c1, l, role) == 0)
      && (!role.Waits? ==> Share(c1, l, role) == Share(c, l, role) + One(w == Want(l, role.Writes?)))
  {
    var c1 := c.(taken := c.taken + 1, announced := false);
    assert Has(c1) == Has(c) + [NextWant(c)];
  }

  lemma DroppedShares(c: Call, l: Lock, role: Role)
    requires Sane(c) && Holding(c)
    ensures var c1, w := c.(released := c.released + 1), c.plan[c.released];
      && Sane(c1)
      && (role.Waits? ==> Share(c1, l, role) == Share(c, l, role) == 0)
      && (!role.Waits? ==> Share(c, l, role) == Share(c1, l, role) + One(w == Want(l, role.Writes?)))
  {
    var c1 := c.(released := c.released + 1);
    assert Has(c) == [c.plan[c.released]] + Has(c1);
  }

  lemma AnnouncedShares(c: Call, l: Lock, role: Role)
    requires Sane(c) && InFlight(c) && NextWant(c).exclusive && !c.announced
    ensures var c1 := c.(announced := true);
      && Sane(c1)
      && (!role.Waits? ==> Share(c1, l, role) == Share(c, l, role))
      && (role.Waits? ==> Share(c, l, role) == 0 && Share(c1, l, role) == One(NextWant(c).lock == l))
  {
    var c1 := c.(announced := true);
  }

  lemma EnterConserves(s: System, rep: int, path: string, c: Call, l: Lock)
    requires AllSane(s.calls) && Conserved(s, l) && s.tLock.Keys <= s.mLock.Keys
    requires c.taken == c.released == 0 && !c.announced
    ensures Sane(c) && AllSane(s.calls + [c]) && Conserved(Prepared(s, rep, path).(calls := s.calls + [c]), l)
  {
    assert Sane(c);
    NewcomerHasNothing(s.calls, c, l);
    PreparedIsInvisible(s, rep, path, l);
  }

  lemma NewcomerHasNothing(calls: seq<Call>, c: Call, l: Lock)
    requires AllSane(calls) && Sane(c) && c.taken == c.released == 0 && !c.announced
    ensures AllSane(calls + [c])
    ensures Tally(calls + [c], l, Reader) == Tally(calls, l, Reader)
    ensures Tally(calls + [c], l, Writes) == Tally(calls, l, Writes)
    ensures Tally(calls + [c], l, Waits) == Tally(calls, l, Waits)
  {
    assert Has(c) == [];
    TallyAppend(calls, c, l, Reader);
    TallyAppend(calls, c, l, Writes);
    TallyAppend(calls, c, l, Waits);
  }

  lemma PreparedIsInvisible(s: System, rep: int, path: string, l: Lock)
    requires s.tLock.Keys <= s.mLock.Keys
    ensures At(Prepared(s, rep, path), l) == At(s, l) && Prepared(s, rep, path).calls == s.calls
  {
  }

  // A call and a lock that change together: what the call has of the lock changes as the lock's state does.
  lemma MoveConserves(s: System, i: nat, c1: Call, at: Lock, rw: RW, l: Lock)
    requires AllSane(s.calls) && i < |s.calls| && Sane(c1) && Conserved(s, l)
    requires Balanced(s.calls[i], At(s, l), c1, if l == at then rw else At(s, l), l)
    requires rw.writer.Active? ==> rw.readers == 0
    ensures AllSane(s.calls[i := c1]) && Conserved(With(s, at, rw).(calls := s.calls[i := c1]), l)
  {
    TallyUpdate(s.calls, i, c1, l, Reader);
    TallyUpdate(s.calls, i, c1, l, Writes);
    TallyUpdate(s.calls, i, c1, l, Waits);
    AtWith(s, at, rw, l);
  }

  lemma AnnounceConserves(s: System, i: nat, l: Lock)
    requires Counted(s) && Enabled(s, Announce(i))
    ensures AllSane(Next(s, Announce(i)).calls) && Conserved(Next(s, Announce(i)), l)
  {
    var c := s.calls[i];
    var at := NextWant(c).lock;
    assert Conserved(s, l);
    AnnouncedShares(c, l, Reader);
    AnnouncedShares(c, l, Writes);
    AnnouncedShares(c, l, Waits);
    MoveConserves(s, i, c.(announced := true), at, At(s, at).(writer := Pending), l);
  }

  // What a call and a lock's state have in common before and after a step, for all roles.
  ghost predicate Balanced(c: Call, rw: RW, c1: Call, rw1: RW, l: Lock)
    requires Sane(c) && Sane(c1)
  {
    && rw1.readers + Share(c, l, Reader) == rw.readers + Share(c1, l, Reader)
    && One(rw1.writer.Active?) + Share(c, l, Writes) == One(rw.writer.Active?) + Share(c1, l, Writes)
    && One(rw1.writer.Pending?) + Share(c, l, Waits) == One(rw.writer.Pending?) + Share(c1, l, Waits)
  }

  lemma TakeBalances(c: Call, rw: RW, l: Lock)
    requires Sane(c) && InFlight(c)
    requires NextWant(c).lock == l ==>
      if NextWant(c).exclusive then c.announced && rw.writer.Pending? else rw.writer.Free?
    ensures var c1, w := c.(taken := c.taken + 1, announced := false), NextWant(c);
      Sane(c1) && Balanced(c, rw, c1, if l == w.lock then Locked(rw, w.exclusive) else rw, l)
  {
    TakenShares(c, l, Reader);
    TakenShares(c, l, Writes);
    TakenShares(c, l, Waits);
  }

  lemma TakeConserves(s: System, i: nat, l: Lock)
    requires Counted(s) && Enabled(s, Take(i))
    ensures AllSane(Next(s, Take(i)).calls) && Conserved(Next(s, Take(i)), l)
  {
    TakeIsAllowed(s, i);
    assert Conserved(s, l);
    TakenConserves(s, i, l, NextWant(s.calls[i]));
  }

  lemma TakeIsAllowed(s: System, i: nat)
    requires Counted(s) && Enabled(s, Take(i))
    ensures var w := NextWant(s.calls[i]);
      var rw := At(s, w.lock);
      Sane(s.calls[i]) && if w.exclusive then s.calls[i].announced && rw.writer.Pending? && rw.readers == 0
          else rw.writer.Free?
  {
    if s.calls[i].announced {
      AnnouncedIsPending(s, i);
    }
    assert Sane(s.calls[i]);
  }

  lemma TakenConserves(s: System, i: nat, l: Lock, w: Want)
    requires AllSane(s.calls) && i < |s.calls| && InFlight(s.calls[i]) && w == NextWant(s.calls[i]) && Conserved(s, l)
    requires var rw := At(s, w.lock);
      if w.exclusive then s.calls[i].announced && rw.writer.Pending? && rw.readers == 0 else rw.writer.Free?
    ensures var c1 := s.calls[i].(taken := s.calls[i].taken + 1, announced := false);
      var s1 := With(s, w.lock, Locked(At(s, w.lock), w.exclusive)).(calls := s.calls[i := c1]);
      AllSane(s1.calls) && Conserved(s1, l)
  {
    var c := s.calls[i];
    TakeBalances(c, At(s, l), l);
    MoveConserves(s, i, c.(taken := c.taken + 1, announced := false), w.lock, Locked(At(s, w.lock), w.exclusive), l);
  }

  lemma ReadersBarWriter(s: System, l: Lock)
    requires Counted(s)
    ensures At(s, l).writer.Active? ==> At(s, l).readers == 0
  {
    assert Conserved(s, l);
  }

  lemma DropConserves(s: System, i: nat, l: Lock)
    requires Counted(s) && Enabled(s, Drop(i))
    ensures AllSane(Next(s, Drop(i)).calls) && Conserved(Next(s, Drop(i)), l)
  {
    var c := s.calls[i];
    var w := c.plan[c.released];
    assert Conserved(s, l);
    DroppedShares(c, l, Reader);
    DroppedShares(c, l, Writes);
    DroppedShares(c, l, Waits);
    ReadersBarWriter(s, w.lock);
    DropFindsItLocked(s, i);
    MoveConserves(s, i, c.(released := c.released + 1), w.lock, Given(At(s, w.lock), w.exclusive), l);
  }

  // Release never unlocks what is not locked: Go would stop the server if it did.
  lemma DropFindsItLocked(s: System, i: nat)
    requires Counted(s) && Enabled(s, Drop(i))
    ensures var w := s.calls[i].plan[s.calls[i].released];
      if w.exclusive then At(s, w.lock).writer.Active? else At(s, w.lock).readers > 0
  {
    var c := s.calls[i];
    var w := c.plan[c.released];
    assert Conserved(s, w.lock);
    var role := if w.exclusive then Writes else Reader;
    DroppedShares(c, w.lock, role);
    TallyAtLeast(s.calls, i, w.lock, role);
  }

  lemma StepCounts(s: System, e: Event, l: Lock)
    requires Inv(s) && Enabled(s, e)
    ensures AllSane(Next(s, e).calls) && Conserved(Next(s, e), l)
  {
    match e
    case Enter(rep, raw, mode) =>
      assert Conserved(s, l);
      EnterConserves(s, rep, FilterPath(raw).path, Next(s, e).calls[|s.calls|], l);
    case Announce(i) => AnnounceConserves(s, i, l);
    case Take(i) => TakeConserves(s, i, l);
    case Drop(i) => DropConserves(s, i, l);
  }

  lemma StepFiles(s: System, e: Event)
    requires Filed(s) && AllSane(s.calls) && Enabled(s, e)
    ensures Filed(Next(s, e))
  {
    match e
    case Enter(rep, raw, mode) => EnterFiles(s, rep, raw, mode);
    case Announce(i) =>
      var c := s.calls[i];
      WantsOwnTables(c, c.taken);
      MoveFiles(s, i, c.(announced := true), NextWant(c).lock, At(s, NextWant(c).lock).(writer := Pending));
    case Take(i) =>
      var c := s.calls[i];
      WantsOwnTables(c, c.taken);
      MoveFiles(s, i, c.(taken := c.taken + 1, announced := false), NextWant(c).lock,
                Locked(At(s, NextWant(c).lock), NextWant(c).exclusive));
    case Drop(i) =>
      var c := s.calls[i];
      var w := c.plan[c.released];
      WantsOwnTables(c, c.released);
      MoveFiles(s, i, c.(released := c.released + 1), w.lock, Given(At(s, w.lock), w.exclusive));
  }

  lemma EnterFiles(s: System, rep: int, raw: string, mode: Mode)
    requires Filed(s) && FilterPath(raw).Path?
    ensures Filed(Next(s, Enter(rep, raw, mode)))
  {
    FilteredIsAccepted(raw);
    PreparedFiles(s, rep, FilterPath(raw).path);
  }

  lemma PreparedFiles(s: System, rep: int, path: string)
    requires s.tLock.Keys == s.mLock.Keys
    ensures var s1 := Prepared(s, rep, path);
      && s1.tLock.Keys == s1.mLock.Keys && rep in s1.tLock && path in s1.tLock[rep]
      && forall r, p :: r in s.tLock && p in s.tLock[r] ==> r in s1.tLock && p in s1.tLock[r]
  {
  }

  lemma WantsOwnTables(c: Call, k: nat)
    requires Planned(c) && k < |c.plan|
    ensures c.plan[k].lock.rep == c.rep
  {
  }

  lemma MoveFiles(s: System, i: nat, c1: Call, at: Lock, rw: RW)
    requires Filed(s) && i < |s.calls| && at.rep == s.calls[i].rep
    requires c1 == s.calls[i].(taken := c1.taken, announced := c1.announced, released := c1.released)
    ensures Filed(With(s, at, rw).(calls := s.calls[i := c1]))
  {
  }

  lemma AnnouncedIsPending(s: System, i: nat)
    requires Counted(s) && i < |s.calls| && s.calls[i].announced
    ensures InFlight(s.calls[i]) && At(s, NextWant(s.calls[i]).lock).writer.Pending?
  {
    assert Sane(s.calls[i]);
    var l := NextWant(s.calls[i]).lock;
    assert Conserved(s, l);
    TallyAtLeast(s.calls, i, l, Waits);
  }

  lemma DoubleSlashPlan(c: Call)
    requires Planned(c) && !Steady(c)
    ensures c.plan == [Want(Whole(c.rep, "/"), true), Want(Level(c.rep, "/"), true), Want(Level(c.rep, "/"), true)]
  {
    var path := c.path;
    PrefixesShape(path);
    assert path[1..] == "";
    LevelsOpen(path, path[1..]);
  }

  // The second lock on the root waits for the first to go.
  lemma CannotTakeTwice(s: System, i: nat)
    requires Counted(s) && i < |s.calls| && Planned(s.calls[i]) && !Steady(s.calls[i]) && s.calls[i].taken == 2
    ensures !Enabled(s, Take(i)) && !Enabled(s, Announce(i))
  {
    var c := s.calls[i];
    DoubleSlashPlan(c);
    assert Sane(c);
    var l := Level(c.rep, "/");
    assert c.plan[1] in Has(c);
    assert Conserved(s, l);
    TallyAtLeast(s.calls, i, l, Writes);
    if c.announced {
      AnnouncedIsPending(s, i);
    }
  }

  lemma StepJams(s: System, e: Event)
    requires Inv(s) && Enabled(s, e)
    ensures Jammed(Next(s, e))
  {
    forall i: nat | i < |Next(s, e).calls| && !Steady(Next(s, e).calls[i])
      ensures Next(s, e).calls[i].taken <= 2 < |Next(s, e).calls[i].plan|
    {
      if i == |s.calls| {
        FilteredIsAccepted(e.raw);
        DoubleSlashPlan(Next(s, e).calls[i]);
      } else if s.calls[i].taken == 2 {
        assert Planned(s.calls[i]);
        CannotTakeTwice(s, i);
      }
    }
  }

  lemma StepInv(s: System, e: Event)
    requires Inv(s) && Enabled(s, e)
    ensures Inv(Next(s, e))
  {
    forall l ensures AllSane(Next(s, e).calls) && Conserved(Next(s, e), l) {
      StepCounts(s, e, l);
    }
    StepCounts(s, e, Whole(0, ""));
    StepFiles(s, e);
    StepJams(s, e);
  }

  // ---- Runs -----------------------------------------------------------------------------------

  ghost predicate IsRun(states: seq<System>, events: seq<Event>) {
    && |states| == |events| + 1 && states[0] == Start()
    && forall k :: 0 <= k < |events| ==> Enabled(states[k], events[k]) && states[k + 1] == Next(states[k], events[k])
  }

  // In every reachable state every lock counts exactly its holders.
  lemma {:induction false} RunInv(states: seq<System>, events: seq<Event>, k: nat)
    requires IsRun(states, events) && k < |states|
    ensures Inv(states[k])
    decreases k
  {
    if k > 0 {
      RunInv(states, events, k - 1);
      StepInv(states[k - 1], events[k - 1]);
    }
  }
}
