/** Conflicting instances are ordered by Seq at a replica their quorums share. */
module EpaxosConflicts {
  import opened Options
  import opened EpaxosTypes
  import opened EpaxosScan
  import opened EpaxosHandlers
  import opened EpaxosProtocol
  import opened EpaxosInstance
  import opened EpaxosSafety
  import opened EpaxosTheorems

  datatype Id = Id(lead: nat, slot: nat)

  function At(g: System, r: nat, id: Id): Option<Instance>
    requires g.Valid() && r < g.n
  {
    Held(g, r, id.lead, id.slot)
  }

  // The instance a step makes its replica log for the first time, if any.
  function NewId(g: System, ev: Event): (r: Option<(nat, Id)>)
    requires g.Valid() && Enabled(g, ev)
  {
    match ev
    case ProposeAt(p, _) => Some((p, Id(p, |g.reps[p].logs[p]|)))
    case Deliver(from, to) =>
      (match g.reps[from].out[to][0]
       case PreAccept(i) => Some((to, Id(i.rep, i.slot)))
       case Accept(i) => Some((to, Id(from, i.slot)))
       case Commit(i) => Some((to, Id(i.rep, i.slot)))
       case _ => None)
    case _ => None
  }

  lemma HandlerLogs(s: Replica, from: nat, m: Message, id: Id)
    requires s.Valid() && from < s.n && Accepts(s, from, m)
    requires Entry(s.logs, id.lead, id.slot).None? && Entry(Handle(s, from, m).logs, id.lead, id.slot).Some?
    ensures match m
      case PreAccept(i) =>
        id == Id(i.rep, i.slot)
        && Entry(Handle(s, from, m).logs, id.lead, id.slot) == Some(Merged(s.logs, i))
      case Accept(i) => id == Id(from, i.slot)
      case Commit(i) => id == Id(i.rep, i.slot)
      case _ => false
  {
  }

  lemma OnlyNewId(g: System, ev: Event, r: nat, id: Id)
    requires g.Valid() && Enabled(g, ev) && r < g.n && id.lead < g.n
    requires At(g, r, id).None? && At(Next(g, ev), r, id).Some?
    ensures NewId(g, ev) == Some((r, id))
  {
    match ev
    case ProposeAt(p, ops) =>
    case Deliver(from, to) => OnlyNewDelivered(g, from, to, r, id);
    case FireCommit(p, slot) =>
    case ExecuteAt(p, order) =>
      ExecutedView(g, p, order, id.lead, id.slot);
  }

  lemma OnlyNewDelivered(g: System, from: nat, to: nat, r: nat, id: Id)
    requires g.Valid() && Enabled(g, Deliver(from, to)) && r < g.n && id.lead < g.n
    requires At(g, r, id).None? && At(Next(g, Deliver(from, to)), r, id).Some?
    ensures NewId(g, Deliver(from, to)) == Some((r, id))
  {
    DeliveredNext(g, from, to);
    assert r == to;
    HandlerLogs(g.reps[to], from, g.reps[from].out[to][0], id);
  }

  // A quorum member logs an instance for the first time only by proposing it or by pre-accepting
  // it, so under a Seq above that of every conflicting instance it already holds.
  lemma FirstLogging(g: System, ev: Event, r: nat, id: Id, other: Id)
    requires Inv(g) && Enabled(g, ev) && r < g.n && id.lead < g.n && other.lead < g.n && r in Quorum(g.n, id.lead)
    requires At(g, r, id).None? && At(Next(g, ev), r, id).Some?
    ensures At(g, r, other).Some? && Conflict(At(g, r, other).value.ops, At(Next(g, ev), r, id).value.ops) ==>
      At(g, r, other).value.seqNo < At(Next(g, ev), r, id).value.seqNo
  {
    var s := g.reps[r];
    OnlyNewId(g, ev, r, id);
    var x := At(Next(g, ev), r, id).value;
    assert x.seqNo > Scan(s.logs, x.ops).0 by {
      if ev.Deliver? {
        FirstByPreAccept(g, ev.from, ev.to, r, id);
      }
    }
    if At(g, r, other).Some? && Conflict(At(g, r, other).value.ops, x.ops) {
      ScanIsAbove(s.logs, x.ops, other.lead, other.slot);
    }
  }

  lemma ScanIsAbove(logs: Log, ops: seq<Operation>, rep: nat, slot: nat)
    requires Entry(logs, rep, slot).Some? && Conflict(Entry(logs, rep, slot).value.ops, ops)
    ensures Entry(logs, rep, slot).value.seqNo <= Scan(logs, ops).0
  {
    ScanMeaning(logs, ops);
    assert ConflictAt(logs, rep, slot, ops);
  }

  // A quorum member always pre-accepts before it hears of an acceptance or a commit.
  lemma FirstByPreAccept(g: System, from: nat, to: nat, r: nat, id: Id)
    requires Inv(g) && Enabled(g, Deliver(from, to)) && r < g.n && id.lead < g.n && r in Quorum(g.n, id.lead)
    requires At(g, r, id).None? && At(Next(g, Deliver(from, to)), r, id).Some?
    ensures r == to && g.reps[from].out[to][0].PreAccept?
    ensures At(Next(g, Deliver(from, to)), r, id) == Some(Merged(g.reps[r].logs, g.reps[from].out[to][0].inst))
  {
    OnlyNewId(g, Deliver(from, to), r, id);
    var m := g.reps[from].out[to][0];
    HandlerLogs(g.reps[to], from, m, id);
    if m.Accept? || m.Commit? {
      TellHead(g, from, to);
      ToldMembersHold(g, from, to);
    }
  }

  // Whoever is told of an acceptance or a commit as a quorum member holds the instance already.
  lemma ToldMembersHold(g: System, from: nat, to: nat)
    requires Inv(g) && Enabled(g, Deliver(from, to)) && to in Quorum(g.n, from)
    requires g.reps[from].out[to][0].Accept? || g.reps[from].out[to][0].Commit?
    ensures var i := g.reps[from].out[to][0].inst; i.rep == from && Held(g, to, from, i.slot).Some?
  {
    TellHead(g, from, to);
    var m := g.reps[from].out[to][0];
    var v := ViewOf(g, from, m.inst.slot);
    assert v.entries[to] == Held(g, to, from, m.inst.slot);
    ForwardHead(g.n, from, m.inst.slot, v, to);
    if m.Accept? {
      Standing(g.n, from, m.inst.slot, v, to);
    }
  }

  lemma StartHoldsNothing(n: nat, r: nat, id: Id)
    requires n >= 2 && r < n
    ensures Start(n).Valid() && At(Start(n), r, id).None?
  {
  }

  lemma {:induction false} FirstIndex(n: nat, run: seq<System>, evs: seq<Event>, r: nat, id: Id, j: nat)
    returns (i: nat)
    requires IsRun(n, run, evs) && j < |run| && r < n && id.lead < n
    requires run[j].Valid() && run[j].n == n && At(run[j], r, id).Some?
    ensures i < j && run[i].Valid() && run[i + 1].Valid() && run[i].n == run[i + 1].n == n
    ensures At(run[i], r, id).None? && At(run[i + 1], r, id).Some?
  {
    StartHoldsNothing(n, r, id);
    RunValid(n, run, evs, j - 1);
    if At(run[j - 1], r, id).Some? {
      i := FirstIndex(n, run, evs, r, id, j - 1);
    } else {
      i := j - 1;
    }
  }

  // At step i replica r, which already held 'first', logs 'second'; the Seq under which it held
  // 'first' is below s.
  ghost predicate LoggedBelow(run: seq<System>, i: nat, r: nat, first: Id, second: Id, s: int) {
    && i + 1 < |run| && run[i].Valid() && run[i + 1].Valid() && r < run[i].n == run[i + 1].n
    && r in Quorum(run[i].n, first.lead) && r in Quorum(run[i].n, second.lead)
    && At(run[i], r, first).Some? && At(run[i], r, second).None? && At(run[i + 1], r, second).Some?
    && At(run[i], r, first).value.seqNo < s
  }

  ghost predicate DecidedIn(g: System, id: Id, x: Instance) {
    && g.Valid() && id.lead < g.n
    && exists r: nat :: r < g.n && At(g, r, id) == Some(x) && x.Decided()
  }

  // Once an instance is decided, every quorum member holds it as decided on by the leader.
  lemma QuorumHolds(g: System, r: nat, id: Id, x: Instance)
    requires Inv(g) && r < g.n && r in Quorum(g.n, id.lead) && DecidedIn(g, id, x)
    ensures id.lead < g.n && At(g, r, id).Some? && SameDecision(At(g, r, id).value, x)
    ensures At(g, id.lead, id).Some? && At(g, id.lead, id).value.Decided() && SameDecision(At(g, id.lead, id).value, x)
  {
    var q: nat :| q < g.n && At(g, q, id) == Some(x);
    DecidedAtLeader(g, q, id.lead, id.slot);
    if r != id.lead {
      InvAt(g, id.lead, id.slot);
      var v := ViewOf(g, id.lead, id.slot);
      assert v.entries[r] == At(g, r, id) && v.entries[id.lead] == At(g, id.lead, id);
      Standing(g.n, id.lead, id.slot, v, r);
    }
  }

  // The decided Seq is at least every Seq a quorum member ever held the instance under.
  lemma DecidedIsAbove(n: nat, run: seq<System>, evs: seq<Event>, i: nat, r: nat, id: Id, x: Instance)
    requires IsRun(n, run, evs) && i < |run| && r < n && id.lead < n && r in Quorum(n, id.lead)
    requires DecidedIn(run[|evs|], id, x)
    ensures run[i].Valid() && run[i].n == n
    ensures At(run[i], r, id).Some? ==>
      At(run[i], r, id).value.seqNo <= x.seqNo && SameOps(At(run[i], r, id).value.ops, x.ops)
  {
    RunInv(n, run, evs, i);
    RunInv(n, run, evs, |evs|);
    NeverBackwards(n, run, evs, i, |evs|, r, id.lead, id.slot);
    QuorumHolds(run[|evs|], r, id, x);
  }

  lemma LaterIsAbove(n: nat, run: seq<System>, evs: seq<Event>, i: nat, r: nat, first: Id, second: Id, x: Instance,
                     y: Instance)
    requires IsRun(n, run, evs) && i < |evs| && r < n && first.lead < n && second.lead < n
    requires r in Quorum(n, first.lead) && r in Quorum(n, second.lead)
    requires DecidedIn(run[|evs|], first, x) && DecidedIn(run[|evs|], second, y) && Conflict(x.ops, y.ops)
    requires run[i].Valid() && run[i + 1].Valid() && run[i].n == run[i + 1].n == n
    requires At(run[i], r, first).Some? && At(run[i], r, second).None? && At(run[i + 1], r, second).Some?
    ensures LoggedBelow(run, i, r, first, second, y.seqNo)
  {
    RunInv(n, run, evs, i);
    assert StepOf(run[i], evs[i], run[i + 1]);
    DecidedIsAbove(n, run, evs, i, r, first, x);
    DecidedIsAbove(n, run, evs, i + 1, r, second, y);
    SameOpsConflict(At(run[i], r, first).value.ops, x.ops, At(run[i + 1], r, second).value.ops, y.ops);
    FirstLogging(run[i], evs[i], r, second, first);
  }

  // One step never makes a replica log two instances.
  lemma LoggedOneAtATime(n: nat, run: seq<System>, evs: seq<Event>, i: nat, r: nat, a: Id, b: Id)
    requires IsRun(n, run, evs) && i < |evs| && r < n && a.lead < n && b.lead < n
    requires run[i].Valid() && run[i + 1].Valid() && run[i].n == run[i + 1].n == n
    requires At(run[i], r, a).None? && At(run[i + 1], r, a).Some?
    requires At(run[i], r, b).None? && At(run[i + 1], r, b).Some?
    ensures a == b
  {
    assert StepOf(run[i], evs[i], run[i + 1]);
    OnlyNewId(run[i], evs[i], r, a);
    OnlyNewId(run[i], evs[i], r, b);
  }

  // Replica r of both quorums logged 'first' at step i and 'second' at a later step j.
  lemma LoggedInTurn(n: nat, run: seq<System>, evs: seq<Event>, i: nat, j: nat, r: nat, first: Id, second: Id,
                     x: Instance, y: Instance)
    requires IsRun(n, run, evs) && i < j < |evs| && r < n && first.lead < n && second.lead < n
    requires r in Quorum(n, first.lead) && r in Quorum(n, second.lead)
    requires DecidedIn(run[|evs|], first, x) && DecidedIn(run[|evs|], second, y) && Conflict(x.ops, y.ops)
    requires run[i + 1].Valid() && run[i + 1].n == n && At(run[i + 1], r, first).Some?
    requires run[j].Valid() && run[j + 1].Valid() && run[j].n == run[j + 1].n == n
    requires At(run[j], r, second).None? && At(run[j + 1], r, second).Some?
    ensures LoggedBelow(run, j, r, first, second, y.seqNo)
  {
    NeverBackwards(n, run, evs, i + 1, j, r, first.lead, first.slot);
    LaterIsAbove(n, run, evs, j, r, first, second, x, y);
  }

  // For any two decided instances that share a key, some replica of both quorums logged one of them
  // while already holding the other, and the later one was decided under a Seq above the Seq under
  // which that replica then held the earlier.
  lemma ConflictsAreOrdered(n: nat, run: seq<System>, evs: seq<Event>, a: Id, b: Id, x: Instance, y: Instance)
    requires IsRun(n, run, evs) && a != b
    requires DecidedIn(run[|evs|], a, x) && DecidedIn(run[|evs|], b, y) && Conflict(x.ops, y.ops)
    ensures exists i: nat, r: nat :: LoggedBelow(run, i, r, a, b, y.seqNo) || LoggedBelow(run, i, r, b, a, x.seqNo)
  {
    RunInv(n, run, evs, |evs|);
    var r := QuorumsMeet(n, a.lead, b.lead);
    var i := FirstLogged(n, run, evs, r, a, x);
    var j := FirstLogged(n, run, evs, r, b, y);
    if i == j {
      LoggedOneAtATime(n, run, evs, i, r, a, b);
    } else if i < j {
      LoggedInTurn(n, run, evs, i, j, r, a, b, x, y);
    } else {
      ConflictSymmetric(x.ops, y.ops);
      LoggedInTurn(n, run, evs, j, i, r, b, a, y, x);
    }
  }

  // When a quorum member first logged a decided instance.
  lemma FirstLogged(n: nat, run: seq<System>, evs: seq<Event>, r: nat, id: Id, x: Instance) returns (i: nat)
    requires IsRun(n, run, evs) && r < n && r in Quorum(n, id.lead) && DecidedIn(run[|evs|], id, x)
    ensures id.lead < n && i < |evs| && run[i].Valid() && run[i + 1].Valid() && run[i].n == run[i + 1].n == n
    ensures At(run[i], r, id).None? && At(run[i + 1], r, id).Some?
  {
    RunInv(n, run, evs, |evs|);
    QuorumHolds(run[|evs|], r, id, x);
    i := FirstIndex(n, run, evs, r, id, |evs|);
  }

  // ---- The fast path --------------------------------------------------------------------------

  // Decided without a second phase: the leader's record was never changed.
  ghost predicate FastIn(g: System, id: Id, x: Instance) {
    && DecidedIn(g, id, x)
    && At(g, id.lead, id).Some? && !At(g, id.lead, id).value.changed
  }

  // A quorum member held a fast instance under its decided Seq from the start.
  lemma FastSeqIsFixed(n: nat, run: seq<System>, evs: seq<Event>, i: nat, r: nat, id: Id, x: Instance)
    requires IsRun(n, run, evs) && i < |run| && r < n && r in Quorum(n, id.lead) && FastIn(run[|evs|], id, x)
    ensures run[i].Valid() && run[i].n == n && id.lead < n
    ensures At(run[i], r, id).Some? ==> At(run[i], r, id).value.seqNo == x.seqNo
  {
    var last := run[|evs|];
    RunInv(n, run, evs, i);
    RunInv(n, run, evs, |evs|);
    DecidedIsAbove(n, run, evs, i, r, id, x);
    if At(run[i], r, id).Some? {
      InvAt(run[i], id.lead, id.slot);
      InvAt(last, id.lead, id.slot);
      var v, w := ViewOf(run[i], id.lead, id.slot), ViewOf(last, id.lead, id.slot);
      assert v.entries[r] == At(run[i], r, id) && w.entries[id.lead] == At(last, id.lead, id);
      RunGrows(n, run, evs, i, |evs|, id.lead, id.slot);
      if r != id.lead {
        Standing(n, id.lead, id.slot, v, r);
      }
      QuorumHolds(last, r, id, x);
    }
  }

  lemma {:induction false} RunGrows(n: nat, run: seq<System>, evs: seq<Event>, i: nat, j: nat, lead: nat, slot: nat)
    requires IsRun(n, run, evs) && i <= j < |run| && lead < n
    ensures run[i].Valid() && run[j].Valid() && run[i].n == run[j].n == n
    ensures var v, w := ViewOf(run[i], lead, slot), ViewOf(run[j], lead, slot);
      && (v.born.Some? ==> w.born == v.born)
      && (v.entries[lead].Some? && v.entries[lead].value.changed ==>
          w.entries[lead].Some? && w.entries[lead].value.changed)
    decreases j - i
  {
    RunInv(n, run, evs, i);
    RunInv(n, run, evs, j);
    if i < j {
      assert StepOf(run[i], evs[i], run[i + 1]);
      StepInv(run[i], evs[i]);
      assert Grows(n, lead, ViewOf(run[i], lead, slot), ViewOf(run[i + 1], lead, slot));
      RunGrows(n, run, evs, i + 1, j, lead, slot);
    }
  }

  // Two instances that share a key and were both decided on the fast path differ in Seq.
  lemma FastConflictsDiffer(n: nat, run: seq<System>, evs: seq<Event>, a: Id, b: Id, x: Instance, y: Instance)
    requires IsRun(n, run, evs) && a != b
    requires FastIn(run[|evs|], a, x) && FastIn(run[|evs|], b, y) && Conflict(x.ops, y.ops)
    ensures x.seqNo != y.seqNo
  {
    RunInv(n, run, evs, |evs|);
    ConflictsAreOrdered(n, run, evs, a, b, x, y);
    var i: nat, r: nat :| LoggedBelow(run, i, r, a, b, y.seqNo) || LoggedBelow(run, i, r, b, a, x.seqNo);
    RunInv(n, run, evs, i);
    if LoggedBelow(run, i, r, a, b, y.seqNo) {
      FastSeqIsFixed(n, run, evs, i, r, a, x);
    } else {
      FastSeqIsFixed(n, run, evs, i, r, b, y);
    }
  }
}
