/** What an instance is decided under: the maximum of what the quorum's logs demanded when they first met it. */
module EpaxosDecision {
  import opened Options
  import opened EpaxosTypes
  import opened EpaxosScan
  import opened EpaxosHandlers
  import opened EpaxosDemands
  import opened EpaxosExecution
  import opened EpaxosProtocol
  import opened EpaxosInstance
  import opened EpaxosSafety
  import opened EpaxosTheorems
  import opened EpaxosConflicts

  // ---- One event ------------------------------------------------------------------------------

  function BornOf(g: System, id: Id): Option<Instance> {
    if (id.lead, id.slot) in g.born then Some(g.born[(id.lead, id.slot)]) else None
  }

  predicate HasPart(x: Option<Instance>, n: nat, c: Part, v: int)
    requires Within(c, n)
  {
    x.Some? && |x.value.deps| == n && Of(x.value, c) == v
  }

  // Some replica logs the instance with this part, or it was proposed so.
  ghost predicate Known(g: System, id: Id, c: Part, v: int)
    requires g.Valid() && id.lead < g.n && Within(c, g.n)
  {
    HasPart(BornOf(g, id), g.n, c, v) || exists p: nat :: p < g.n && HasPart(At(g, p, id), g.n, c, v)
  }

  // Quorum member q logs the instance for the first time, and its log demands this of it.
  ghost predicate FirstDemand(g: System, g': System, q: nat, id: Id, c: Part, v: int) {
    && g.Valid() && g'.Valid() && q < g.n == g'.n && id.lead < g.n && q in Quorum(g.n, id.lead)
    && At(g, q, id).None? && At(g', q, id).Some?
    && Demanded(g.reps[q].logs, At(g', q, id).value.ops, c, v)
  }

  lemma EntryPlaced(g: System, q: nat, id: Id)
    requires Inv(g) && q < g.n && id.lead < g.n && At(g, q, id).Some?
    ensures Placed(g.n, id.lead, id.slot, At(g, q, id).value)
    ensures BornOf(g, id).Some? && Placed(g.n, id.lead, id.slot, BornOf(g, id).value)
    ensures SameOps(At(g, q, id).value.ops, BornOf(g, id).value.ops)
  {
    InvAt(g, id.lead, id.slot);
    var v := ViewOf(g, id.lead, id.slot);
    assert v.entries[q] == At(g, q, id) && v.entries[id.lead] == At(g, id.lead, id) && v.born == BornOf(g, id);
    if q != id.lead {
      Standing(g.n, id.lead, id.slot, v, q);
    }
  }

  // A part of a record is one the instance had before, or one that the log of a quorum member
  // demands when that member first logs it.
  ghost predicate PartComes(g: System, ev: Event, q: nat, id: Id, c: Part)
    requires g.Valid() && Enabled(g, ev) && q < g.n && id.lead < g.n && Within(c, g.n)
  {
    var x := At(Next(g, ev), q, id);
    x.Some? && |x.value.deps| == g.n ==>
      || Known(g, id, c, Of(x.value, c))
      || FirstDemand(g, Next(g, ev), q, id, c, Of(x.value, c))
  }

  lemma SamePart(g: System, ev: Event, q: nat, id: Id, c: Part)
    requires Inv(g) && Enabled(g, ev) && q < g.n && id.lead < g.n && Within(c, g.n)
    requires At(g, q, id).Some? && At(Next(g, ev), q, id).Some?
    requires var x, y := At(g, q, id).value, At(Next(g, ev), q, id).value; x.seqNo == y.seqNo && x.deps == y.deps
    ensures PartComes(g, ev, q, id, c)
  {
    assert |At(g, q, id).value.deps| == g.n ==> HasPart(At(g, q, id), g.n, c, Of(At(g, q, id).value, c));
  }

  lemma ComesByProposal(g: System, r: nat, ops: seq<Operation>, q: nat, id: Id, c: Part)
    requires Inv(g) && r < g.n && q < g.n && id.lead < g.n && Within(c, g.n)
    ensures PartComes(g, ProposeAt(r, ops), q, id, c)
  {
    var ev, s := ProposeAt(r, ops), g.reps[r];
    if q == r && id == Id(r, |s.logs[r]|) {
      ProposalDemanded(s, ops, c);
    } else if At(g, q, id).Some? {
      SamePart(g, ev, q, id, c);
    }
  }

  lemma DeliveredAt(g: System, from: nat, to: nat, q: nat, id: Id)
    requires g.Valid() && Enabled(g, Deliver(from, to)) && q < g.n
    ensures var s' := Handle(g.reps[to], from, g.reps[from].out[to][0]);
      At(Next(g, Deliver(from, to)), q, id) == if q == to then Entry(s'.logs, id.lead, id.slot) else At(g, q, id)
  {
  }

  lemma ComesByPreAccept(g: System, from: nat, to: nat, id: Id, c: Part)
    requires Inv(g) && Enabled(g, Deliver(from, to)) && id.lead < g.n && Within(c, g.n)
    requires g.reps[from].out[to][0].PreAccept?
    requires id == Id(from, g.reps[from].out[to][0].inst.slot)
    ensures PartComes(g, Deliver(from, to), to, id, c)
  {
    var b := g.reps[from].out[to][0].inst;
    AskHead(g, from, to);
    var v := ViewOf(g, from, b.slot);
    ForwardHead(g.n, from, b.slot, v, to);
    assert BornOf(g, id) == Some(b) && v.entries[to] == At(g, to, id);
    MergedPart(g.reps[to].logs, b, c);
    DeliveredAt(g, from, to, to, id);
    assert HasPart(BornOf(g, id), g.n, c, Of(b, c));
  }

  // An acceptance or a commit carries the leader's record.
  lemma ComesByTelling(g: System, from: nat, to: nat, id: Id, c: Part)
    requires Inv(g) && Enabled(g, Deliver(from, to)) && id.lead < g.n && Within(c, g.n)
    requires g.reps[from].out[to][0].Accept? || g.reps[from].out[to][0].Commit?
    requires id == Id(from, g.reps[from].out[to][0].inst.slot)
    ensures PartComes(g, Deliver(from, to), to, id, c)
  {
    TellHead(g, from, to);
    var m := g.reps[from].out[to][0];
    var v := ViewOf(g, from, m.inst.slot);
    ForwardHead(g.n, from, m.inst.slot, v, to);
    assert v.entries[from] == At(g, from, id);
    assert HasPart(At(g, from, id), g.n, c, Of(m.inst, c));
    DeliveredAt(g, from, to, to, id);
  }

  lemma ComesByAnswer(g: System, from: nat, to: nat, id: Id, c: Part)
    requires Inv(g) && Enabled(g, Deliver(from, to)) && id.lead < g.n && Within(c, g.n)
    requires g.reps[from].out[to][0].PreAcceptReply? && id == Id(to, g.reps[from].out[to][0].slot)
    ensures PartComes(g, Deliver(from, to), to, id, c)
  {
    AnswerHead(g, from, to);
    var m := g.reps[from].out[to][0];
    var e := At(g, to, id).value;
    assert HasPart(At(g, to, id), g.n, c, Of(e, c));
    assert HasPart(At(g, from, id), g.n, c, Of(At(g, from, id).value, c));
    AnsweredEntry(g.reps[to], m.slot, m.seqNo, m.deps, m.changed, c);
    DeliveredAt(g, from, to, to, id);
  }

  // An answer carries what its sender logs.
  lemma AnswerHead(g: System, from: nat, to: nat)
    requires Inv(g) && Enabled(g, Deliver(from, to)) && g.reps[from].out[to][0].PreAcceptReply?
    ensures var m := g.reps[from].out[to][0];
      && Held(g, to, to, m.slot).Some? && |Held(g, to, to, m.slot).value.deps| == g.n
      && Held(g, from, to, m.slot).Some? && |Held(g, from, to, m.slot).value.deps| == g.n
      && Held(g, from, to, m.slot).value.seqNo == m.seqNo && Held(g, from, to, m.slot).value.deps == m.deps
  {
    var m := g.reps[from].out[to][0];
    HeadOfLink(g, from, to);
    InvAt(g, to, m.slot);
    var v := ViewOf(g, to, m.slot);
    assert v.back[from] == Back(g, to, from, m.slot);
    BackwardHead(g.n, to, m.slot, v, from);
    assert v.entries[to] == Held(g, to, to, m.slot) && v.entries[from] == Held(g, from, to, m.slot);
  }

  lemma AnsweredEntry(s: Replica, slot: nat, seqNo: int, deps: seq<int>, changed: bool, c: Part)
    requires s.Valid() && Awaits(s, slot) && |deps| == s.n && Within(c, s.n)
    ensures var e := Entry(s.logs, s.me, slot).value;
      var x := Entry(OnPreAcceptReply(s, slot, seqNo, deps, changed).logs, s.me, slot);
      x.Some? && |x.value.deps| == s.n &&
      (Of(x.value, c) == Of(e, c) || Of(x.value, c) == match c case SeqPart => seqNo case DepPart(r) => deps[r])
  {
  }

  lemma ComesByDelivery(g: System, from: nat, to: nat, q: nat, id: Id, c: Part)
    requires Inv(g) && Enabled(g, Deliver(from, to)) && q < g.n && id.lead < g.n && Within(c, g.n)
    ensures PartComes(g, Deliver(from, to), q, id, c)
  {
    var ev, m := Deliver(from, to), g.reps[from].out[to][0];
    if q == to && Concerns(from, to, m, id) {
      match m
      case PreAccept(_) => AskHead(g, from, to); ComesByPreAccept(g, from, to, id, c);
      case Accept(_) => ComesByTelling(g, from, to, id, c);
      case Commit(_) => TellHead(g, from, to); ComesByTelling(g, from, to, id, c);
      case PreAcceptReply(_, _, _, _) => ComesByAnswer(g, from, to, id, c);
      case AcceptReply(_) =>
    } else {
      ElsewhereSame(g, from, to, q, id);
      if At(g, q, id).Some? {
        SamePart(g, ev, q, id, c);
      }
    }
  }

  // The message is about this instance.
  predicate Concerns(from: nat, to: nat, m: Message, id: Id) {
    match m
    case PreAccept(i) => id == Id(from, i.slot)
    case Accept(i) => id == Id(from, i.slot)
    case Commit(i) => id == Id(from, i.slot)
    case PreAcceptReply(k, _, _, _) => id == Id(to, k)
    case AcceptReply(_) => false
  }

  lemma ElsewhereSame(g: System, from: nat, to: nat, q: nat, id: Id)
    requires Inv(g) && Enabled(g, Deliver(from, to)) && q < g.n && id.lead < g.n
    requires q != to || !Concerns(from, to, g.reps[from].out[to][0], id)
    ensures At(Next(g, Deliver(from, to)), q, id) == At(g, q, id)
  {
    var m := g.reps[from].out[to][0];
    DeliveredAt(g, from, to, q, id);
    if m.PreAccept? {
      AskHead(g, from, to);
    } else if m.Commit? {
      TellHead(g, from, to);
    }
    if q == to {
      HandledElsewhere(g.reps[to], from, m, id);
    }
  }

  lemma HandledElsewhere(s: Replica, from: nat, m: Message, id: Id)
    requires s.Valid() && from < s.n && Accepts(s, from, m) && !Concerns(from, s.me, m, id)
    requires m.PreAccept? || m.Commit? ==> m.inst.rep == from
    ensures Entry(Handle(s, from, m).logs, id.lead, id.slot) == Entry(s.logs, id.lead, id.slot)
  {
  }

  lemma EachPartComes(g: System, ev: Event, q: nat, id: Id, c: Part)
    requires Inv(g) && Enabled(g, ev) && q < g.n && id.lead < g.n && Within(c, g.n)
    ensures PartComes(g, ev, q, id, c)
  {
    match ev
    case ProposeAt(r, ops) => ComesByProposal(g, r, ops, q, id, c);
    case Deliver(from, to) => ComesByDelivery(g, from, to, q, id, c);
    case FireCommit(r, slot) => ComesByCommit(g, r, slot, q, id, c);
    case ExecuteAt(r, order) => ComesByExecution(g, r, order, q, id, c);
  }

  lemma ComesByCommit(g: System, r: nat, slot: nat, q: nat, id: Id, c: Part)
    requires Inv(g) && Enabled(g, FireCommit(r, slot)) && q < g.n && id.lead < g.n && Within(c, g.n)
    ensures PartComes(g, FireCommit(r, slot), q, id, c)
  {
    if At(g, q, id).Some? {
      SamePart(g, FireCommit(r, slot), q, id, c);
    }
  }

  lemma ComesByExecution(g: System, r: nat, order: seq<seq<Node>>, q: nat, id: Id, c: Part)
    requires Inv(g) && r < g.n && q < g.n && id.lead < g.n && Within(c, g.n)
    ensures PartComes(g, ExecuteAt(r, order), q, id, c)
  {
    ExecutedView(g, r, order, id.lead, id.slot);
    if At(g, q, id).Some? {
      SamePart(g, ExecuteAt(r, order), q, id, c);
    }
  }

  lemma BornComes(g: System, ev: Event, id: Id, c: Part)
    requires Inv(g) && Enabled(g, ev) && id.lead < g.n && Within(c, g.n) && BornOf(Next(g, ev), id).Some?
    ensures var b := BornOf(Next(g, ev), id);
      b == BornOf(g, id) || (|b.value.deps| == g.n && FirstDemand(g, Next(g, ev), id.lead, id, c, Of(b.value, c)))
  {
    if ev.ProposeAt? && id == Id(ev.r, |g.reps[ev.r].logs[ev.r]|) {
      ProposalDemanded(g.reps[ev.r], ev.ops, c);
    }
  }

  // The first record a quorum member logs is at least what its log demands.
  lemma FirstIsAbove(g: System, ev: Event, q: nat, id: Id, c: Part, v: int)
    requires Inv(g) && Enabled(g, ev) && Within(c, g.n) && FirstDemand(g, Next(g, ev), q, id, c, v)
    ensures var x := At(Next(g, ev), q, id).value; |x.deps| == g.n && Of(x, c) >= v
  {
    OnlyNewId(g, ev, q, id);
    if ev.Deliver? {
      FirstByPreAccept(g, ev.from, ev.to, q, id);
      MergedPart(g.reps[q].logs, g.reps[ev.from].out[ev.to][0].inst, c);
    } else {
      ProposalDemanded(g.reps[q], ev.ops, c);
    }
  }

  // ---- Along a run ----------------------------------------------------------------------------

  // At step i of the run.
  ghost predicate DemandedAt(run: seq<System>, i: nat, q: nat, id: Id, c: Part, v: int) {
    i + 1 < |run| && FirstDemand(run[i], run[i + 1], q, id, c, v)
  }

  // Whatever part of a record a replica ever holds was demanded by the log of a quorum member when
  // that member first logged the instance.
  lemma {:induction false} KnownComes(n: nat, run: seq<System>, evs: seq<Event>, k: nat, id: Id, c: Part, v: int)
    returns (i: nat, q: nat)
    requires IsRun(n, run, evs) && k < |run| && id.lead < n && Within(c, n)
    requires run[k].Valid() && run[k].n == n && Known(run[k], id, c, v)
    ensures i < k && DemandedAt(run, i, q, id, c, v)
    decreases k
  {
    StartKnowsNothing(n, id, c, v);
    if k > 0 {
      var j := k - 1;
      var p := KnownBefore(n, run, evs, j, id, c, v);
      if Known(run[j], id, c, v) {
        i, q := KnownComes(n, run, evs, j, id, c, v);
      } else {
        i, q := j, p;
      }
    }
  }

  lemma KnownBefore(n: nat, run: seq<System>, evs: seq<Event>, j: nat, id: Id, c: Part, v: int) returns (q: nat)
    requires IsRun(n, run, evs) && j < |evs| && id.lead < n && Within(c, n)
    requires run[j + 1].Valid() && run[j + 1].n == n && Known(run[j + 1], id, c, v)
    ensures run[j].Valid() && run[j].n == n && (Known(run[j], id, c, v) || DemandedAt(run, j, q, id, c, v))
  {
    RunInv(n, run, evs, j);
    assert StepOf(run[j], evs[j], run[j + 1]);
    q := StepKnown(run[j], evs[j], run[j + 1], id, c, v);
  }

  lemma StartKnowsNothing(n: nat, id: Id, c: Part, v: int)
    requires n >= 2 && id.lead < n && Within(c, n)
    ensures !Known(Start(n), id, c, v)
  {
    forall p: nat | p < n ensures At(Start(n), p, id).None? {
      StartHoldsNothing(n, p, id);
    }
  }

  lemma StepKnown(g: System, ev: Event, g': System, id: Id, c: Part, v: int) returns (q: nat)
    requires Inv(g) && StepOf(g, ev, g') && id.lead < g.n && Within(c, g.n) && Known(g', id, c, v)
    ensures Known(g, id, c, v) || FirstDemand(g, g', q, id, c, v)
  {
    if HasPart(BornOf(g', id), g.n, c, v) {
      BornComes(g, ev, id, c);
      q := id.lead;
    } else {
      q :| q < g.n && HasPart(At(g', q, id), g.n, c, v);
      EachPartComes(g, ev, q, id, c);
    }
  }

  lemma DecidedHasPart(n: nat, run: seq<System>, evs: seq<Event>, id: Id, x: Instance, c: Part)
    requires IsRun(n, run, evs) && DecidedIn(run[|evs|], id, x) && Within(c, n)
    ensures run[|evs|].Valid() && run[|evs|].n == n && id.lead < n
    ensures |x.deps| == n && Known(run[|evs|], id, c, Of(x, c))
  {
    var g := run[|evs|];
    RunInv(n, run, evs, |evs|);
    var r: nat :| r < g.n && At(g, r, id) == Some(x);
    EntryPlaced(g, r, id);
    assert HasPart(At(g, r, id), n, c, Of(x, c));
  }

  lemma DecidedPartIsAbove(n: nat, run: seq<System>, evs: seq<Event>, i: nat, q: nat, id: Id, x: Instance, c: Part,
                           v: int)
    requires IsRun(n, run, evs) && DecidedIn(run[|evs|], id, x) && Within(c, n) && DemandedAt(run, i, q, id, c, v)
    ensures |x.deps| == n && Of(x, c) >= v
    ensures SameOps(At(run[i + 1], q, id).value.ops, x.ops)
  {
    RunInv(n, run, evs, i);
    RunInv(n, run, evs, |evs|);
    assert StepOf(run[i], evs[i], run[i + 1]);
    FirstIsAbove(run[i], evs[i], q, id, c, v);
    NeverBackwards(n, run, evs, i + 1, |evs|, q, id.lead, id.slot);
    QuorumHolds(run[|evs|], q, id, x);
  }

  // The Seq and each dependency of a decided instance are the largest that the log of any quorum
  // member demanded when that member first logged the instance: none demanded more, and one of them
  // demanded just this.
  lemma DecisionIsTheMaximum(n: nat, run: seq<System>, evs: seq<Event>, id: Id, x: Instance, c: Part)
    requires IsRun(n, run, evs) && DecidedIn(run[|evs|], id, x) && Within(c, n)
    ensures |x.deps| == n
    ensures forall i: nat, q: nat, v :: DemandedAt(run, i, q, id, c, v) ==> v <= Of(x, c)
    ensures exists i: nat, q: nat :: DemandedAt(run, i, q, id, c, Of(x, c))
    ensures forall i: nat, q: nat, v :: DemandedAt(run, i, q, id, c, v) ==> Demanded(run[i].reps[q].logs, x.ops, c, v)
  {
    DecidedHasPart(n, run, evs, id, x, c);
    var i, q := KnownComes(n, run, evs, |evs|, id, c, Of(x, c));
    forall i: nat, q: nat, v | DemandedAt(run, i, q, id, c, v)
      ensures v <= Of(x, c) && Demanded(run[i].reps[q].logs, x.ops, c, v)
    {
      DecidedPartIsAbove(n, run, evs, i, q, id, x, c, v);
      KeysDemand(run[i].reps[q].logs, At(run[i + 1], q, id).value.ops, x.ops, c, v);
    }
  }

  // Every member of the quorum has its say.
  lemma QuorumDemands(n: nat, run: seq<System>, evs: seq<Event>, id: Id, x: Instance, c: Part, q: nat)
    returns (i: nat, v: int)
    requires IsRun(n, run, evs) && DecidedIn(run[|evs|], id, x) && Within(c, n) && q < n && q in Quorum(n, id.lead)
    ensures DemandedAt(run, i, q, id, c, v)
  {
    i := FirstLogged(n, run, evs, q, id, x);
    var ops := At(run[i + 1], q, id).value.ops;
    ScanDemands(run[i].reps[q].logs, ops);
    var (m, deps) := Scan(run[i].reps[q].logs, ops);
    v := match c case SeqPart => m + 1 case DepPart(r) => deps[r];
  }
}
