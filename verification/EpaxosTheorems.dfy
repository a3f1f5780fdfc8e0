/** What holds of every run of the protocol. */
module EpaxosTheorems {
  import opened EpaxosTypes
  import opened EpaxosHandlers
  import opened EpaxosProtocol
  import opened EpaxosInstance
  import opened EpaxosSafety

  // ---- Reachable states -----------------------------------------------------------------------

  // No handler ever faults: whatever waits at the head of a link, its receiver can handle, every
  // launched commit finds its instance, and nobody sends to itself.
  lemma NothingFaults(g: System, from: nat, to: nat)
    requires Inv(g) && from < g.n && to < g.n && |g.reps[from].out[to]| > 0
    ensures from != to ==> Enabled(g, Deliver(from, to))
    ensures from != to
  {
    HeadOfLink(g, from, to);
    match g.reps[from].out[to][0]
    case PreAccept(i) => CheckForward(g, from, to, i.slot);
    case Accept(i) => CheckForward(g, from, to, i.slot);
    case Commit(i) => CheckForward(g, from, to, i.slot);
    case PreAcceptReply(k, _, _, _) => CheckBackward(g, from, to, k);
    case AcceptReply(k) => CheckBackward(g, from, to, k);
  }

  lemma CheckForward(g: System, from: nat, to: nat, k: nat)
    requires Inv(g) && from < g.n && to < g.n && |Fwd(g, from, to, k)| > 0
    ensures from != to && var m := Fwd(g, from, to, k)[0]; Accepts(g.reps[to], from, m)
  {
    var v := ViewOf(g, from, k);
    InvAt(g, from, k);
    assert v.fwd[to] == Fwd(g, from, to, k);
    ForwardHead(g.n, from, k, v, to);
  }

  lemma CheckBackward(g: System, from: nat, to: nat, k: nat)
    requires Inv(g) && from < g.n && to < g.n && |Back(g, to, from, k)| > 0
    ensures from != to && var m := Back(g, to, from, k)[0]; Accepts(g.reps[to], from, m)
  {
    var v := ViewOf(g, to, k);
    InvAt(g, to, k);
    assert v.back[from] == Back(g, to, from, k);
    BackwardHead(g.n, to, k, v, from);
    assert Held(g, to, to, k) == v.entries[to];
  }

  lemma CommitsFindTheirInstance(g: System, r: nat, slot: nat)
    requires Inv(g) && r < g.n && slot in g.reps[r].pending
    ensures Enabled(g, FireCommit(r, slot))
  {
    InvAt(g, r, slot);
    var v := ViewOf(g, r, slot);
    assert v.entries[r] == Held(g, r, r, slot);
    assert v.entries[r].None? ==> v.pend == 0;
  }

  // A record anybody holds as decided is the leader's, and the leader decided.
  lemma DecidedAtLeader(g: System, r: nat, lead: nat, slot: nat)
    requires Inv(g) && r < g.n && lead < g.n
    requires Held(g, r, lead, slot).Some? && Held(g, r, lead, slot).value.Decided()
    ensures Held(g, lead, lead, slot).Some? && Held(g, lead, lead, slot).value.Decided()
    ensures SameDecision(Held(g, r, lead, slot).value, Held(g, lead, lead, slot).value)
  {
    InvAt(g, lead, slot);
    var v := ViewOf(g, lead, slot);
    assert v.entries[r] == Held(g, r, lead, slot) && v.entries[lead] == Held(g, lead, lead, slot);
    if r != lead {
      Standing(g.n, lead, slot, v, r);
    }
  }

  // Agreement: any two replicas that hold an instance as committed or executed hold the same Seq,
  // Deps and operations, up to the values reads were answered with.
  lemma Agreement(g: System, r: nat, r': nat, lead: nat, slot: nat)
    requires Inv(g) && r < g.n && r' < g.n && lead < g.n
    requires Held(g, r, lead, slot).Some? && Held(g, r, lead, slot).value.Decided()
    requires Held(g, r', lead, slot).Some? && Held(g, r', lead, slot).value.Decided()
    ensures SameDecision(Held(g, r, lead, slot).value, Held(g, r', lead, slot).value)
  {
    DecidedAtLeader(g, r, lead, slot);
    DecidedAtLeader(g, r', lead, slot);
  }

  // ---- The decision ---------------------------------------------------------------------------

  function Quorum(n: nat, lead: nat): (q: set<int>)
    requires n >= 1
  {
    {lead} + PeerSet(n, lead)
  }

  lemma QuorumIsMajority(n: nat, lead: nat)
    requires n >= 2 && lead < n
    ensures 2 * |Quorum(n, lead)| > n
    ensures |Quorum(n, lead)| == n / 2 + 1
  {
    PeerCount(n, lead);
    PeerIsNotMe(n, lead);
    assert lead !in PeerSet(n, lead);
  }

  lemma QuorumsMeet(n: nat, a: nat, b: nat) returns (r: nat)
    requires n >= 2 && a < n && b < n
    ensures r < n && r in Quorum(n, a) && r in Quorum(n, b)
  {
    QuorumIsMajority(n, a);
    QuorumIsMajority(n, b);
    var qa, qb := Quorum(n, a), Quorum(n, b);
    var all := Replicas(n);
    assert qa + qb <= all;
    SubsetSize(qa + qb, all);
    assert |qa + qb| == |qa| + |qb| - |qa * qb|;
    assert qa * qb != {};
    var x :| x in qa * qb;
    r := x;
  }

  function Replicas(n: nat): (r: set<int>)
    ensures |r| == n && forall i :: i in r <==> 0 <= i < n
  {
    if n == 0 then {} else Replicas(n - 1) + {n - 1}
  }

  // The event makes the leader launch a commit of its slot.
  predicate Decides(g: System, ev: Event, lead: nat, slot: nat)
    requires g.Valid() && Enabled(g, ev) && lead < g.n
  {
    Next(g, ev).reps[lead].pending[slot] > g.reps[lead].pending[slot]
  }

  // At the decision the whole quorum logs the instance with the leader's Seq, Deps and operations,
  // on the fast path and on the slow path; and a decided slot is marked, so it never decides again.
  lemma DecisionPoint(g: System, ev: Event, lead: nat, slot: nat)
    requires Inv(g) && Enabled(g, ev) && lead < g.n && Decides(g, ev, lead, slot)
    ensures var g' := Next(g, ev);
      && !g.reps[lead].IsCommitted(slot) && g'.reps[lead].IsCommitted(slot)
      && g.reps[lead].pending[slot] == 0 && g'.reps[lead].pending[slot] == 1
      && Held(g', lead, lead, slot).Some?
      && forall p: nat :: p in Quorum(g.n, lead) ==>
           p < g.n && Held(g', p, lead, slot).Some?
           && SameDecision(Held(g', p, lead, slot).value, Held(g', lead, lead, slot).value)
  {
    StepInv(g, ev);
    LaunchedBetween(g, Next(g, ev), lead, slot);
  }

  lemma LaunchedBetween(g: System, g': System, lead: nat, slot: nat)
    requires Inv(g) && Inv(g') && g'.n == g.n && lead < g.n
    requires Grows(g.n, lead, ViewOf(g, lead, slot), ViewOf(g', lead, slot))
    requires g'.reps[lead].pending[slot] > g.reps[lead].pending[slot]
    ensures !g.reps[lead].IsCommitted(slot) && g'.reps[lead].IsCommitted(slot)
    ensures g.reps[lead].pending[slot] == 0 && g'.reps[lead].pending[slot] == 1 && Held(g', lead, lead, slot).Some?
    ensures forall p: nat :: p in Quorum(g.n, lead) ==>
      p < g.n && Held(g', p, lead, slot).Some?
      && SameDecision(Held(g', p, lead, slot).value, Held(g', lead, lead, slot).value)
  {
    InvAt(g, lead, slot);
    InvAt(g', lead, slot);
    var v, v' := ViewOf(g, lead, slot), ViewOf(g', lead, slot);
    LaunchedNow(g.n, lead, slot, v, v');
    forall p: nat | p < g.n ensures v'.entries[p] == Held(g', p, lead, slot) {
    }
  }

  // What an instance looks like just before and just after its commit is launched.
  lemma LaunchedNow(n: nat, lead: nat, slot: nat, v: View, v': View)
    requires Shape(n, lead, slot, v) && Shape(n, lead, slot, v') && Grows(n, lead, v, v') && v'.pend > v.pend
    ensures !v.committed && v'.committed && v.pend == 0 && v'.pend == 1 && v'.entries[lead].Some?
    ensures forall p: nat :: p in Quorum(n, lead) ==>
      p < n && v'.entries[p].Some? && SameDecision(v'.entries[p].value, v'.entries[lead].value)
  {
    forall p: nat | p in Quorum(n, lead)
      ensures p < n && v'.entries[p].Some? && SameDecision(v'.entries[p].value, v'.entries[lead].value)
    {
      if p != lead {
        Standing(n, lead, slot, v', p);
      }
    }
  }

  lemma StaysDecided(g: System, ev: Event, lead: nat, slot: nat)
    requires Inv(g) && Enabled(g, ev) && lead < g.n && g.reps[lead].IsCommitted(slot)
    ensures Next(g, ev).reps[lead].IsCommitted(slot) && !Decides(g, ev, lead, slot)
  {
    StepInv(g, ev);
    var v, v' := ViewOf(g, lead, slot), ViewOf(Next(g, ev), lead, slot);
    assert Grows(g.n, lead, v, v');
  }

  // When the last pre-accept answer is handled, the leader's Seq and every dependency are the
  // maximum of what it proposed and of what its N/2 peers logged and answered, in whatever order
  // the answers came.
  lemma LeaderTakesTheMaximum(g: System, from: nat, to: nat)
    requires Inv(g) && Enabled(g, Deliver(from, to)) && g.reps[from].out[to][0].PreAcceptReply?
    requires Majority(g.n, g.reps[to].Count(g.reps[from].out[to][0].slot) + 1)
    ensures var k := g.reps[from].out[to][0].slot;
      var g' := Next(g, Deliver(from, to));
      Held(g', to, to, k).Some? && (to, k) in g.born && IsMaximum(g, to, k, g.born[(to, k)], Held(g', to, to, k).value)
  {
    var k := g.reps[from].out[to][0].slot;
    var g' := Next(g, Deliver(from, to));
    var v := ViewOf(g, to, k);
    PollView(g, from, to, to, k);
    InvAt(g, to, k);
    var v' := ViewOf(g', to, k);
    assert v'.entries[to] == Held(g', to, to, k);
    MaximumOfVotes(g, from, to, k);
    var y := Absorbed(g.n, to, v, from);
    SameMaximum(g, to, k, v.born.value, y, Held(g', to, to, k).value);
  }

  // e is the pointwise maximum of the proposal b and of the records of all N/2 peers.
  ghost predicate IsMaximum(g: System, lead: nat, k: nat, b: Instance, e: Instance)
    requires g.Valid() && lead < g.n
  {
    && |e.deps| == |b.deps| == g.n
    && Below(b, e)
    && (forall q: nat :: q < g.n && q in Thrifty(g.n, lead) ==>
          Held(g, q, lead, k).Some? && Below(Held(g, q, lead, k).value, e))
    && (e.seqNo == b.seqNo || exists q: nat :: SeqFrom(g, q, lead, k, e.seqNo))
    && (forall i :: 0 <= i < g.n ==> e.deps[i] == b.deps[i] || exists q: nat :: DepFrom(g, q, lead, k, i, e.deps[i]))
  }

  lemma SameMaximum(g: System, lead: nat, k: nat, b: Instance, y: Instance, e: Instance)
    requires g.Valid() && lead < g.n && IsMaximum(g, lead, k, b, y) && y.seqNo == e.seqNo && y.deps == e.deps
    ensures IsMaximum(g, lead, k, b, e)
  {
  }

  lemma MaximumOfVotes(g: System, from: nat, to: nat, k: nat)
    requires g.Valid() && from < g.n && to < g.n && from != to
    requires var v := ViewOf(g, to, k);
      Shape(g.n, to, k, v) && |v.back[from]| > 0 && v.back[from][0].PreAcceptReply? && Majority(g.n, v.count + 1)
    ensures var v := ViewOf(g, to, k);
      Answering(g.n, to, k, v, from) && v.born.Some? && IsMaximum(g, to, k, v.born.value, Absorbed(g.n, to, v, from))
  {
    var v := ViewOf(g, to, k);
    LastAnswer(g.n, to, k, v, from);
    PeerIsNotMe(g.n, to);
    var w := Polled(g.n, to, k, v, from);
    var y, b := Absorbed(g.n, to, v, from), v.born.value;
    forall q: nat | q < g.n && q in Thrifty(g.n, to)
      ensures Held(g, q, to, k).Some? && Below(Held(g, q, to, k).value, y) && w.entries[q] == Held(g, q, to, k)
    {
      assert Quiet(w, q);
      assert w.entries[q] == v.entries[q];
    }
    VotesAreHeld(g, to, k, w, b, y);
  }

  lemma VotesAreHeld(g: System, lead: nat, k: nat, w: View, b: Instance, y: Instance)
    requires g.Valid() && lead < g.n && Sized(g.n, lead, w) && FromVotes(g.n, lead, w, b, y) && |y.deps| == g.n
    requires forall q: nat :: q < g.n && q in Thrifty(g.n, lead) ==> w.entries[q] == Held(g, q, lead, k)
    ensures y.seqNo == b.seqNo || exists q: nat :: SeqFrom(g, q, lead, k, y.seqNo)
    ensures |b.deps| == g.n
    ensures forall i :: 0 <= i < g.n ==> y.deps[i] == b.deps[i] || exists q: nat :: DepFrom(g, q, lead, k, i, y.deps[i])
  {
    if y.seqNo != b.seqNo {
      var q :| q in Counters(g.n, lead, w) && w.entries[q].Some? && w.entries[q].value.seqNo == y.seqNo;
      assert SeqFrom(g, q, lead, k, y.seqNo);
    }
    assert DepFromVotes(g.n, lead, w, b, y, 0);
    forall i | 0 <= i < g.n ensures y.deps[i] == b.deps[i] || exists q: nat :: DepFrom(g, q, lead, k, i, y.deps[i]) {
      assert DepFromVotes(g.n, lead, w, b, y, i);
      if y.deps[i] != b.deps[i] {
        var q :| q in Counters(g.n, lead, w) && w.entries[q].Some? && |w.entries[q].value.deps| == |y.deps|
                 && w.entries[q].value.deps[i] == y.deps[i];
        assert DepFrom(g, q, lead, k, i, y.deps[i]);
      }
    }
  }

  predicate SeqFrom(g: System, q: nat, lead: nat, slot: nat, s: int)
    requires g.Valid() && lead < g.n
  {
    q < g.n && q in Thrifty(g.n, lead) && Held(g, q, lead, slot).Some? && Held(g, q, lead, slot).value.seqNo == s
  }

  predicate DepFrom(g: System, q: nat, lead: nat, slot: nat, i: int, d: int)
    requires g.Valid() && lead < g.n
  {
    && q < g.n && q in Thrifty(g.n, lead) && Held(g, q, lead, slot).Some?
    && 0 <= i < |Held(g, q, lead, slot).value.deps| && Held(g, q, lead, slot).value.deps[i] == d
  }

  // ---- Runs -----------------------------------------------------------------------------------

  ghost predicate StepOf(g: System, ev: Event, g': System) {
    g.Valid() && Enabled(g, ev) && g' == Next(g, ev)
  }

  // Any finite run of n replicas, whatever is proposed and however steps interleave.
  ghost predicate IsRun(n: nat, run: seq<System>, evs: seq<Event>) {
    && n >= 2 && |run| == |evs| + 1 && run[0] == Start(n)
    && forall i :: 0 <= i < |evs| ==> StepOf(run[i], evs[i], run[i + 1])
  }

  lemma RunInv(n: nat, run: seq<System>, evs: seq<Event>, i: nat)
    requires IsRun(n, run, evs) && i < |run|
    ensures Inv(run[i]) && run[i].n == n
  {
    StartInv(n);
    for j := 0 to i
      invariant Inv(run[j]) && run[j].n == n
    {
      NextInv(run[j], evs[j], run[j + 1]);
    }
  }

  lemma NextInv(g: System, ev: Event, g': System)
    requires Inv(g) && StepOf(g, ev, g')
    ensures Inv(g') && g'.n == g.n
  {
    StepInv(g, ev);
  }

  lemma RunValid(n: nat, run: seq<System>, evs: seq<Event>, i: nat)
    requires IsRun(n, run, evs) && i < |run|
    ensures run[i].Valid() && run[i].n == n
  {
    RunInv(n, run, evs, i);
  }

  lemma AdvancesTransitive(x: Instance, y: Instance, z: Instance)
    requires Advances(x, y) && Advances(y, z)
    ensures Advances(x, z)
  {
  }

  lemma StepAdvances(g: System, ev: Event, r: nat, lead: nat, slot: nat)
    requires Inv(g) && Enabled(g, ev) && r < g.n && lead < g.n
    ensures Held(g, r, lead, slot).Some? ==>
      Held(Next(g, ev), r, lead, slot).Some?
      && Advances(Held(g, r, lead, slot).value, Held(Next(g, ev), r, lead, slot).value)
  {
    StepInv(g, ev);
    var v, v' := ViewOf(g, lead, slot), ViewOf(Next(g, ev), lead, slot);
    assert Grows(g.n, lead, v, v');
    assert v.entries[r] == Held(g, r, lead, slot) && v'.entries[r] == Held(Next(g, ev), r, lead, slot);
  }

  // No entry ever moves backwards: along a run its state and its numbers only rise, its operations
  // stay, a decision stays, and an executed record stays as it is.
  lemma {:induction false} NeverBackwards(n: nat, run: seq<System>, evs: seq<Event>, i: nat, j: nat,
                                          r: nat, lead: nat, slot: nat)
    requires IsRun(n, run, evs) && i <= j < |run| && r < n && lead < n
    ensures run[i].Valid() && run[j].Valid() && run[i].n == run[j].n == n
    ensures Held(run[i], r, lead, slot).Some? ==>
      Held(run[j], r, lead, slot).Some?
      && Advances(Held(run[i], r, lead, slot).value, Held(run[j], r, lead, slot).value)
    decreases j - i
  {
    RunInv(n, run, evs, i);
    RunInv(n, run, evs, j);
    if i == j {
      if Held(run[i], r, lead, slot).Some? {
        OpsReflexive(Held(run[i], r, lead, slot).value);
      }
    } else {
      assert StepOf(run[i], evs[i], run[i + 1]);
      StepAdvances(run[i], evs[i], r, lead, slot);
      NeverBackwards(n, run, evs, i + 1, j, r, lead, slot);
      if Held(run[i], r, lead, slot).Some? {
        AdvancesTransitive(Held(run[i], r, lead, slot).value, Held(run[i + 1], r, lead, slot).value,
                           Held(run[j], r, lead, slot).value);
      }
    }
  }

  lemma OpsReflexive(x: Instance)
    ensures Advances(x, x)
  {
  }

  // Step i turns an entry into an executed one at replica r.
  ghost predicate ExecutesAt(run: seq<System>, i: nat, r: nat, lead: nat, slot: nat)
    requires i + 1 < |run| && run[i].Valid() && run[i + 1].Valid() && r < run[i].n == run[i + 1].n
  {
    && !(Held(run[i], r, lead, slot).Some? && Held(run[i], r, lead, slot).value.state.Executed?)
    && Held(run[i + 1], r, lead, slot).Some? && Held(run[i + 1], r, lead, slot).value.state.Executed?
  }

  lemma ExecutedForGood(n: nat, run: seq<System>, evs: seq<Event>, i: nat, j: nat, r: nat, lead: nat, slot: nat)
    requires IsRun(n, run, evs) && i < j < |evs| && r < n && lead < n
    requires run[i].Valid() && run[i + 1].Valid() && run[j].Valid() && run[j + 1].Valid()
    requires run[i].n == run[i + 1].n == run[j].n == run[j + 1].n == n && ExecutesAt(run, i, r, lead, slot)
    ensures !ExecutesAt(run, j, r, lead, slot)
  {
    NeverBackwards(n, run, evs, i + 1, j, r, lead, slot);
  }

  lemma ExecutedOnce(n: nat, run: seq<System>, evs: seq<Event>, i: nat, j: nat, r: nat, lead: nat, slot: nat)
    requires IsRun(n, run, evs) && i < |evs| && j < |evs| && r < n && lead < n
    ensures run[i].Valid() && run[i + 1].Valid() && run[j].Valid() && run[j + 1].Valid()
    ensures run[i].n == run[i + 1].n == run[j].n == run[j + 1].n == n
    ensures ExecutesAt(run, i, r, lead, slot) && ExecutesAt(run, j, r, lead, slot) ==> i == j
  {
    RunValid(n, run, evs, i);
    RunValid(n, run, evs, i + 1);
    RunValid(n, run, evs, j);
    RunValid(n, run, evs, j + 1);
    if i < j && ExecutesAt(run, i, r, lead, slot) {
      ExecutedForGood(n, run, evs, i, j, r, lead, slot);
    } else if j < i && ExecutesAt(run, j, r, lead, slot) {
      ExecutedForGood(n, run, evs, j, i, r, lead, slot);
    }
  }

  // A slot's leader launches its commit at most once in a run.
  lemma DecidedOnce(n: nat, run: seq<System>, evs: seq<Event>, i: nat, j: nat, lead: nat, slot: nat)
    requires IsRun(n, run, evs) && i < |evs| && j < |evs| && lead < n
    ensures StepOf(run[i], evs[i], run[i + 1]) && StepOf(run[j], evs[j], run[j + 1])
    ensures run[i].n == run[j].n == n
    ensures Decides(run[i], evs[i], lead, slot) && Decides(run[j], evs[j], lead, slot) ==> i == j
  {
    RunInv(n, run, evs, i);
    RunInv(n, run, evs, j);
    assert StepOf(run[i], evs[i], run[i + 1]) && StepOf(run[j], evs[j], run[j + 1]);
    if Decides(run[i], evs[i], lead, slot) && Decides(run[j], evs[j], lead, slot) {
      DecisionPoint(run[i], evs[i], lead, slot);
      DecisionPoint(run[j], evs[j], lead, slot);
      if i < j {
        MarkStays(n, run, evs, i + 1, j, lead, slot);
      } else if j < i {
        MarkStays(n, run, evs, j + 1, i, lead, slot);
      }
    }
  }

  lemma {:induction false} MarkStays(n: nat, run: seq<System>, evs: seq<Event>, i: nat, j: nat, lead: nat, slot: nat)
    requires IsRun(n, run, evs) && i <= j < |run| && lead < n && |run[i].reps| == n
    requires run[i].reps[lead].IsCommitted(slot)
    ensures |run[j].reps| == n && run[j].reps[lead].IsCommitted(slot)
    decreases j - i
  {
    if i < j {
      RunInv(n, run, evs, i);
      RunInv(n, run, evs, i + 1);
      assert StepOf(run[i], evs[i], run[i + 1]);
      StaysDecided(run[i], evs[i], lead, slot);
      MarkStays(n, run, evs, i + 1, j, lead, slot);
    }
  }
}
