/** The global invariant, kept by every event, and what it says about every reachable state. */
module EpaxosSafety {
  import opened Options
  import opened EpaxosTypes
  import opened EpaxosScan
  import opened EpaxosHandlers
  import opened EpaxosExecution
  import opened EpaxosProtocol
  import opened EpaxosInstance

  ghost predicate Inv(g: System) {
    g.Valid() && forall lead: nat, slot: nat :: lead < g.n ==> Shape(g.n, lead, slot, ViewOf(g, lead, slot))
  }

  lemma InvAt(g: System, lead: nat, slot: nat)
    requires Inv(g) && lead < g.n
    ensures Shape(g.n, lead, slot, ViewOf(g, lead, slot))
  {
  }

  lemma StartInv(n: nat)
    requires n >= 2
    ensures Inv(Start(n))
  {
    var g := Start(n);
    forall lead: nat, slot: nat | lead < n ensures Shape(n, lead, slot, ViewOf(g, lead, slot)) {
      var v := ViewOf(g, lead, slot);
      forall p: nat | p < n ensures Ignorant(v, p) {
      }
    }
  }

  lemma MergedVotes(logs: Log, n: nat, lead: nat, slot: nat, b: Instance)
    requires |logs| == n && Placed(n, lead, slot, b) && !b.changed && b.state.PreAccepted?
    ensures Vote(n, lead, slot, b, Merged(logs, b))
  {
    var (m, deps) := Scan(logs, b.ops);
    var x := Merged(logs, b);
    if !x.changed {
      assert x.deps == b.deps;
    }
  }

  // From g to g' the instance keeps its shape and moves forward.
  ghost predicate Kept(g: System, g': System, lead: nat, slot: nat) {
    && g.Valid() && g'.Valid() && g'.n == g.n && lead < g.n
    && Shape(g.n, lead, slot, ViewOf(g', lead, slot)) && Grows(g.n, lead, ViewOf(g, lead, slot), ViewOf(g', lead, slot))
  }

  lemma SameIsKept(g: System, g': System, lead: nat, slot: nat)
    requires g.Valid() && g'.Valid() && g'.n == g.n && lead < g.n && Shape(g.n, lead, slot, ViewOf(g, lead, slot))
    requires ViewOf(g', lead, slot) == ViewOf(g, lead, slot)
    ensures Kept(g, g', lead, slot)
  {
  }

  // g' differs from g in the view of instance (lead0, slot0) only, and that one is now w.
  lemma OneViewMoves(g: System, g': System, lead0: nat, slot0: nat, w: View, lead: nat, slot: nat)
    requires Inv(g) && g'.Valid() && g'.n == g.n && lead < g.n && lead0 < g.n
    requires ViewOf(g', lead, slot) == if lead == lead0 && slot == slot0 then w else ViewOf(g, lead, slot)
    requires Shape(g.n, lead0, slot0, w) && Grows(g.n, lead0, ViewOf(g, lead0, slot0), w)
    ensures Kept(g, g', lead, slot)
  {
    if lead != lead0 || slot != slot0 {
      InvAt(g, lead, slot);
      SameIsKept(g, g', lead, slot);
    }
  }

  lemma DeliveredNext(g: System, from: nat, to: nat)
    requires g.Valid() && Enabled(g, Deliver(from, to))
    ensures Delivered(g, from, to, Handle(g.reps[to], from, g.reps[from].out[to][0]), Next(g, Deliver(from, to)))
  {
  }

  lemma KeepsHeard(g: System, g': System, from: nat, to: nat, s': Replica, x: Instance, reply: seq<Message>,
                   lead: nat, slot: nat)
    requires Inv(g) && ToldOf(g, g', from, to, s', x, reply) && lead < g.n
    requires var v := ViewOf(g, from, x.slot);
      |v.fwd[to]| > 0 && Shape(g.n, from, x.slot, Heard(v, to, x, reply)) && Grows(g.n, from, v, Heard(v, to, x, reply))
    ensures Kept(g, g', lead, slot)
  {
    HeardView(g, g', from, to, s', x, reply, lead, slot);
    OneViewMoves(g, g', from, x.slot, Heard(ViewOf(g, from, x.slot), to, x, reply), lead, slot);
  }

  lemma KeepsDeliverPreAccept(g: System, from: nat, to: nat, lead: nat, slot: nat)
    requires Inv(g) && Enabled(g, Deliver(from, to)) && lead < g.n
    requires g.reps[from].out[to][0].PreAccept?
    ensures Kept(g, Next(g, Deliver(from, to)), lead, slot)
  {
    var b := g.reps[from].out[to][0].inst;
    var x := Merged(g.reps[to].logs, b);
    AskHead(g, from, to);
    KeepsPreAccept(g.n, from, b.slot, ViewOf(g, from, b.slot), to, x);
    AskIsHeard(g, from, to);
    KeepsHeard(g, Next(g, Deliver(from, to)), from, to, OnPreAccept(g.reps[to], from, b), x,
               [PreAcceptReply(b.slot, x.seqNo, x.deps, x.changed)], lead, slot);
  }

  lemma AskIsHeard(g: System, from: nat, to: nat)
    requires g.Valid() && Enabled(g, Deliver(from, to)) && g.reps[from].out[to][0].PreAccept?
    requires g.reps[from].out[to][0].inst.rep == from
    ensures var b := g.reps[from].out[to][0].inst;
      var x := Merged(g.reps[to].logs, b);
      ToldOf(g, Next(g, Deliver(from, to)), from, to, OnPreAccept(g.reps[to], from, b), x,
             [PreAcceptReply(b.slot, x.seqNo, x.deps, x.changed)])
  {
    DeliveredNext(g, from, to);
  }

  lemma AskHead(g: System, from: nat, to: nat)
    requires Inv(g) && Enabled(g, Deliver(from, to)) && g.reps[from].out[to][0].PreAccept?
    ensures var b := g.reps[from].out[to][0].inst;
      var v := ViewOf(g, from, b.slot);
      && b.rep == from && Shape(g.n, from, b.slot, v) && |v.fwd[to]| > 0 && v.fwd[to][0] == PreAccept(b)
      && |b.deps| == |g.reps[to].logs| && Vote(g.n, from, b.slot, b, Merged(g.reps[to].logs, b))
  {
    var b := g.reps[from].out[to][0].inst;
    var v := ViewOf(g, from, b.slot);
    HeadOfLink(g, from, to);
    InvAt(g, from, b.slot);
    assert v.fwd[to] == Fwd(g, from, to, b.slot);
    ForwardHead(g.n, from, b.slot, v, to);
    MergedVotes(g.reps[to].logs, g.n, from, b.slot, b);
  }

  lemma TellHead(g: System, from: nat, to: nat)
    requires Inv(g) && Enabled(g, Deliver(from, to))
    requires g.reps[from].out[to][0].Accept? || g.reps[from].out[to][0].Commit?
    ensures var m := g.reps[from].out[to][0];
      var v := ViewOf(g, from, m.inst.slot);
      m.inst.rep == from && Shape(g.n, from, m.inst.slot, v) && |v.fwd[to]| > 0 && v.fwd[to][0] == m
  {
    var m := g.reps[from].out[to][0];
    var v := ViewOf(g, from, m.inst.slot);
    HeadOfLink(g, from, to);
    InvAt(g, from, m.inst.slot);
    assert v.fwd[to] == Fwd(g, from, to, m.inst.slot);
    ForwardHead(g.n, from, m.inst.slot, v, to);
  }

  lemma KeepsDeliverAccept(g: System, from: nat, to: nat, lead: nat, slot: nat)
    requires Inv(g) && Enabled(g, Deliver(from, to)) && lead < g.n
    requires g.reps[from].out[to][0].Accept?
    ensures Kept(g, Next(g, Deliver(from, to)), lead, slot)
  {
    var e := g.reps[from].out[to][0].inst;
    TellHead(g, from, to);
    KeepsAccept(g.n, from, e.slot, ViewOf(g, from, e.slot), to);
    AcceptIsHeard(g, from, to);
    KeepsHeard(g, Next(g, Deliver(from, to)), from, to, OnAccept(g.reps[to], from, e), e, [AcceptReply(e.slot)], lead,
        slot);
  }

  lemma AcceptIsHeard(g: System, from: nat, to: nat)
    requires g.Valid() && Enabled(g, Deliver(from, to)) && g.reps[from].out[to][0].Accept?
    ensures var e := g.reps[from].out[to][0].inst;
      ToldOf(g, Next(g, Deliver(from, to)), from, to, OnAccept(g.reps[to], from, e), e, [AcceptReply(e.slot)])
  {
    DeliveredNext(g, from, to);
  }

  lemma KeepsDeliverCommit(g: System, from: nat, to: nat, lead: nat, slot: nat)
    requires Inv(g) && Enabled(g, Deliver(from, to)) && lead < g.n
    requires g.reps[from].out[to][0].Commit?
    ensures Kept(g, Next(g, Deliver(from, to)), lead, slot)
  {
    var g' := Next(g, Deliver(from, to));
    var c := g.reps[from].out[to][0].inst;
    var v := ViewOf(g, from, c.slot);
    TellHead(g, from, to);
    KeepsCommit(g.n, from, c.slot, v, to);
    DeliveredNext(g, from, to);
    KeepsHeard(g, g', from, to, OnCommit(g.reps[to], c), c, [], lead, slot);
  }

  // What the leader's books say about slot k after an answer.
  predicate Books(s: Replica, k: nat, e: Option<Instance>, count: int, committed: bool, pend: nat) {
    Entry(s.logs, s.me, k) == e && s.Count(k) == count && s.IsCommitted(k) == committed && s.pending[k] == pend
  }

  // An answer touches nothing but its slot, and only a majority with a change sends anything.
  lemma PreAcceptReplyIsLocal(s: Replica, k: nat, seqNo: int, deps: seq<int>, changed: bool)
    requires s.Valid() && Awaits(s, k) && |deps| == s.n && Entry(s.logs, s.me, k).value.state.PreAccepted?
    ensures var s' := OnPreAcceptReply(s, k, seqNo, deps, changed);
      var x := Absorb(Entry(s.logs, s.me, k).value, seqNo, deps, changed);
      && OnlyAbout(s, s', k)
      && s'.out == if Majority(s.n, s.Count(k) + 1) && x.changed
                   then Send(s.out, Thrifty(s.n, s.me), Accept(x.(state := Accepted))) else s.out
  {
  }

  lemma PreAcceptReplyBooks(s: Replica, k: nat, seqNo: int, deps: seq<int>, changed: bool)
    requires s.Valid() && Awaits(s, k) && |deps| == s.n && Entry(s.logs, s.me, k).value.state.PreAccepted?
    ensures var s' := OnPreAcceptReply(s, k, seqNo, deps, changed);
      var x := Absorb(Entry(s.logs, s.me, k).value, seqNo, deps, changed);
      if !Majority(s.n, s.Count(k) + 1) then Books(s', k, Some(x), s.Count(k) + 1, s.IsCommitted(k), s.pending[k])
      else if x.changed then Books(s', k, Some(x.(state := Accepted)), 0, s.IsCommitted(k), s.pending[k])
      else Books(s', k, Some(x), 0, true, s.pending[k] + 1)
  {
  }

  lemma AcceptReplyEffect(s: Replica, k: nat)
    requires s.Valid() && !s.IsCommitted(k) && s.pending[k] == 0
    ensures var s' := OnAcceptReply(s, k);
      var last := Majority(s.n, s.Count(k) + 1);
      OnlyAbout(s, s', k) && s'.out == s.out
      && Books(s', k, Entry(s.logs, s.me, k), s.Count(k) + 1, last, if last then 1 else 0)
  {
  }

  // What the leader makes of the answer at the head of p's conversation about slot k.
  function AfterPoll(n: nat, lead: nat, slot: nat, v: View, p: nat): View
    requires Answering(n, lead, slot, v, p)
  {
    var x := Absorbed(n, lead, v, p);
    var y := x.(state := Accepted);
    if !Majority(n, v.count + 1) then Polled(n, lead, slot, v, p)
    else if x.changed then Counted(v, lead, p, Some(y), [Accept(y)], Thrifty(n, lead), 0, v.committed, v.pend)
    else Counted(v, lead, p, Some(x), [], [], 0, true, v.pend + 1)
  }

  lemma AfterPollShape(n: nat, lead: nat, slot: nat, v: View, p: nat)
    requires Shape(n, lead, slot, v) && p < n && p != lead && |v.back[p]| > 0 && v.back[p][0].PreAcceptReply?
    ensures Answering(n, lead, slot, v, p)
    ensures Shape(n, lead, slot, AfterPoll(n, lead, slot, v, p))
    ensures Grows(n, lead, v, AfterPoll(n, lead, slot, v, p))
  {
    AnswerAdvances(n, lead, slot, v, p);
    var x := Absorbed(n, lead, v, p);
    var y := x.(state := Accepted);
    if !Majority(n, v.count + 1) {
      KeepsPoll(n, lead, slot, v, p);
      CountedGrows(n, lead, v, p, x, [], [], v.count + 1, v.committed, v.pend);
    } else if x.changed {
      KeepsSlowPath(n, lead, slot, v, p);
      CountedGrows(n, lead, v, p, y, [Accept(y)], Thrifty(n, lead), 0, v.committed, v.pend);
    } else {
      KeepsFastPath(n, lead, slot, v, p);
      CountedGrows(n, lead, v, p, x, [], [], 0, true, v.pend + 1);
    }
  }

  // An answer on the link finds the leader in phase one.
  lemma PollHead(g: System, from: nat, to: nat)
    requires Inv(g) && Enabled(g, Deliver(from, to)) && g.reps[from].out[to][0].PreAcceptReply?
    ensures var m := g.reps[from].out[to][0];
      var v := ViewOf(g, to, m.slot);
      && Answering(g.n, to, m.slot, v, from) && v.back[from][0] == m
      && v.entries[to] == Entry(g.reps[to].logs, to, m.slot) && v.entries[to].value.state.PreAccepted?
      && v.entries[to].value.slot == m.slot && !v.committed && v.pend == 0
  {
    var m := g.reps[from].out[to][0];
    var v := ViewOf(g, to, m.slot);
    HeadOfLink(g, from, to);
    InvAt(g, to, m.slot);
    assert v.back[from] == Back(g, to, from, m.slot);
    BackwardHead(g.n, to, m.slot, v, from);
  }

  lemma PollView(g: System, from: nat, to: nat, lead: nat, slot: nat)
    requires Inv(g) && Enabled(g, Deliver(from, to)) && lead < g.n
    requires g.reps[from].out[to][0].PreAcceptReply?
    ensures var k := g.reps[from].out[to][0].slot;
      var v := ViewOf(g, to, k);
      Answering(g.n, to, k, v, from) && v.back[from][0] == g.reps[from].out[to][0] &&
      ViewOf(Next(g, Deliver(from, to)), lead, slot) ==
        if lead == to && slot == k then AfterPoll(g.n, to, k, v, from) else ViewOf(g, lead, slot)
  {
    PollHead(g, from, to);
    PolledView(g, from, to, lead, slot);
  }

  lemma PolledView(g: System, from: nat, to: nat, lead: nat, slot: nat)
    requires g.Valid() && Enabled(g, Deliver(from, to)) && lead < g.n
    requires g.reps[from].out[to][0].PreAcceptReply?
    requires var m := g.reps[from].out[to][0];
      var v := ViewOf(g, to, m.slot);
      && Answering(g.n, to, m.slot, v, from) && v.back[from][0] == m
      && v.entries[to] == Entry(g.reps[to].logs, to, m.slot) && v.entries[to].value.state.PreAccepted?
      && v.entries[to].value.slot == m.slot && !v.committed && v.pend == 0
    ensures var k := g.reps[from].out[to][0].slot;
      ViewOf(Next(g, Deliver(from, to)), lead, slot) ==
        if lead == to && slot == k then AfterPoll(g.n, to, k, ViewOf(g, to, k), from) else ViewOf(g, lead, slot)
  {
    var k := g.reps[from].out[to][0].slot;
    if lead == to && slot == k {
      PolledHere(g, from, to);
    } else {
      PolledElsewhere(g, from, to, lead, slot);
    }
  }

  lemma PolledHere(g: System, from: nat, to: nat)
    requires g.Valid() && Enabled(g, Deliver(from, to)) && g.reps[from].out[to][0].PreAcceptReply?
    requires var m := g.reps[from].out[to][0];
      var v := ViewOf(g, to, m.slot);
      && Answering(g.n, to, m.slot, v, from) && v.back[from][0] == m
      && v.entries[to] == Entry(g.reps[to].logs, to, m.slot) && v.entries[to].value.state.PreAccepted?
      && v.entries[to].value.slot == m.slot && !v.committed && v.pend == 0
    ensures var k := g.reps[from].out[to][0].slot;
      ViewOf(Next(g, Deliver(from, to)), to, k) == AfterPoll(g.n, to, k, ViewOf(g, to, k), from)
  {
    var m := g.reps[from].out[to][0];
    var v := ViewOf(g, to, m.slot);
    var x := Absorbed(g.n, to, v, from);
    var slow := Majority(g.n, v.count + 1) && x.changed;
    var s' := OnPreAcceptReply(g.reps[to], m.slot, m.seqNo, m.deps, m.changed);
    PollIsAnswered(g, from, to, x, slow);
    var sent := if slow then [Accept(x.(state := Accepted))] else [];
    var dests := if slow then Thrifty(g.n, to) else [];
    CountedHere(g, Next(g, Deliver(from, to)), from, to, s', m.slot, sent, dests);
    PreAcceptReplyBooks(g.reps[to], m.slot, m.seqNo, m.deps, m.changed);
    BooksArePoll(g.n, to, m.slot, v, from, s', sent, dests);
  }

  lemma PolledElsewhere(g: System, from: nat, to: nat, lead: nat, slot: nat)
    requires g.Valid() && Enabled(g, Deliver(from, to)) && lead < g.n
    requires g.reps[from].out[to][0].PreAcceptReply? && (lead != to || slot != g.reps[from].out[to][0].slot)
    requires var m := g.reps[from].out[to][0];
      var v := ViewOf(g, to, m.slot);
      && Answering(g.n, to, m.slot, v, from) && v.back[from][0] == m
      && v.entries[to] == Entry(g.reps[to].logs, to, m.slot) && v.entries[to].value.state.PreAccepted?
      && v.entries[to].value.slot == m.slot && !v.committed && v.pend == 0
    ensures ViewOf(Next(g, Deliver(from, to)), lead, slot) == ViewOf(g, lead, slot)
  {
    var m := g.reps[from].out[to][0];
    var v := ViewOf(g, to, m.slot);
    var x := Absorbed(g.n, to, v, from);
    var slow := Majority(g.n, v.count + 1) && x.changed;
    var s' := OnPreAcceptReply(g.reps[to], m.slot, m.seqNo, m.deps, m.changed);
    PollIsAnswered(g, from, to, x, slow);
    var sent := if slow then [Accept(x.(state := Accepted))] else [];
    var dests := if slow then Thrifty(g.n, to) else [];
    CountedElsewhere(g, Next(g, Deliver(from, to)), from, to, s', m.slot, sent, dests, lead, slot);
  }

  lemma BooksArePoll(n: nat, lead: nat, slot: nat, v: View, p: nat, s: Replica, sent: seq<Message>, dests: seq<int>)
    requires Answering(n, lead, slot, v, p) && s.me == lead
    requires var x, last := Absorbed(n, lead, v, p), Majority(n, v.count + 1);
      && sent == (if last && x.changed then [Accept(x.(state := Accepted))] else [])
      && dests == (if last && x.changed then Thrifty(n, lead) else [])
      && if !last then Books(s, slot, Some(x), v.count + 1, v.committed, v.pend)
         else if x.changed then Books(s, slot, Some(x.(state := Accepted)), 0, v.committed, v.pend)
         else Books(s, slot, Some(x), 0, true, v.pend + 1)
    ensures Counted(v, lead, p, Entry(s.logs, lead, slot), sent, dests, s.Count(slot), s.IsCommitted(slot),
      s.pending[slot])
         == AfterPoll(n, lead, slot, v, p)
  {
  }

  lemma PollIsAnswered(g: System, from: nat, to: nat, x: Instance, slow: bool)
    requires g.Valid() && Enabled(g, Deliver(from, to)) && g.reps[from].out[to][0].PreAcceptReply?
    requires var m := g.reps[from].out[to][0];
      && Entry(g.reps[to].logs, to, m.slot).value.state.PreAccepted?
      && x == Absorb(Entry(g.reps[to].logs, to, m.slot).value, m.seqNo, m.deps, m.changed) && x.slot == m.slot
      && slow == (Majority(g.n, g.reps[to].Count(m.slot) + 1) && x.changed)
    ensures var m := g.reps[from].out[to][0];
      Answered(g, Next(g, Deliver(from, to)), from, to,
               OnPreAcceptReply(g.reps[to], m.slot, m.seqNo, m.deps, m.changed), m.slot,
               if slow then [Accept(x.(state := Accepted))] else [], if slow then Thrifty(g.n, to) else [])
  {
    var m := g.reps[from].out[to][0];
    DeliveredNext(g, from, to);
    PreAcceptReplyIsLocal(g.reps[to], m.slot, m.seqNo, m.deps, m.changed);
  }

  lemma KeepsDeliverPreAcceptReply(g: System, from: nat, to: nat, lead: nat, slot: nat)
    requires Inv(g) && Enabled(g, Deliver(from, to)) && lead < g.n
    requires g.reps[from].out[to][0].PreAcceptReply?
    ensures Kept(g, Next(g, Deliver(from, to)), lead, slot)
  {
    var k := g.reps[from].out[to][0].slot;
    PollView(g, from, to, lead, slot);
    InvAt(g, to, k);
    AfterPollShape(g.n, to, k, ViewOf(g, to, k), from);
    OneViewMoves(g, Next(g, Deliver(from, to)), to, k, AfterPoll(g.n, to, k, ViewOf(g, to, k), from), lead, slot);
  }

  lemma KeepsDeliverAcceptReply(g: System, from: nat, to: nat, lead: nat, slot: nat)
    requires Inv(g) && Enabled(g, Deliver(from, to)) && lead < g.n
    requires g.reps[from].out[to][0].AcceptReply?
    ensures Kept(g, Next(g, Deliver(from, to)), lead, slot)
  {
    var k := g.reps[from].out[to][0].slot;
    AcceptHead(g, from, to);
    AcceptCounts(g.n, to, k, ViewOf(g, to, k), from);
    AcceptView(g, from, to, lead, slot);
    OneViewMoves(g, Next(g, Deliver(from, to)), to, k, AfterAccept(g.n, to, ViewOf(g, to, k), from), lead, slot);
  }

  function AfterAccept(n: nat, lead: nat, v: View, p: nat): View
    requires lead < |v.entries| && p < |v.back| && |v.back[p]| > 0
  {
    var last := Majority(n, v.count + 1);
    Counted(v, lead, p, v.entries[lead], [], [], v.count + 1, last, if last then 1 else 0)
  }

  lemma AcceptHead(g: System, from: nat, to: nat)
    requires Inv(g) && Enabled(g, Deliver(from, to)) && g.reps[from].out[to][0].AcceptReply?
    ensures var k := g.reps[from].out[to][0].slot;
      var v := ViewOf(g, to, k);
      && Shape(g.n, to, k, v) && |v.back[from]| > 0 && v.back[from][0] == AcceptReply(k)
      && v.entries[to].Some? && !v.committed && v.pend == 0
  {
    var k := g.reps[from].out[to][0].slot;
    HeadOfLink(g, from, to);
    InvAt(g, to, k);
    assert ViewOf(g, to, k).back[from] == Back(g, to, from, k);
    BackwardHead(g.n, to, k, ViewOf(g, to, k), from);
  }

  lemma AcceptCounts(n: nat, lead: nat, slot: nat, v: View, p: nat)
    requires Shape(n, lead, slot, v) && p < n && p != lead && |v.back[p]| > 0 && v.back[p][0].AcceptReply?
    ensures Shape(n, lead, slot, AfterAccept(n, lead, v, p)) && Grows(n, lead, v, AfterAccept(n, lead, v, p))
  {
    var last := Majority(n, v.count + 1);
    KeepsAcceptReply(n, lead, slot, v, p);
    AnswerAdvances(n, lead, slot, v, p);
    CountedGrows(n, lead, v, p, v.entries[lead].value, [], [], v.count + 1, last, if last then 1 else 0);
  }

  lemma AcceptView(g: System, from: nat, to: nat, lead: nat, slot: nat)
    requires g.Valid() && Enabled(g, Deliver(from, to)) && lead < g.n && g.reps[from].out[to][0].AcceptReply?
    requires var v := ViewOf(g, to, g.reps[from].out[to][0].slot); |v.back[from]| > 0 && !v.committed && v.pend == 0
    ensures var k := g.reps[from].out[to][0].slot;
      ViewOf(Next(g, Deliver(from, to)), lead, slot) ==
        if lead == to && slot == k then AfterAccept(g.n, to, ViewOf(g, to, k), from) else ViewOf(g, lead, slot)
  {
    var k := g.reps[from].out[to][0].slot;
    AcceptReplyEffect(g.reps[to], k);
    assert ViewOf(g, to, k).entries[to] == Entry(g.reps[to].logs, to, k);
    CountedView(g, Next(g, Deliver(from, to)), from, to, OnAcceptReply(g.reps[to], k), k, [], [], lead, slot);
  }

  lemma KeepsProposeAt(g: System, r: nat, ops: seq<Operation>, lead: nat, slot: nat)
    requires Inv(g) && r < g.n && lead < g.n
    ensures Kept(g, Next(g, ProposeAt(r, ops)), lead, slot)
  {
    var b := Proposal(g.reps[r], ops);
    ProposeView(g, r, ops, lead, slot);
    InvAt(g, lead, slot);
    if lead == r && slot == b.slot {
      KeepsProposal(g.n, lead, slot, ViewOf(g, lead, slot), b);
    } else {
      SameIsKept(g, Next(g, ProposeAt(r, ops)), lead, slot);
    }
  }

  lemma KeepsDeliver(g: System, from: nat, to: nat, lead: nat, slot: nat)
    requires Inv(g) && Enabled(g, Deliver(from, to)) && lead < g.n
    ensures Kept(g, Next(g, Deliver(from, to)), lead, slot)
  {
    match g.reps[from].out[to][0]
    case PreAcceptReply(_, _, _, _) => KeepsDeliverPreAcceptReply(g, from, to, lead, slot);
    case AcceptReply(_) => KeepsDeliverAcceptReply(g, from, to, lead, slot);
    case PreAccept(_) => KeepsDeliverPreAccept(g, from, to, lead, slot);
    case Accept(_) => KeepsDeliverAccept(g, from, to, lead, slot);
    case Commit(_) => KeepsDeliverCommit(g, from, to, lead, slot);
  }

  lemma KeepsFireCommit(g: System, r: nat, k: nat, lead: nat, slot: nat)
    requires Inv(g) && Enabled(g, FireCommit(r, k)) && lead < g.n
    ensures Kept(g, Next(g, FireCommit(r, k)), lead, slot)
  {
    var v := ViewOf(g, r, k);
    InvAt(g, r, k);
    assert v.entries[r] == Held(g, r, r, k);
    KeepsFire(g.n, r, k, v);
    FiredView(g, r, k, lead, slot);
    OneViewMoves(g, Next(g, FireCommit(r, k)), r, k, Fired(v, r, g.n, v.entries[r].value.(state := Committed)), lead,
        slot);
  }

  lemma KeepsExecuteAt(g: System, r: nat, order: seq<seq<Node>>, lead: nat, slot: nat)
    requires Inv(g) && r < g.n && lead < g.n
    ensures Kept(g, Next(g, ExecuteAt(r, order)), lead, slot)
  {
    InvAt(g, lead, slot);
    ExecutedView(g, r, order, lead, slot);
    assert ViewOf(g, lead, slot).entries[r] == Held(g, r, lead, slot);
    KeepsRun(g.n, lead, slot, ViewOf(g, lead, slot), r, Held(Next(g, ExecuteAt(r, order)), r, lead, slot));
  }

  lemma StepKeeps(g: System, ev: Event, lead: nat, slot: nat)
    requires Inv(g) && Enabled(g, ev) && lead < g.n
    ensures Kept(g, Next(g, ev), lead, slot)
  {
    match ev
    case ProposeAt(r, ops) => KeepsProposeAt(g, r, ops, lead, slot);
    case Deliver(from, to) => KeepsDeliver(g, from, to, lead, slot);
    case FireCommit(r, k) => KeepsFireCommit(g, r, k, lead, slot);
    case ExecuteAt(r, order) => KeepsExecuteAt(g, r, order, lead, slot);
  }

  lemma StepInv(g: System, ev: Event)
    requires Inv(g) && Enabled(g, ev)
    ensures Inv(Next(g, ev))
    ensures forall lead: nat, slot: nat :: lead < g.n ==>
              Grows(g.n, lead, ViewOf(g, lead, slot), ViewOf(Next(g, ev), lead, slot))
  {
    forall lead: nat, slot: nat | lead < g.n
      ensures Shape(g.n, lead, slot, ViewOf(Next(g, ev), lead, slot))
      ensures Grows(g.n, lead, ViewOf(g, lead, slot), ViewOf(Next(g, ev), lead, slot))
    {
      StepKeeps(g, ev, lead, slot);
    }
  }
}
