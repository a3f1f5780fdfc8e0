/** N replicas and their FIFO links as one state machine, and what one instance looks like in it. */
module EpaxosProtocol {
  import opened Options
  import opened EpaxosTypes
  import opened EpaxosHandlers
  import opened EpaxosExecution

  // 'born' records every proposal as it was first logged by its leader. No step reads it.
  datatype System = System(n: nat, reps: seq<Replica>, born: map<(nat, nat), Instance>)
  {
    predicate Valid() {
      n >= 2 && |reps| == n &&
      forall r :: 0 <= r < n ==> reps[r].Valid() && reps[r].n == n && reps[r].me == r
    }
  }

  datatype Event =
    | ProposeAt(r: nat, ops: seq<Operation>)
    | Deliver(from: nat, to: nat)
    | FireCommit(r: nat, slot: nat)
    | ExecuteAt(r: nat, order: seq<seq<Node>>)

  function Start(n: nat): System {
    System(n, seq(n, r requires 0 <= r < n => Fresh(n, r)), map[])
  }

  // Something to do, and a handler that can do it.
  predicate Enabled(g: System, ev: Event)
    requires g.Valid()
  {
    match ev
    case ProposeAt(r, _) => r < g.n
    case Deliver(from, to) =>
      from < g.n && to < g.n && from != to && |g.reps[from].out[to]| > 0
      && Accepts(g.reps[to], from, g.reps[from].out[to][0])
    case FireCommit(r, slot) => r < g.n && slot in g.reps[r].pending && Entry(g.reps[r].logs, r, slot).Some?
    case ExecuteAt(r, _) => r < g.n
  }

  // The sender's link to j loses its head.
  function Taken(s: Replica, j: nat): Replica
    requires j < |s.out| && |s.out[j]| > 0
  {
    s.(out := s.out[j := s.out[j][1..]])
  }

  function Next(g: System, ev: Event): (r: System)
    requires g.Valid() && Enabled(g, ev)
    ensures r.Valid() && r.n == g.n
  {
    match ev
    case ProposeAt(r, ops) =>
      var s := Propose(g.reps[r], ops);
      var slot := |g.reps[r].logs[r]|;
      g.(reps := g.reps[r := s], born := g.born[(r, slot) := Entry(s.logs, r, slot).value])
    case Deliver(from, to) =>
      var m := g.reps[from].out[to][0];
      g.(reps := g.reps[from := Taken(g.reps[from], to)][to := Handle(g.reps[to], from, m)])
    case FireCommit(r, slot) => g.(reps := g.reps[r := RunCommit(g.reps[r], slot)])
    case ExecuteAt(r, order) => g.(reps := g.reps[r := ExecuteSome(g.reps[r], order)])
  }

  // ---- One instance seen across the system ----------------------------------------------------

  // The message belongs to the conversation about slot: leader to replica, or replica to leader.
  predicate About(m: Message, forward: bool, slot: int) {
    match m
    case PreAccept(inst) => forward && inst.slot == slot
    case Accept(inst) => forward && inst.slot == slot
    case Commit(inst) => forward && inst.slot == slot
    case PreAcceptReply(k, _, _, _) => !forward && k == slot
    case AcceptReply(k) => !forward && k == slot
  }

  function Filter(ch: seq<Message>, forward: bool, slot: int): seq<Message> {
    if |ch| == 0 then []
    else (if About(ch[0], forward, slot) then [ch[0]] else []) + Filter(ch[1..], forward, slot)
  }

  lemma {:induction false} FilterAppend(ch: seq<Message>, m: Message, forward: bool, slot: int)
    ensures Filter(ch + [m], forward, slot) == Filter(ch, forward, slot) + (if About(m, forward, slot) then [m] else [])
  {
    if |ch| > 0 {
      assert (ch + [m])[1..] == ch[1..] + [m];
      FilterAppend(ch[1..], m, forward, slot);
    } else {
      assert (ch + [m])[1..] == [];
    }
  }

  lemma FilterSend(out: seq<seq<Message>>, dests: seq<int>, m: Message, j: nat, forward: bool, slot: int)
    requires j < |out|
    ensures Filter(Send(out, dests, m)[j], forward, slot)
         == Filter(out[j], forward, slot) + (if j in dests && About(m, forward, slot) then [m] else [])
  {
    FilterAppend(out[j], m, forward, slot);
  }

  // Instance (lead, slot): what every replica logs for it, the conversation between its leader and
  // each replica, and the leader's books.
  datatype View = View(
    entries: seq<Option<Instance>>,
    fwd: seq<seq<Message>>, back: seq<seq<Message>>,
    count: int, committed: bool, pend: nat, born: Option<Instance>)

  function Held(g: System, r: nat, lead: nat, slot: nat): Option<Instance>
    requires g.Valid() && r < g.n
  {
    Entry(g.reps[r].logs, lead, slot)
  }

  function Fwd(g: System, lead: nat, p: nat, slot: nat): seq<Message>
    requires g.Valid() && lead < g.n && p < g.n
  {
    Filter(g.reps[lead].out[p], true, slot)
  }

  function Back(g: System, lead: nat, p: nat, slot: nat): seq<Message>
    requires g.Valid() && lead < g.n && p < g.n
  {
    Filter(g.reps[p].out[lead], false, slot)
  }

  function ViewOf(g: System, lead: nat, slot: nat): View
    requires g.Valid() && lead < g.n
  {
    View(seq(g.n, r requires 0 <= r < g.n => Held(g, r, lead, slot)),
         seq(g.n, p requires 0 <= p < g.n => Fwd(g, lead, p, slot)),
         seq(g.n, p requires 0 <= p < g.n => Back(g, lead, p, slot)),
         g.reps[lead].Count(slot), g.reps[lead].IsCommitted(slot), g.reps[lead].pending[slot],
         if (lead, slot) in g.born then Some(g.born[(lead, slot)]) else None)
  }

  // ---- How each event moves the view of each instance -----------------------------------------

  lemma ProposeView(g: System, r: nat, ops: seq<Operation>, lead: nat, slot: nat)
    requires g.Valid() && r < g.n && lead < g.n
    ensures var b := Proposal(g.reps[r], ops);
      var v := ViewOf(g, lead, slot);
      ViewOf(Next(g, ProposeAt(r, ops)), lead, slot) ==
        if lead == r && slot == b.slot
        then v.(entries := v.entries[r := Some(b)], fwd := Send(v.fwd, Thrifty(g.n, r), PreAccept(b)), born := Some(b))
        else v
  {
    var g' := Next(g, ProposeAt(r, ops));
    var b, v := Proposal(g.reps[r], ops), ViewOf(g, lead, slot);
    forall p: nat | p < g.n
      ensures Fwd(g', lead, p, slot) == Fwd(g, lead, p, slot)
              + (if lead == r && p in Thrifty(g.n, r) && slot == b.slot then [PreAccept(b)] else [])
      ensures Back(g', lead, p, slot) == Back(g, lead, p, slot)
    {
      ProposeLinks(g, r, ops, lead, slot, p);
    }
    if lead == r && slot == b.slot {
      SameViewIf(g', lead, slot,
        v.(entries := v.entries[r := Some(b)], fwd := Send(v.fwd, Thrifty(g.n, r), PreAccept(b)), born := Some(b)));
    } else {
      SameViewIf(g', lead, slot, v);
    }
  }

  lemma ProposeLinks(g: System, r: nat, ops: seq<Operation>, lead: nat, slot: nat, p: nat)
    requires g.Valid() && r < g.n && lead < g.n && p < g.n
    ensures var g', b := Next(g, ProposeAt(r, ops)), Proposal(g.reps[r], ops);
      && Fwd(g', lead, p, slot) == Fwd(g, lead, p, slot)
         + (if lead == r && p in Thrifty(g.n, r) && slot == b.slot then [PreAccept(b)] else [])
      && Back(g', lead, p, slot) == Back(g, lead, p, slot)
  {
    var b := Proposal(g.reps[r], ops);
    FilterSend(g.reps[r].out, Thrifty(g.n, r), PreAccept(b), p, true, slot);
    FilterSend(g.reps[r].out, Thrifty(g.n, r), PreAccept(b), lead, false, slot);
  }

  lemma SameViewIf(g: System, lead: nat, slot: nat, v: View)
    requires g.Valid() && lead < g.n
    requires |v.entries| == |v.fwd| == |v.back| == g.n
    requires forall p: nat :: p < g.n ==> v.entries[p] == Held(g, p, lead, slot)
    requires forall p: nat :: p < g.n ==> v.fwd[p] == Fwd(g, lead, p, slot)
    requires forall p: nat :: p < g.n ==> v.back[p] == Back(g, lead, p, slot)
    requires v.count == g.reps[lead].Count(slot) && v.committed == g.reps[lead].IsCommitted(slot)
    requires v.pend == g.reps[lead].pending[slot]
    requires v.born == if (lead, slot) in g.born then Some(g.born[(lead, slot)]) else None
    ensures ViewOf(g, lead, slot) == v
  {
    var w := ViewOf(g, lead, slot);
    assert w.entries == v.entries;
    assert w.fwd == v.fwd;
    assert w.back == v.back;
  }

  lemma FilterTaken(s: Replica, to: nat, j: nat, forward: bool, slot: nat)
    requires to < |s.out| && j < |s.out| && |s.out[to]| > 0
    ensures var ch := Filter(s.out[j], forward, slot);
      && (j == to && About(s.out[to][0], forward, slot) ==> |ch| > 0 && ch[0] == s.out[to][0])
      && Filter(Taken(s, to).out[j], forward, slot) ==
           if j == to && About(s.out[to][0], forward, slot) then ch[1..] else ch
  {
  }

  // The head of a link, as the filtered conversation shows it.
  lemma HeadOfLink(g: System, from: nat, to: nat)
    requires g.Valid() && from < g.n && to < g.n && |g.reps[from].out[to]| > 0
    ensures var m := g.reps[from].out[to][0];
      match m
      case PreAccept(inst) => |Fwd(g, from, to, inst.slot)| > 0 && Fwd(g, from, to, inst.slot)[0] == m
      case Accept(inst) => |Fwd(g, from, to, inst.slot)| > 0 && Fwd(g, from, to, inst.slot)[0] == m
      case Commit(inst) => |Fwd(g, from, to, inst.slot)| > 0 && Fwd(g, from, to, inst.slot)[0] == m
      case PreAcceptReply(k, _, _, _) => |Back(g, to, from, k)| > 0 && Back(g, to, from, k)[0] == m
      case AcceptReply(k) => |Back(g, to, from, k)| > 0 && Back(g, to, from, k)[0] == m
  {
  }

  // A replica hears from the leader 'from': it logs x and answers with reply, if any.
  function Heard(v: View, to: nat, x: Instance, reply: seq<Message>): View
    requires to < |v.entries| == |v.fwd| == |v.back| && |v.fwd[to]| > 0
  {
    v.(entries := v.entries[to := Some(x)], fwd := v.fwd[to := v.fwd[to][1..]],
        back := v.back[to := v.back[to] + reply])
  }

  // g' is g after the head of the link was handled at 'to', which is now s'.
  predicate Delivered(g: System, from: nat, to: nat, s': Replica, g': System) {
    && g.Valid() && g'.Valid() && g'.n == g.n && g'.born == g.born
    && from < g.n && to < g.n && from != to && |g.reps[from].out[to]| > 0
    && g'.reps == g.reps[from := Taken(g.reps[from], to)][to := s']
  }

  function Joined(out: seq<seq<Message>>, dests: seq<int>, ms: seq<Message>): seq<seq<Message>>
    requires |ms| <= 1
  {
    if |ms| == 1 then Send(out, dests, ms[0]) else out
  }

  lemma FilterJoined(out: seq<seq<Message>>, dests: seq<int>, ms: seq<Message>, j: nat, forward: bool, slot: int)
    requires j < |out| && |ms| <= 1
    ensures Filter(Joined(out, dests, ms)[j], forward, slot)
         == Filter(out[j], forward, slot) + (if |ms| == 1 && j in dests && About(ms[0], forward, slot) then ms else [])
  {
    if |ms| == 1 {
      FilterSend(out, dests, ms[0], j, forward, slot);
      assert ms == [ms[0]];
    }
  }

  lemma HeardLinks(g: System, g': System, from: nat, to: nat, s': Replica, k: nat, reply: seq<Message>,
                   lead: nat, slot: nat, p: nat)
    requires Delivered(g, from, to, s', g') && lead < g.n && p < g.n
    requires About(g.reps[from].out[to][0], true, k)
    requires |reply| <= 1 && (|reply| == 1 ==> About(reply[0], false, k))
    requires s'.out == Joined(g.reps[to].out, [from], reply)
    ensures Fwd(g', lead, p, slot) ==
      if lead == from && p == to && slot == k then Fwd(g, lead, p, slot)[1..] else Fwd(g, lead, p, slot)
    ensures Back(g', lead, p, slot) ==
      Back(g, lead, p, slot) + (if lead == from && p == to && slot == k then reply else [])
  {
    HeardAsk(g, g', from, to, s', k, reply, lead, slot, p);
    HeardAnswer(g, g', from, to, s', k, reply, lead, slot, p);
  }

  lemma HeardAsk(g: System, g': System, from: nat, to: nat, s': Replica, k: nat, reply: seq<Message>,
                 lead: nat, slot: nat, p: nat)
    requires Delivered(g, from, to, s', g') && lead < g.n && p < g.n
    requires About(g.reps[from].out[to][0], true, k)
    requires |reply| <= 1 && (|reply| == 1 ==> About(reply[0], false, k))
    requires s'.out == Joined(g.reps[to].out, [from], reply)
    ensures Fwd(g', lead, p, slot) ==
      if lead == from && p == to && slot == k then Fwd(g, lead, p, slot)[1..] else Fwd(g, lead, p, slot)
  {
    FilterTaken(g.reps[from], to, p, true, slot);
    FilterJoined(g.reps[to].out, [from], reply, p, true, slot);
  }

  lemma HeardAnswer(g: System, g': System, from: nat, to: nat, s': Replica, k: nat, reply: seq<Message>,
                    lead: nat, slot: nat, p: nat)
    requires Delivered(g, from, to, s', g') && lead < g.n && p < g.n
    requires About(g.reps[from].out[to][0], true, k)
    requires |reply| <= 1 && (|reply| == 1 ==> About(reply[0], false, k))
    requires s'.out == Joined(g.reps[to].out, [from], reply)
    ensures Back(g', lead, p, slot) ==
      Back(g, lead, p, slot) + (if lead == from && p == to && slot == k then reply else [])
  {
    FilterTaken(g.reps[from], to, lead, false, slot);
    FilterJoined(g.reps[to].out, [from], reply, lead, false, slot);
  }

  ghost predicate ToldOf(g: System, g': System, from: nat, to: nat, s': Replica, x: Instance, reply: seq<Message>) {
    && Delivered(g, from, to, s', g') && About(g.reps[from].out[to][0], true, x.slot)
    && |reply| <= 1 && (|reply| == 1 ==> About(reply[0], false, x.slot))
    && s' == g.reps[to].(logs := Put(g.reps[to].logs, from, x.slot, x), out := Joined(g.reps[to].out, [from], reply))
  }

  lemma HeardView(g: System, g': System, from: nat, to: nat, s': Replica, x: Instance, reply: seq<Message>,
                  lead: nat, slot: nat)
    requires ToldOf(g, g', from, to, s', x, reply) && lead < g.n
    ensures var v := ViewOf(g, lead, slot);
      (lead == from && slot == x.slot ==> |v.fwd[to]| > 0) &&
      ViewOf(g', lead, slot) == if lead == from && slot == x.slot then Heard(v, to, x, reply) else v
  {
    if lead == from && slot == x.slot {
      HeardHere(g, g', from, to, s', x, reply);
    } else {
      HeardElsewhere(g, g', from, to, s', x, reply, lead, slot);
    }
  }

  lemma HeardHere(g: System, g': System, from: nat, to: nat, s': Replica, x: Instance, reply: seq<Message>)
    requires ToldOf(g, g', from, to, s', x, reply)
    ensures var v := ViewOf(g, from, x.slot);
      |v.fwd[to]| > 0 && ViewOf(g', from, x.slot) == Heard(v, to, x, reply)
  {
    HeadOfLink(g, from, to);
    var v := ViewOf(g, from, x.slot);
    assert v.fwd[to] == Fwd(g, from, to, x.slot);
    forall p: nat | p < g.n
      ensures Fwd(g', from, p, x.slot) == Heard(v, to, x, reply).fwd[p]
      ensures Back(g', from, p, x.slot) == Heard(v, to, x, reply).back[p]
    {
      HeardLinkHere(g, g', from, to, s', x, reply, p);
    }
    SameViewIf(g', from, x.slot, Heard(v, to, x, reply));
  }

  lemma HeardLinkHere(g: System, g': System, from: nat, to: nat, s': Replica, x: Instance, reply: seq<Message>, p: nat)
    requires ToldOf(g, g', from, to, s', x, reply) && p < g.n
    ensures var v := ViewOf(g, from, x.slot);
      |v.fwd[to]| > 0 && Fwd(g', from, p, x.slot) == Heard(v, to, x, reply).fwd[p]
      && Back(g', from, p, x.slot) == Heard(v, to, x, reply).back[p]
  {
    HeadOfLink(g, from, to);
    HeardLinks(g, g', from, to, s', x.slot, reply, from, x.slot, p);
    var v := ViewOf(g, from, x.slot);
    assert v.fwd[to] == Fwd(g, from, to, x.slot) && v.fwd[p] == Fwd(g, from, p, x.slot);
    assert v.back[p] == Back(g, from, p, x.slot) && v.back[to] == Back(g, from, to, x.slot);
  }

  lemma HeardElsewhere(g: System, g': System, from: nat, to: nat, s': Replica, x: Instance, reply: seq<Message>,
                       lead: nat, slot: nat)
    requires ToldOf(g, g', from, to, s', x, reply) && lead < g.n && (lead != from || slot != x.slot)
    ensures ViewOf(g', lead, slot) == ViewOf(g, lead, slot)
  {
    forall p: nat | p < g.n
      ensures Fwd(g', lead, p, slot) == Fwd(g, lead, p, slot) && Back(g', lead, p, slot) == Back(g, lead, p, slot)
    {
      HeardLinks(g, g', from, to, s', x.slot, reply, lead, slot, p);
    }
    SameViewIf(g', lead, slot, ViewOf(g, lead, slot));
  }

  // The leader's own books after an answer from p: entry, messages to the peers, count and commit.
  function Counted(v: View, lead: nat, p: nat, e: Option<Instance>, sent: seq<Message>, dests: seq<int>,
                   count: int, committed: bool, pend: nat): View
    requires lead < |v.entries| && p < |v.back| && |v.back[p]| > 0 && |sent| <= 1
  {
    v.(entries := v.entries[lead := e],
       fwd := Joined(v.fwd, dests, sent),
       back := v.back[p := v.back[p][1..]], count := count, committed := committed, pend := pend)
  }

  lemma CountedLinks(g: System, g': System, from: nat, to: nat, s': Replica, k: nat, sent: seq<Message>,
                     dests: seq<int>, lead: nat, slot: nat, p: nat)
    requires Delivered(g, from, to, s', g') && lead < g.n && p < g.n
    requires About(g.reps[from].out[to][0], false, k)
    requires |sent| <= 1 && (|sent| == 1 ==> About(sent[0], true, k))
    requires s'.out == Joined(g.reps[to].out, dests, sent)
    ensures Fwd(g', lead, p, slot) ==
      Fwd(g, lead, p, slot) + (if lead == to && slot == k && p in dests then sent else [])
    ensures Back(g', lead, p, slot) ==
      if lead == to && p == from && slot == k then Back(g, lead, p, slot)[1..] else Back(g, lead, p, slot)
  {
    CountedAsk(g, g', from, to, s', k, sent, dests, lead, slot, p);
    CountedAnswer(g, g', from, to, s', k, sent, dests, lead, slot, p);
  }

  lemma CountedAsk(g: System, g': System, from: nat, to: nat, s': Replica, k: nat, sent: seq<Message>,
                   dests: seq<int>, lead: nat, slot: nat, p: nat)
    requires Delivered(g, from, to, s', g') && lead < g.n && p < g.n
    requires About(g.reps[from].out[to][0], false, k)
    requires |sent| <= 1 && (|sent| == 1 ==> About(sent[0], true, k))
    requires s'.out == Joined(g.reps[to].out, dests, sent)
    ensures Fwd(g', lead, p, slot) ==
      Fwd(g, lead, p, slot) + (if lead == to && slot == k && p in dests then sent else [])
  {
    FilterTaken(g.reps[from], to, p, true, slot);
    FilterJoined(g.reps[to].out, dests, sent, p, true, slot);
  }

  lemma CountedAnswer(g: System, g': System, from: nat, to: nat, s': Replica, k: nat, sent: seq<Message>,
                      dests: seq<int>, lead: nat, slot: nat, p: nat)
    requires Delivered(g, from, to, s', g') && lead < g.n && p < g.n
    requires About(g.reps[from].out[to][0], false, k)
    requires |sent| <= 1 && (|sent| == 1 ==> About(sent[0], true, k))
    requires s'.out == Joined(g.reps[to].out, dests, sent)
    ensures Back(g', lead, p, slot) ==
      if lead == to && p == from && slot == k then Back(g, lead, p, slot)[1..] else Back(g, lead, p, slot)
  {
    FilterTaken(g.reps[from], to, lead, false, slot);
    FilterJoined(g.reps[to].out, dests, sent, lead, false, slot);
  }

  // Handling an answer about slot k touches nothing else.
  ghost predicate OnlyAbout(s: Replica, s': Replica, k: int) {
    && (forall r: nat, j :: r != s.me || j != k ==> Entry(s'.logs, r, j) == Entry(s.logs, r, j))
    && (forall j :: j != k ==> s'.Count(j) == s.Count(j) && s'.IsCommitted(j) == s.IsCommitted(j)
                               && s'.pending[j] == s.pending[j])
  }

  ghost predicate Answered(g: System, g': System, from: nat, to: nat, s': Replica, k: nat, sent: seq<Message>,
                           dests: seq<int>) {
    && Delivered(g, from, to, s', g') && About(g.reps[from].out[to][0], false, k)
    && |sent| <= 1 && (|sent| == 1 ==> About(sent[0], true, k))
    && s'.out == Joined(g.reps[to].out, dests, sent) && OnlyAbout(g.reps[to], s', k)
  }

  lemma CountedView(g: System, g': System, from: nat, to: nat, s': Replica, k: nat, sent: seq<Message>, dests: seq<int>,
                    lead: nat, slot: nat)
    requires Answered(g, g', from, to, s', k, sent, dests) && lead < g.n
    ensures var v := ViewOf(g, lead, slot);
      (lead == to && slot == k ==> |v.back[from]| > 0) &&
      ViewOf(g', lead, slot) ==
        if lead == to && slot == k
        then Counted(v, to, from, Entry(s'.logs, to, k), sent, dests, s'.Count(k), s'.IsCommitted(k), s'.pending[k])
        else v
  {
    if lead == to && slot == k {
      CountedHere(g, g', from, to, s', k, sent, dests);
    } else {
      CountedElsewhere(g, g', from, to, s', k, sent, dests, lead, slot);
    }
  }

  lemma CountedHere(g: System, g': System, from: nat, to: nat, s': Replica, k: nat, sent: seq<Message>, dests: seq<int>)
    requires Answered(g, g', from, to, s', k, sent, dests)
    ensures var v := ViewOf(g, to, k);
      |v.back[from]| > 0 && ViewOf(g', to, k) ==
        Counted(v, to, from, Entry(s'.logs, to, k), sent, dests, s'.Count(k), s'.IsCommitted(k), s'.pending[k])
  {
    HeadOfLink(g, from, to);
    var v := ViewOf(g, to, k);
    assert v.back[from] == Back(g, to, from, k);
    forall p: nat | p < g.n
      ensures Fwd(g', to, p, k) == Joined(v.fwd, dests, sent)[p]
      ensures Back(g', to, p, k) == v.back[from := v.back[from][1..]][p]
    {
      CountedLinkHere(g, g', from, to, s', k, sent, dests, p);
    }
    SameViewIf(g', to, k,
        Counted(v, to, from, Entry(s'.logs, to, k), sent, dests, s'.Count(k), s'.IsCommitted(k), s'.pending[k]));
  }

  lemma JoinedAt(out: seq<seq<Message>>, dests: seq<int>, ms: seq<Message>, j: nat)
    requires j < |out| && |ms| <= 1
    ensures |Joined(out, dests, ms)| == |out|
    ensures Joined(out, dests, ms)[j] == out[j] + if j in dests then ms else []
  {
    if |ms| == 1 {
      assert ms == [ms[0]];
    } else {
      assert ms == [];
    }
  }

  lemma CountedLinkHere(g: System, g': System, from: nat, to: nat, s': Replica, k: nat, sent: seq<Message>,
                        dests: seq<int>, p: nat)
    requires Answered(g, g', from, to, s', k, sent, dests) && p < g.n
    ensures var v := ViewOf(g, to, k);
      |v.back[from]| > 0 && Fwd(g', to, p, k) == Joined(v.fwd, dests, sent)[p]
      && Back(g', to, p, k) == v.back[from := v.back[from][1..]][p]
  {
    HeadOfLink(g, from, to);
    CountedLinks(g, g', from, to, s', k, sent, dests, to, k, p);
    JoinedAt(ViewOf(g, to, k).fwd, dests, sent, p);
  }

  lemma CountedElsewhere(g: System, g': System, from: nat, to: nat, s': Replica, k: nat, sent: seq<Message>,
                         dests: seq<int>,
                         lead: nat, slot: nat)
    requires Answered(g, g', from, to, s', k, sent, dests) && lead < g.n && (lead != to || slot != k)
    ensures ViewOf(g', lead, slot) == ViewOf(g, lead, slot)
  {
    forall p: nat | p < g.n
      ensures Fwd(g', lead, p, slot) == Fwd(g, lead, p, slot) && Back(g', lead, p, slot) == Back(g, lead, p, slot)
    {
      CountedLinks(g, g', from, to, s', k, sent, dests, lead, slot, p);
    }
    SameViewIf(g', lead, slot, ViewOf(g, lead, slot));
  }

  function Fired(v: View, lead: nat, n: nat, x: Instance): View
    requires lead < n && lead < |v.entries| && v.pend > 0
  {
    v.(entries := v.entries[lead := Some(x)], fwd := Send(v.fwd, Others(n, lead), Commit(x)), pend := v.pend - 1)
  }

  lemma FiredView(g: System, r: nat, k: nat, lead: nat, slot: nat)
    requires g.Valid() && Enabled(g, FireCommit(r, k)) && lead < g.n
    requires Held(g, r, r, k).value.slot == k
    ensures var v := ViewOf(g, lead, slot);
      ViewOf(Next(g, FireCommit(r, k)), lead, slot) ==
        if lead == r && slot == k then Fired(v, r, g.n, Held(g, r, r, k).value.(state := Committed)) else v
  {
    if lead == r && slot == k {
      FiredHere(g, r, k);
    } else {
      FiredElsewhere(g, r, k, lead, slot);
    }
  }

  lemma FiredHere(g: System, r: nat, k: nat)
    requires g.Valid() && Enabled(g, FireCommit(r, k)) && Held(g, r, r, k).value.slot == k
    ensures ViewOf(Next(g, FireCommit(r, k)), r, k)
         == Fired(ViewOf(g, r, k), r, g.n, Held(g, r, r, k).value.(state := Committed))
  {
    var g', v, x := Next(g, FireCommit(r, k)), ViewOf(g, r, k), Held(g, r, r, k).value.(state := Committed);
    forall p: nat | p < g.n
      ensures Fwd(g', r, p, k) == Fwd(g, r, p, k) + (if p in Others(g.n, r) then [Commit(x)] else [])
      ensures Back(g', r, p, k) == Back(g, r, p, k)
    {
      FiredLinks(g, r, k, x, r, k, p);
    }
    SameViewIf(g', r, k, Fired(v, r, g.n, x));
  }

  lemma FiredElsewhere(g: System, r: nat, k: nat, lead: nat, slot: nat)
    requires g.Valid() && Enabled(g, FireCommit(r, k)) && Held(g, r, r, k).value.slot == k
    requires lead < g.n && (lead != r || slot != k)
    ensures ViewOf(Next(g, FireCommit(r, k)), lead, slot) == ViewOf(g, lead, slot)
  {
    var g', x := Next(g, FireCommit(r, k)), Held(g, r, r, k).value.(state := Committed);
    forall p: nat | p < g.n
      ensures Fwd(g', lead, p, slot) == Fwd(g, lead, p, slot) && Back(g', lead, p, slot) == Back(g, lead, p, slot)
    {
      FiredLinks(g, r, k, x, lead, slot, p);
    }
    SameViewIf(g', lead, slot, ViewOf(g, lead, slot));
  }

  lemma FiredLinks(g: System, r: nat, k: nat, x: Instance, lead: nat, slot: nat, p: nat)
    requires g.Valid() && Enabled(g, FireCommit(r, k)) && lead < g.n && p < g.n && x.slot == k
    requires Held(g, r, r, k).value.(state := Committed) == x
    ensures var g' := Next(g, FireCommit(r, k));
      && Fwd(g', lead, p, slot) == Fwd(g, lead, p, slot)
         + (if lead == r && p in Others(g.n, r) && slot == k then [Commit(x)] else [])
      && Back(g', lead, p, slot) == Back(g, lead, p, slot)
  {
    FiredOut(g, r, k, x, lead, p, true, slot);
    FiredOut(g, r, k, x, p, lead, false, slot);
  }

  // What the delayed commit adds to the link from one replica to another.
  lemma FiredOut(g: System, r: nat, k: nat, x: Instance, from: nat, to: nat, forward: bool, slot: nat)
    requires g.Valid() && Enabled(g, FireCommit(r, k)) && from < g.n && to < g.n && x.slot == k
    requires Held(g, r, r, k).value.(state := Committed) == x
    ensures Filter(Next(g, FireCommit(r, k)).reps[from].out[to], forward, slot)
         == Filter(g.reps[from].out[to], forward, slot)
            + (if from == r && to in Others(g.n, r) && About(Commit(x), forward, slot) then [Commit(x)] else [])
  {
    FilterSend(g.reps[r].out, Others(g.n, r), Commit(x), to, forward, slot);
  }

  lemma ExecutedView(g: System, r: nat, order: seq<seq<Node>>, lead: nat, slot: nat)
    requires g.Valid() && r < g.n && lead < g.n
    ensures var g' := Next(g, ExecuteAt(r, order));
      && EntryRan(Held(g, r, lead, slot), Held(g', r, lead, slot))
      && ViewOf(g', lead, slot) ==
         var v := ViewOf(g, lead, slot); v.(entries := v.entries[r := Held(g', r, lead, slot)])
  {
    ExecuteToRan(g.reps[r], order, |order|);
    var g' := Next(g, ExecuteAt(r, order));
    SameViewIf(g', lead, slot, var v := ViewOf(g, lead, slot); v.(entries := v.entries[r := Held(g', r, lead, slot)]));
  }
}
