/** Two replicas, one of which proposes: whatever it proposes is decided as proposed, round by round. */
module EpaxosRounds {
  import opened Options
  import opened EpaxosTypes
  import opened EpaxosScan
  import opened EpaxosHandlers
  import opened EpaxosExecution
  import opened EpaxosProtocol
  import opened EpaxosTheorems
  import opened EpaxosOrder
  import opened EpaxosConvergence
  import opened EpaxosLinks
  import opened EpaxosCrossing

  // ---- What is proposed and decided -----------------------------------------------------------

  // Replica 0's proposal when its own row is all it logs.
  function Offer(row: Row, ops: seq<Operation>): (x: Instance)
    ensures |x.deps| == 2
  {
    var (m, deps) := Scan([row, []], ops);
    Instance(0, |row|, m + 1, deps, ops, false, PreAccepted)
  }

  function Fixed(row: Row, ops: seq<Operation>): Instance {
    Offer(row, ops).(state := Committed)
  }

  // The row once the first k proposals are decided.
  function Decisions(batches: seq<seq<Operation>>, k: nat): (r: Row)
    requires k <= |batches|
    ensures |r| == k
  {
    if k == 0 then []
    else
      var row := Decisions(batches, k - 1);
      row + [Some(Fixed(row, batches[k - 1]))]
  }

  lemma PutLast(row: Row, x: Instance, y: Instance)
    requires x.slot == y.slot == |row|
    ensures Put([row, []], 0, |row|, x) == [row + [Some(x)], []]
    ensures Put([row + [Some(y)], []], 0, |row|, x) == [row + [Some(x)], []]
  {
    assert Padded(row, |row|)[|row| := Some(x)] == row + [Some(x)];
    assert Padded(row + [Some(y)], |row|)[|row| := Some(x)] == row + [Some(x)];
  }

  // ---- One round: from the proposal to both replicas knowing the decision ---------------------

  // Replica 0's books, and what was proposed so far.
  datatype Books = Books(counts: map<int, int>, committed: map<int, bool>, born: map<(nat, nat), Instance>)
  {
    predicate Without(k: nat) {
      k !in counts && k !in committed
    }

    function Proposing(x: Instance): Books {
      this.(born := born[(0, x.slot) := x])
    }

    function Deciding(x: Instance): Books {
      this.(counts := counts[x.slot := 0], committed := committed[x.slot := true])
    }
  }

  function Both(books: Books, row0: Row, row1: Row, pending: multiset<int>, sent0: seq<Message>, sent1: seq<Message>)
    : System
  {
    Pair(Rep(0, row0, [], books.counts, books.committed, pending, sent0),
         Rep(1, row1, [], map[], map[], multiset{}, sent1), books.born)
  }

  // Nothing is under way.
  function Quiet(books: Books, row: Row): System {
    Both(books, row, row, multiset{}, [], [])
  }

  function Answer(x: Instance): Message {
    PreAcceptReply(x.slot, x.seqNo, x.deps, false)
  }

  lemma RoundProposes(row: Row, ops: seq<Operation>, books: Books)
    ensures var a, g := Offer(row, ops), Quiet(books, row);
      && g.Valid()
      && Next(g, ProposeAt(0, ops)) == Both(books.Proposing(a), row + [Some(a)], row, multiset{}, [PreAccept(a)], [])
  {
    var a, g := Offer(row, ops), Quiet(books, row);
    DeliverOfTwo(g.reps[0], g.reps[1], g.born);
    assert Proposal(g.reps[0], ops) == a;
    PutLast(row, a, a);
    SendOfTwo([], [], PreAccept(a));
    LocalOfTwo(g.reps[0], g.reps[1],
        Rep(0, row + [Some(a)], [], books.counts, books.committed, multiset{}, [PreAccept(a)]));
  }

  lemma RoundAsks(row: Row, ops: seq<Operation>, books: Books)
    ensures var a := Offer(row, ops);
      var g, more := Both(books, row + [Some(a)], row, multiset{}, [PreAccept(a)], []), row + [Some(a)];
      && g.Valid() && Enabled(g, Deliver(0, 1))
      && Next(g, Deliver(0, 1)) == Both(books, more, more, multiset{}, [], [Answer(a)])
  {
    var a := Offer(row, ops);
    var g := Both(books, row + [Some(a)], row, multiset{}, [PreAccept(a)], []);
    DeliverOfTwo(g.reps[0], g.reps[1], g.born);
    TakenOfTwo(0, row + [Some(a)], [], books.counts, books.committed, multiset{}, [PreAccept(a)]);
    assert JoinDeps(a.deps, a.deps) == a.deps;
    assert Merged([row, []], a) == a;
    PutLast(row, a, a);
    SendOfTwo([], [], Answer(a));
  }

  lemma RoundDecides(row: Row, ops: seq<Operation>, books: Books)
    requires books.Without(|row|)
    ensures var a := Offer(row, ops);
      var more := row + [Some(a)];
      var g := Both(books, more, more, multiset{}, [], [Answer(a)]);
      && g.Valid() && Enabled(g, Deliver(1, 0))
      && Next(g, Deliver(1, 0)) == Both(books.Deciding(a), more, more, multiset{|row|}, [], [])
  {
    var a, k := Offer(row, ops), |row|;
    var more := row + [Some(a)];
    var g := Both(books, more, more, multiset{}, [], [Answer(a)]);
    DeliverOfTwo(g.reps[0], g.reps[1], g.born);
    TakenOfTwo(1, more, [], map[], map[], multiset{}, [Answer(a)]);
    PutLast(row, a, a);
    var nobody: multiset<int> := multiset{};
    assert nobody + multiset{k} == multiset{k};
  }

  lemma RoundCommits(row: Row, ops: seq<Operation>, books: Books)
    ensures var a, b := Offer(row, ops), Fixed(row, ops);
      var g := Both(books, row + [Some(a)], row + [Some(a)], multiset{|row|}, [], []);
      && g.Valid() && Enabled(g, FireCommit(0, |row|))
      && Next(g, FireCommit(0, |row|)) == Both(books, row + [Some(b)], row + [Some(a)], multiset{}, [Commit(b)], [])
  {
    var a, b, k := Offer(row, ops), Fixed(row, ops), |row|;
    var g := Both(books, row + [Some(a)], row + [Some(a)], multiset{k}, [], []);
    DeliverOfTwo(g.reps[0], g.reps[1], g.born);
    PutLast(row, b, a);
    SendOfTwo([], [], Commit(b));
    var nobody: multiset<int> := multiset{};
    assert multiset{k} - multiset{k} == nobody;
    LocalOfTwo(g.reps[0], g.reps[1],
        Rep(0, row + [Some(b)], [], books.counts, books.committed, multiset{}, [Commit(b)]));
  }

  lemma RoundTells(row: Row, ops: seq<Operation>, books: Books)
    ensures var a, b := Offer(row, ops), Fixed(row, ops);
      var g := Both(books, row + [Some(b)], row + [Some(a)], multiset{}, [Commit(b)], []);
      && g.Valid() && Enabled(g, Deliver(0, 1))
      && Next(g, Deliver(0, 1)) == Quiet(books, row + [Some(b)])
  {
    var a, b := Offer(row, ops), Fixed(row, ops);
    var g := Both(books, row + [Some(b)], row + [Some(a)], multiset{}, [Commit(b)], []);
    DeliverOfTwo(g.reps[0], g.reps[1], g.born);
    TakenOfTwo(0, row + [Some(b)], [], books.counts, books.committed, multiset{}, [Commit(b)]);
    PutLast(row, b, a);
  }

  // ---- The run --------------------------------------------------------------------------------

  // The run ends in g, and all it proposes are batches of this list, at replica 0.
  ghost predicate Reached(batches: seq<seq<Operation>>, run: seq<System>, evs: seq<Event>, g: System) {
    IsRun(2, run, evs) && Disciplined(run, evs) && run[|evs|] == g && OnlyProposes(evs, batches)
  }

  ghost predicate OnlyProposes(evs: seq<Event>, batches: seq<seq<Operation>>) {
    forall ev :: ev in evs && ev.ProposeAt? ==> ev.r == 0 && ev.ops in batches
  }

  lemma Onward(batches: seq<seq<Operation>>, run: seq<System>, evs: seq<Event>, g: System, ev: Event, g': System)
    returns (run': seq<System>, evs': seq<Event>)
    requires Reached(batches, run, evs, g) && g.Valid() && Enabled(g, ev) && Next(g, ev) == g' && OrderedStep(g, ev)
    requires ev.ProposeAt? ==> ev.r == 0 && ev.ops in batches
    ensures Reached(batches, run', evs', g')
  {
    run', evs' := Extend(2, run, evs, ev, g');
  }

  lemma OneRound(batches: seq<seq<Operation>>, row: Row, ops: seq<Operation>, books: Books,
                 run: seq<System>, evs: seq<Event>)
    returns (run': seq<System>, evs': seq<Event>, books': Books)
    requires books.Without(|row|) && ops in batches && Reached(batches, run, evs, Quiet(books, row))
    ensures Reached(batches, run', evs', Quiet(books', row + [Some(Fixed(row, ops))]))
    ensures books'.counts == books.counts[|row| := 0] && books'.committed == books.committed[|row| := true]
  {
    var a, b := Offer(row, ops), Fixed(row, ops);
    var more, next, g := row + [Some(a)], row + [Some(b)], Quiet(books, row);
    books' := books.Proposing(a);
    RoundProposes(row, ops, books);
    var g1 := Both(books', more, row, multiset{}, [PreAccept(a)], []);
    run', evs' := Onward(batches, run, evs, g, ProposeAt(0, ops), g1);
    RoundAsks(row, ops, books');
    var g2 := Both(books', more, more, multiset{}, [], [Answer(a)]);
    run', evs' := Onward(batches, run', evs', g1, Deliver(0, 1), g2);
    RoundDecides(row, ops, books');
    books' := books'.Deciding(a);
    var g3 := Both(books', more, more, multiset{|row|}, [], []);
    run', evs' := Onward(batches, run', evs', g2, Deliver(1, 0), g3);
    RoundCommits(row, ops, books');
    var g4 := Both(books', next, more, multiset{}, [Commit(b)], []);
    run', evs' := Onward(batches, run', evs', g3, FireCommit(0, |row|), g4);
    RoundTells(row, ops, books');
    run', evs' := Onward(batches, run', evs', g4, Deliver(0, 1), Quiet(books', next));
  }

  lemma {:induction false} AllDecided(batches: seq<seq<Operation>>, k: nat)
    returns (run: seq<System>, evs: seq<Event>, books: Books)
    requires k <= |batches|
    ensures Reached(batches, run, evs, Quiet(books, Decisions(batches, k)))
    ensures forall j: nat :: j >= k ==> books.Without(j)
    decreases k
  {
    if k == 0 {
      run, evs, books := [Start(2)], [], Books(map[], map[], map[]);
      var row: Row := [];
      assert Fresh(2, 0) == Rep(0, row, [], map[], map[], multiset{}, []);
      assert Fresh(2, 1) == Rep(1, row, [], map[], map[], multiset{}, []);
      assert Start(2).reps == [Fresh(2, 0), Fresh(2, 1)];
      assert Start(2) == Quiet(books, row);
    } else {
      var run', evs', before := AllDecided(batches, k - 1);
      run, evs, books := OneRound(batches, Decisions(batches, k - 1), batches[k - 1], before, run', evs');
      forall j: nat | j >= k ensures books.Without(j) {
        assert before.Without(j);
      }
    }
  }

  // ---- Execution ------------------------------------------------------------------------------

  // Everything in the row is decided and depends on earlier slots of the row only.
  predicate Orderly(row: Row) {
    forall i :: 0 <= i < |row| ==>
      && row[i].Some? && row[i].value.state.Committed?
      && |row[i].value.deps| == 2 && row[i].value.deps[0] < i && row[i].value.deps[1] == -1
  }

  lemma OfferDeps(row: Row, ops: seq<Operation>)
    ensures Offer(row, ops).deps[0] < |row| && Offer(row, ops).deps[1] == -1
  {
    ScanMeaning([row, []], ops);
  }

  lemma {:induction false} DecisionsOrderly(batches: seq<seq<Operation>>, k: nat)
    requires k <= |batches|
    ensures Orderly(Decisions(batches, k))
  {
    if k > 0 {
      DecisionsOrderly(batches, k - 1);
      OfferDeps(Decisions(batches, k - 1), batches[k - 1]);
    }
  }

  function Nodes(slots: seq<nat>): seq<Node> {
    seq(|slots|, i requires 0 <= i < |slots| => Node(0, slots[i]))
  }

  // Every instance a component of its own, in this order of slots.
  function Alone(slots: seq<nat>): seq<seq<Node>> {
    seq(|slots|, i requires 0 <= i < |slots| => [Node(0, slots[i])])
  }

  // The slots of the row, each once and after what it depends on.
  predicate InOrder(row: Row, slots: seq<nat>) {
    && Orderly(row)
    && (forall i, j :: 0 <= i < j < |slots| ==> slots[i] != slots[j])
    && forall i :: 0 <= i < |slots| ==>
         slots[i] < |row| && (row[slots[i]].value.deps[0] >= 0 ==> row[slots[i]].value.deps[0] in slots[..i])
  }

  predicate Knows(s: Replica, row: Row) {
    s.Valid() && s.n == 2 && s.logs == [row, []] && s.kvmap == map[]
  }

  lemma KnownNode(s: Replica, row: Row, v: Node)
    requires Knows(s, row) && Orderly(row)
    ensures ValidNode(s.logs, v) <==> v.rep == 0 && 0 <= v.slot < |row|
    ensures ValidNode(s.logs, v) ==> Inst(s.logs, v) == row[v.slot].value
  {
  }

  lemma AloneIsGood(s: Replica, row: Row, slots: seq<nat>)
    requires Knows(s, row) && InOrder(row, slots)
    ensures GoodOrder(s.logs, Alone(slots))
  {
    var order := Alone(slots);
    forall c, v, rep: nat, d | 0 <= c < |order| && v in order[c] && Edge(s.logs, v, rep, d)
      ensures InFirst(order, c + 1, d)
    {
      KnownNode(s, row, v);
      KnownNode(s, row, d);
      assert v == Node(0, slots[c]) && d.slot in slots[..c];
      var k :| 0 <= k < c && slots[k] == d.slot;
      assert d in order[k];
    }
    forall c | 0 <= c < |order| ensures SortedBySeq(s.logs, order[c]) {
    }
  }

  // The first c of the slots have run, and nothing stopped them.
  predicate RanFirst(p: Progress, slots: seq<nat>, c: nat)
    requires c <= |slots|
  {
    p.trace == Nodes(slots[..c]) && !p.stopped
  }

  lemma {:induction false} AllRun(s: Replica, row: Row, slots: seq<nat>, c: nat)
    requires Knows(s, row) && InOrder(row, slots) && c <= |slots|
    ensures RanFirst(ExecuteTo(s, Alone(slots), c), slots, c)
  {
    if c > 0 {
      AllRun(s, row, slots, c - 1);
      OneMoreRun(s, row, slots, c - 1);
    }
  }

  lemma OneMoreRun(s: Replica, row: Row, slots: seq<nat>, c: nat)
    requires Knows(s, row) && InOrder(row, slots) && c < |slots| && RanFirst(ExecuteTo(s, Alone(slots), c), slots, c)
    ensures RanFirst(ExecuteTo(s, Alone(slots), c + 1), slots, c + 1)
  {
    ExecuteTrace(s, Alone(slots), c);
    NextRuns(s, row, slots, c, ExecuteTo(s, Alone(slots), c));
    OneAlone(s, slots, c);
  }

  lemma OneAlone(s: Replica, slots: seq<nat>, c: nat)
    requires s.Valid() && c < |slots|
    ensures ExecuteTo(s, Alone(slots), c + 1) == Visit(ExecuteTo(s, Alone(slots), c), Node(0, slots[c]))
  {
    var p, scc := ExecuteTo(s, Alone(slots), c), Alone(slots)[c];
    var i := |scc| - 1;
    assert VisitAll(p, scc, i) == p;
    assert VisitAll(p, scc, |scc|) == Visit(VisitAll(p, scc, i), scc[i]);
  }

  lemma NodeInOrder(slots: seq<nat>, c: nat, k: nat)
    requires c <= |slots|
    ensures Node(0, k) in Nodes(slots[..c]) <==> k in slots[..c]
  {
    if k in slots[..c] {
      var i :| 0 <= i < c && slots[..c][i] == k;
      assert Nodes(slots[..c])[i] == Node(0, k);
    }
  }

  // With its dependency run, an instance runs.
  lemma NextRuns(s: Replica, row: Row, slots: seq<nat>, c: nat, p: Progress)
    requires Knows(s, row) && InOrder(row, slots) && c < |slots| && p.s.Valid() && TraceOf(s, p)
    requires RanFirst(p, slots, c)
    ensures RanFirst(Visit(p, Node(0, slots[c])), slots, c + 1)
  {
    var v := Node(0, slots[c]);
    NextIsReady(s, row, slots, c, p);
    assert Visit(p, v).trace == p.trace + [v] && !Visit(p, v).stopped;
    assert Nodes(slots[..c + 1]) == Nodes(slots[..c]) + [v];
  }

  lemma NextIsReady(s: Replica, row: Row, slots: seq<nat>, c: nat, p: Progress)
    requires Knows(s, row) && InOrder(row, slots) && c < |slots| && p.s.Valid() && TraceOf(s, p)
    requires RanFirst(p, slots, c)
    ensures Runs(p, Node(0, slots[c]))
  {
    var v, x := Node(0, slots[c]), row[slots[c]].value;
    NodeInOrder(slots, c, slots[c]);
    TraceEntries(s, p, v);
    KnownNode(s, row, v);
    DepIsReady(s, row, slots, c, p);
  }

  lemma DepIsReady(s: Replica, row: Row, slots: seq<nat>, c: nat, p: Progress)
    requires Knows(s, row) && InOrder(row, slots) && c < |slots| && p.s.Valid() && TraceOf(s, p)
    requires RanFirst(p, slots, c)
    ensures DepsReady(p.s.logs, row[slots[c]].value.deps)
  {
    var d := row[slots[c]].value.deps[0];
    if d >= 0 {
      NodeInOrder(slots, c, d);
      TraceEntries(s, p, Node(0, d));
      assert DepReady(p.s.logs, 0, d);
    }
  }

  // What the replica has then: the instances of these slots executed, and the data of running them.
  ghost predicate RanInOrder(t: Replica, row: Row, slots: seq<nat>)
    requires Orderly(row) && forall i :: 0 <= i < |slots| ==> slots[i] < |row|
  {
    && (forall v :: IsExecuted(t.logs, v) <==> v.rep == 0 && v.slot in slots)
    && (forall v :: IsExecuted(t.logs, v) ==>
          0 <= v.slot < |row| && SameDecision(row[v.slot].value, Inst(t.logs, v)))
    && t.kvmap == RunAll(map[], Listed(row, slots)).0
  }

  function Listed(row: Row, slots: seq<nat>): seq<Instance>
    requires Orderly(row) && forall i :: 0 <= i < |slots| ==> slots[i] < |row|
  {
    seq(|slots|, i requires 0 <= i < |slots| => row[slots[i]].value)
  }

  lemma RunsInOrder(s: Replica, row: Row, slots: seq<nat>)
    requires Knows(s, row) && InOrder(row, slots)
    ensures RanInOrder(ExecuteSome(s, Alone(slots)), row, slots)
  {
    var k := |slots|;
    var p := ExecuteTo(s, Alone(slots), k);
    AllRun(s, row, slots, k);
    ExecuteTrace(s, Alone(slots), k);
    RanAsTraced(s, row, slots, p);
  }

  lemma RanAsTraced(s: Replica, row: Row, slots: seq<nat>, p: Progress)
    requires Knows(s, row) && InOrder(row, slots) && p.s.Valid() && TraceOf(s, p) && RanFirst(p, slots, |slots|)
    ensures RanInOrder(p.s, row, slots)
  {
    assert slots[..|slots|] == slots;
    forall v ensures IsExecuted(p.s.logs, v) <==> v.rep == 0 && v.slot in slots
      ensures IsExecuted(p.s.logs, v) ==> 0 <= v.slot < |row| && SameDecision(row[v.slot].value, Inst(p.s.logs, v))
    {
      NodeRan(s, row, slots, p, v);
    }
    assert Logged(s.logs, p.trace) == Listed(row, slots);
  }

  lemma NodeRan(s: Replica, row: Row, slots: seq<nat>, p: Progress, v: Node)
    requires Knows(s, row) && InOrder(row, slots) && p.s.Valid() && TraceOf(s, p) && p.trace == Nodes(slots)
    ensures IsExecuted(p.s.logs, v) <==> v.rep == 0 && v.slot in slots
    ensures IsExecuted(p.s.logs, v) ==> 0 <= v.slot < |row| && SameDecision(row[v.slot].value, Inst(p.s.logs, v))
  {
    TraceEntries(s, p, v);
    KnownNode(s, row, v);
    if v.rep == 0 && v.slot >= 0 {
      NodeInOrder(slots, |slots|, v.slot);
      assert slots[..|slots|] == slots;
    }
  }

  // Whatever replica 0 proposes, batch after batch, a run decides it all, and the two replicas then
  // execute it in any two orders that run each instance after the one it depends on.
  lemma RoundsRun(batches: seq<seq<Operation>>, slots0: seq<nat>, slots1: seq<nat>)
    returns (run: seq<System>, evs: seq<Event>)
    requires InOrder(Decisions(batches, |batches|), slots0) && InOrder(Decisions(batches, |batches|), slots1)
    ensures IsRun(2, run, evs) && Disciplined(run, evs) && OnlyProposes(evs, batches)
    ensures run[|evs|].Valid() && run[|evs|].n == 2
    ensures RanInOrder(run[|evs|].reps[0], Decisions(batches, |batches|), slots0)
    ensures RanInOrder(run[|evs|].reps[1], Decisions(batches, |batches|), slots1)
  {
    var row := Decisions(batches, |batches|);
    var books;
    run, evs, books := AllDecided(batches, |batches|);
    var g := Quiet(books, row);
    DeliverOfTwo(g.reps[0], g.reps[1], g.born);
    AloneIsGood(g.reps[0], row, slots0);
    AloneIsGood(g.reps[1], row, slots1);
    RunsInOrder(g.reps[0], row, slots0);
    RunsInOrder(g.reps[1], row, slots1);
    run, evs := BothExecute(batches, g, run, evs, Alone(slots0), Alone(slots1));
  }

  lemma BothExecute(batches: seq<seq<Operation>>, g: System, run: seq<System>, evs: seq<Event>,
                    order0: seq<seq<Node>>, order1: seq<seq<Node>>)
    returns (run': seq<System>, evs': seq<Event>)
    requires Reached(batches, run, evs, g) && g.Valid() && g.n == 2
    requires GoodOrder(g.reps[0].logs, order0) && GoodOrder(g.reps[1].logs, order1)
    ensures IsRun(2, run', evs') && Disciplined(run', evs') && OnlyProposes(evs', batches)
    ensures |run'| == |evs'| + 1 && run'[|evs'|].Valid() && run'[|evs'|].n == 2
    ensures run'[|evs'|].reps[0] == ExecuteSome(g.reps[0], order0)
    ensures run'[|evs'|].reps[1] == ExecuteSome(g.reps[1], order1)
  {
    var g1 := Next(g, ExecuteAt(0, order0));
    run', evs' := Onward(batches, run, evs, g, ExecuteAt(0, order0), g1);
    assert g1.reps[1] == g.reps[1];
    run', evs' := Onward(batches, run', evs', g1, ExecuteAt(1, order1), Next(g1, ExecuteAt(1, order1)));
  }
}
