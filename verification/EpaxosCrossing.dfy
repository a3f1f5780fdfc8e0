/** Two replicas that propose conflicting writes at once: what the scan misses, and how their data comes apart. */
module EpaxosCrossing {
  import opened Options
  import opened EpaxosTypes
  import opened EpaxosScan
  import opened EpaxosHandlers
  import opened EpaxosExecution
  import opened EpaxosProtocol
  import opened EpaxosTheorems
  import opened EpaxosOrder
  import opened EpaxosConvergence
  import opened EpaxosLinks

  // ---- Two replicas with at most one instance in each row -------------------------------------

  // What replica me holds and has sent to the other.
  function Rep(me: nat, row0: Row, row1: Row, counts: map<int, int>, committed: map<int, bool>, pending: multiset<int>,
               sent: seq<Message>): Replica
  {
    Replica(2, me, [row0, row1], counts, committed, pending,
            if me == 0 then [[], sent] else [sent, []], map[], [-1, -1])
  }

  function Pair(r0: Replica, r1: Replica, born: map<(nat, nat), Instance>): System {
    System(2, [r0, r1], born)
  }

  predicate IsPair(r0: Replica, r1: Replica) {
    r0.Valid() && r1.Valid() && r0.n == r1.n == 2 && r0.me == 0 && r1.me == 1
  }

  predicate Single(row: Row, ops: seq<Operation>) {
    |row| <= 1 && (|row| == 1 ==> row[0].Some? && Conflict(row[0].value.ops, ops))
  }

  // The scan of one such row.
  function Top(row: Row, m: int): (int, int) {
    if |row| > 0 && row[0].Some? && row[0].value.seqNo > m then (row[0].value.seqNo, 0) else (m, -1)
  }

  lemma TopOfRow(row: Row, ops: seq<Operation>, m: int)
    requires Single(row, ops)
    ensures ScanRow(row, ops, |row|, m, -1) == Top(row, m)
  {
    if |row| == 1 {
      var (m', d) := Top(row, m);
      assert Hit(row, 0, ops);
      assert ScanRow(row, ops, 0, m', d) == (m', d);
    }
  }

  lemma ScanOfTwo(row0: Row, row1: Row, ops: seq<Operation>)
    requires Single(row0, ops) && Single(row1, ops)
    ensures var (m0, d0) := Top(row0, 0); var (m1, d1) := Top(row1, m0); Scan([row0, row1], ops) == (m1, [d0, d1])
  {
    var logs: Log, first: Log := [row0, row1], [row0];
    var n, k := |logs| - 1, |first| - 1;
    assert logs[..n] == first && first[..k] == [];
    TopOfRow(row0, ops, 0);
    assert Scan(first, ops) == (Top(row0, 0).0, [] + [Top(row0, 0).1]);
    TopOfRow(row1, ops, Top(row0, 0).0);
    assert Scan(logs, ops) == (Top(row1, Top(row0, 0).0).0, Scan(first, ops).1 + [Top(row1, Top(row0, 0).0).1]);
    assert Scan(logs, ops).1 == [Top(row0, 0).1, Top(row1, Top(row0, 0).0).1];
  }

  lemma PutOfTwo(row0: Row, row1: Row, x: Instance)
    requires x.slot == 0
    ensures |row0| <= 1 ==> Put([row0, row1], 0, 0, x) == [[Some(x)], row1]
    ensures |row1| <= 1 ==> Put([row0, row1], 1, 0, x) == [row0, [Some(x)]]
  {
    if |row0| <= 1 {
      assert Padded(row0, 0)[0 := Some(x)] == [Some(x)];
    }
    if |row1| <= 1 {
      assert Padded(row1, 0)[0 := Some(x)] == [Some(x)];
    }
  }

  function And(sent: seq<Message>, m: Message): seq<Message>
    requires |sent| <= 1
  {
    if |sent| == 0 then [m] else [sent[0], m]
  }

  lemma SendOfTwo(a: seq<Message>, b: seq<Message>, m: Message)
    requires |a| <= 1 && |b| <= 1
    ensures Send([a, b], [0], m) == [And(a, m), b] && Send([a, b], [1], m) == [a, And(b, m)]
    ensures Thrifty(2, 0) == [1] && Thrifty(2, 1) == [0] && Others(2, 0) == [1] && Others(2, 1) == [0]
  {
    assert a + [m] == And(a, m) && b + [m] == And(b, m);
    ThriftyAt(2, 0, 0);
    ThriftyAt(2, 1, 0);
  }

  lemma JoinOfTwo(a0: int, a1: int, b0: int, b1: int)
    ensures JoinDeps([a0, a1], [b0, b1]) == [Max(a0, b0), Max(a1, b1)]
  {
  }

  lemma DeliverOfTwo(r0: Replica, r1: Replica, born: map<(nat, nat), Instance>)
    requires IsPair(r0, r1)
    ensures Pair(r0, r1, born).Valid()
    ensures |r0.out[1]| > 0 && Accepts(r1, 0, r0.out[1][0]) ==>
      && Enabled(Pair(r0, r1, born), Deliver(0, 1))
      && Next(Pair(r0, r1, born), Deliver(0, 1)) == Pair(Taken(r0, 1), Handle(r1, 0, r0.out[1][0]), born)
    ensures |r1.out[0]| > 0 && Accepts(r0, 1, r1.out[0][0]) ==>
      && Enabled(Pair(r0, r1, born), Deliver(1, 0))
      && Next(Pair(r0, r1, born), Deliver(1, 0)) == Pair(Handle(r0, 1, r1.out[0][0]), Taken(r1, 0), born)
  {
    forall a: Replica, b: Replica ensures [r0, r1][0 := a][1 := b] == [a, b] && [r0, r1][1 := b][0 := a] == [a, b] {
    }
  }

  lemma TakenOfTwo(me: nat, row0: Row, row1: Row, counts: map<int, int>, committed: map<int, bool>,
                   pending: multiset<int>,
                   sent: seq<Message>)
    requires me < 2 && |sent| > 0
    ensures Taken(Rep(me, row0, row1, counts, committed, pending, sent), 1 - me)
         == Rep(me, row0, row1, counts, committed, pending, sent[1..])
    ensures (|sent| == 1 ==> sent[1..] == []) && (|sent| == 2 ==> sent[1..] == [sent[1]])
  {
    var r := Rep(me, row0, row1, counts, committed, pending, sent);
    assert r.out[1 - me := sent[1..]] == if me == 0 then [[], sent[1..]] else [sent[1..], []];
  }

  lemma LocalOfTwo(r0: Replica, r1: Replica, a: Replica)
    ensures [r0, r1][0 := a] == [a, r1] && [r0, r1][1 := a] == [r0, a]
  {
  }

  // ---- The two writes -------------------------------------------------------------------------

  function Put1(key: string, v: Bytes): seq<Operation> {
    [Operation(Write, key, v)]
  }

  // Replica 0's instance and replica 1's.
  function A(key: string, x: Bytes, seqNo: int, deps: seq<int>, changed: bool, state: InstState): Instance {
    Instance(0, 0, seqNo, deps, Put1(key, x), changed, state)
  }

  function B(key: string, y: Bytes, seqNo: int, deps: seq<int>, changed: bool, state: InstState): Instance {
    Instance(1, 0, seqNo, deps, Put1(key, y), changed, state)
  }

  lemma SameKey(key: string, x: Bytes, y: Bytes)
    ensures Conflict(Put1(key, x), Put1(key, y))
  {
    assert Put1(key, x)[0].key == Put1(key, y)[0].key;
  }

  datatype Writes = Writes(key: string, x: Bytes, y: Bytes)
  {
    function A0(): Instance { A(key, x, 1, [-1, -1], false, PreAccepted) }        // as proposed
    function B0(): Instance { B(key, y, 1, [-1, -1], false, PreAccepted) }
    function A1(state: InstState): Instance { A(key, x, 2, [-1, 0], true, state) }   // as merged by the other
    function B1(state: InstState): Instance { B(key, y, 2, [0, -1], true, state) }
    function AskedA(): Message { PreAcceptReply(0, 2, [-1, 0], true) }
    function AskedB(): Message { PreAcceptReply(0, 2, [0, -1], true) }
    function Born(): map<(nat, nat), Instance> { map[(0, 0) := A0(), (1, 0) := B0()] }

    // Both have proposed.
    function G2(): System {
      Pair(Rep(0, [Some(A0())], [], map[], map[], multiset{}, [PreAccept(A0())]),
           Rep(1, [], [Some(B0())], map[], map[], multiset{}, [PreAccept(B0())]), Born())
    }

    function G3(): System {
      Pair(Rep(0, [Some(A0())], [], map[], map[], multiset{}, []),
           Rep(1, [Some(A1(PreAccepted))], [Some(B0())], map[], map[], multiset{}, [PreAccept(B0()), AskedA()]), Born())
    }

    // The pre-accepts have crossed.
    function G4(): System {
      Pair(Rep(0, [Some(A0())], [Some(B1(PreAccepted))], map[], map[], multiset{}, [AskedB()]),
           Rep(1, [Some(A1(PreAccepted))], [Some(B0())], map[], map[], multiset{}, [AskedA()]), Born())
    }

    // One answer is back: replica 0 goes on to its second phase.
    function G5(): System {
      Pair(Rep(0, [Some(A1(Accepted))], [Some(B1(PreAccepted))], map[0 := 0], map[], multiset{},
               [AskedB(), Accept(A1(Accepted))]),
           Rep(1, [Some(A1(PreAccepted))], [Some(B0())], map[], map[], multiset{}, []), Born())
    }

    function G6(): System {
      Pair(Rep(0, [Some(A1(Accepted))], [Some(B1(PreAccepted))], map[0 := 0], map[], multiset{},
               [Accept(A1(Accepted))]),
           Rep(1, [Some(A1(PreAccepted))], [Some(B1(Accepted))], map[0 := 0], map[], multiset{},
               [Accept(B1(Accepted))]), Born())
    }

    function G7(): System {
      Pair(Rep(0, [Some(A1(Accepted))], [Some(B1(PreAccepted))], map[0 := 0], map[], multiset{}, []),
           Rep(1, [Some(A1(Accepted))], [Some(B1(Accepted))], map[0 := 0], map[], multiset{},
               [Accept(B1(Accepted)), AcceptReply(0)]), Born())
    }

    function G8(): System {
      Pair(Rep(0, [Some(A1(Accepted))], [Some(B1(Accepted))], map[0 := 0], map[], multiset{}, [AcceptReply(0)]),
           Rep(1, [Some(A1(Accepted))], [Some(B1(Accepted))], map[0 := 0], map[], multiset{}, [AcceptReply(0)]), Born())
    }

    function G9(): System {
      Pair(Rep(0, [Some(A1(Accepted))], [Some(B1(Accepted))], map[0 := 1], map[0 := true], multiset{0},
               [AcceptReply(0)]),
           Rep(1, [Some(A1(Accepted))], [Some(B1(Accepted))], map[0 := 0], map[], multiset{}, []), Born())
    }

    // Both have decided.
    function G10(): System {
      Pair(Rep(0, [Some(A1(Accepted))], [Some(B1(Accepted))], map[0 := 1], map[0 := true], multiset{0}, []),
           Rep(1, [Some(A1(Accepted))], [Some(B1(Accepted))], map[0 := 1], map[0 := true], multiset{0}, []), Born())
    }

    function G11(): System {
      Pair(Rep(0, [Some(A1(Committed))], [Some(B1(Accepted))], map[0 := 1], map[0 := true], multiset{},
               [Commit(A1(Committed))]),
           Rep(1, [Some(A1(Accepted))], [Some(B1(Accepted))], map[0 := 1], map[0 := true], multiset{0}, []), Born())
    }

    function G12(): System {
      Pair(Rep(0, [Some(A1(Committed))], [Some(B1(Accepted))], map[0 := 1], map[0 := true], multiset{},
               [Commit(A1(Committed))]),
           Rep(1, [Some(A1(Accepted))], [Some(B1(Committed))], map[0 := 1], map[0 := true], multiset{},
               [Commit(B1(Committed))]), Born())
    }

    function G13(): System {
      Pair(Rep(0, [Some(A1(Committed))], [Some(B1(Accepted))], map[0 := 1], map[0 := true], multiset{}, []),
           Rep(1, [Some(A1(Committed))], [Some(B1(Committed))], map[0 := 1], map[0 := true], multiset{},
               [Commit(B1(Committed))]), Born())
    }

    // Everybody knows both decisions.
    function G14(): System {
      Pair(Rep(0, [Some(A1(Committed))], [Some(B1(Committed))], map[0 := 1], map[0 := true], multiset{}, []),
           Rep(1, [Some(A1(Committed))], [Some(B1(Committed))], map[0 := 1], map[0 := true], multiset{}, []), Born())
    }
  }

  // ---- Steps between them ---------------------------------------------------------------------

  lemma ProposeOf0(w: Writes)
    ensures Propose(Fresh(2, 0), Put1(w.key, w.x)) ==
      Rep(0, [Some(w.A0())], [], map[], map[], multiset{}, [PreAccept(w.A0())])
  {
    var fresh0 := Fresh(2, 0);
    assert fresh0 == Rep(0, [], [], map[], map[], multiset{}, []);
    ScanOfTwo([], [], Put1(w.key, w.x));
    PutOfTwo([], [], w.A0());
    SendOfTwo([], [], PreAccept(w.A0()));
  }

  lemma ProposeOf1(w: Writes)
    ensures Propose(Fresh(2, 1), Put1(w.key, w.y)) ==
      Rep(1, [], [Some(w.B0())], map[], map[], multiset{}, [PreAccept(w.B0())])
  {
    var fresh1 := Fresh(2, 1);
    assert fresh1 == Rep(1, [], [], map[], map[], multiset{}, []);
    ScanOfTwo([], [], Put1(w.key, w.y));
    PutOfTwo([], [], w.B0());
    SendOfTwo([], [], PreAccept(w.B0()));
  }

  function G1(w: Writes): System {
    Pair(Rep(0, [Some(w.A0())], [], map[], map[], multiset{}, [PreAccept(w.A0())]), Fresh(2, 1), map[(0, 0) := w.A0()])
  }

  lemma Step1(w: Writes)
    ensures Start(2).Valid() && Next(Start(2), ProposeAt(0, Put1(w.key, w.x))) == G1(w)
  {
    assert Start(2).reps == [Fresh(2, 0), Fresh(2, 1)];
    ProposeOf0(w);
    LocalOfTwo(Fresh(2, 0), Fresh(2, 1), G1(w).reps[0]);
  }

  lemma Step2(w: Writes)
    ensures G1(w).Valid() && Next(G1(w), ProposeAt(1, Put1(w.key, w.y))) == w.G2()
  {
    ProposeOf1(w);
    LocalOfTwo(G1(w).reps[0], Fresh(2, 1), w.G2().reps[1]);
  }

  lemma Step3(w: Writes)
    ensures w.G2().Valid() && Enabled(w.G2(), Deliver(0, 1)) && Next(w.G2(), Deliver(0, 1)) == w.G3()
  {
    var g := w.G2();
    DeliverOfTwo(g.reps[0], g.reps[1], g.born);
    TakenOfTwo(0, [Some(w.A0())], [], map[], map[], multiset{}, [PreAccept(w.A0())]);
    SameKey(w.key, w.y, w.x);
    ScanOfTwo([], [Some(w.B0())], Put1(w.key, w.x));
    JoinOfTwo(-1, -1, -1, 0);
    assert Merged([[], [Some(w.B0())]], w.A0()) == w.A1(PreAccepted);
    PutOfTwo([], [Some(w.B0())], w.A1(PreAccepted));
    SendOfTwo([PreAccept(w.B0())], [], w.AskedA());
  }

  lemma Step4(w: Writes)
    ensures w.G3().Valid() && Enabled(w.G3(), Deliver(1, 0)) && Next(w.G3(), Deliver(1, 0)) == w.G4()
  {
    var g := w.G3();
    DeliverOfTwo(g.reps[0], g.reps[1], g.born);
    TakenOfTwo(1, [Some(w.A1(PreAccepted))], [Some(w.B0())], map[], map[], multiset{}, [PreAccept(w.B0()), w.AskedA()]);
    SameKey(w.key, w.x, w.y);
    ScanOfTwo([Some(w.A0())], [], Put1(w.key, w.y));
    JoinOfTwo(-1, -1, 0, -1);
    assert Merged([[Some(w.A0())], []], w.B0()) == w.B1(PreAccepted);
    PutOfTwo([Some(w.A0())], [], w.B1(PreAccepted));
    SendOfTwo([], [], w.AskedB());
  }

  lemma Step5(w: Writes)
    ensures w.G4().Valid() && Enabled(w.G4(), Deliver(1, 0)) && Next(w.G4(), Deliver(1, 0)) == w.G5()
  {
    var g := w.G4();
    DeliverOfTwo(g.reps[0], g.reps[1], g.born);
    TakenOfTwo(1, [Some(w.A1(PreAccepted))], [Some(w.B0())], map[], map[], multiset{}, [w.AskedA()]);
    JoinOfTwo(-1, -1, -1, 0);
    assert Absorb(w.A0(), 2, [-1, 0], true) == w.A1(PreAccepted);
    PutOfTwo([Some(w.A0())], [Some(w.B1(PreAccepted))], w.A1(Accepted));
    SendOfTwo([], [w.AskedB()], Accept(w.A1(Accepted)));
  }

  lemma Step6(w: Writes)
    ensures w.G5().Valid() && Enabled(w.G5(), Deliver(0, 1)) && Next(w.G5(), Deliver(0, 1)) == w.G6()
  {
    var g := w.G5();
    DeliverOfTwo(g.reps[0], g.reps[1], g.born);
    TakenOfTwo(0, [Some(w.A1(Accepted))], [Some(w.B1(PreAccepted))], map[0 := 0], map[], multiset{},
               [w.AskedB(), Accept(w.A1(Accepted))]);
    JoinOfTwo(-1, -1, 0, -1);
    assert Absorb(w.B0(), 2, [0, -1], true) == w.B1(PreAccepted);
    PutOfTwo([Some(w.A1(PreAccepted))], [Some(w.B0())], w.B1(Accepted));
    SendOfTwo([], [], Accept(w.B1(Accepted)));
  }

  lemma Step7(w: Writes)
    ensures w.G6().Valid() && Enabled(w.G6(), Deliver(0, 1)) && Next(w.G6(), Deliver(0, 1)) == w.G7()
  {
    var g := w.G6();
    DeliverOfTwo(g.reps[0], g.reps[1], g.born);
    TakenOfTwo(0, [Some(w.A1(Accepted))], [Some(w.B1(PreAccepted))], map[0 := 0], map[], multiset{},
               [Accept(w.A1(Accepted))]);
    PutOfTwo([Some(w.A1(PreAccepted))], [Some(w.B1(Accepted))], w.A1(Accepted));
    SendOfTwo([Accept(w.B1(Accepted))], [], AcceptReply(0));
  }

  lemma Step8(w: Writes)
    ensures w.G7().Valid() && Enabled(w.G7(), Deliver(1, 0)) && Next(w.G7(), Deliver(1, 0)) == w.G8()
  {
    var g := w.G7();
    DeliverOfTwo(g.reps[0], g.reps[1], g.born);
    TakenOfTwo(1, [Some(w.A1(Accepted))], [Some(w.B1(Accepted))], map[0 := 0], map[], multiset{},
               [Accept(w.B1(Accepted)), AcceptReply(0)]);
    PutOfTwo([Some(w.A1(Accepted))], [Some(w.B1(PreAccepted))], w.B1(Accepted));
    SendOfTwo([], [], AcceptReply(0));
  }

  // The last answer to a request for acceptance.
  lemma Decided(w: Writes)
    ensures var r := Rep(0, [Some(w.A1(Accepted))], [Some(w.B1(Accepted))], map[0 := 0], map[], multiset{},
                         [AcceptReply(0)]);
      OnAcceptReply(r, 0)
      == Rep(0, [Some(w.A1(Accepted))], [Some(w.B1(Accepted))], map[0 := 1], map[0 := true], multiset{0},
               [AcceptReply(0)])
    ensures var r := Rep(1, [Some(w.A1(Accepted))], [Some(w.B1(Accepted))], map[0 := 0], map[], multiset{}, []);
      OnAcceptReply(r, 0)
      == Rep(1, [Some(w.A1(Accepted))], [Some(w.B1(Accepted))], map[0 := 1], map[0 := true], multiset{0}, [])
  {
    var none: map<int, bool> := map[];
    var nobody: multiset<int> := multiset{};
    assert none[0 := true] == map[0 := true];
    assert nobody + multiset{0} == multiset{0};
    assert map[0 := 0][0 := 1] == map[0 := 1];
  }

  lemma Step9(w: Writes)
    ensures w.G8().Valid() && Enabled(w.G8(), Deliver(1, 0)) && Next(w.G8(), Deliver(1, 0)) == w.G9()
  {
    var g := w.G8();
    DeliverOfTwo(g.reps[0], g.reps[1], g.born);
    TakenOfTwo(1, [Some(w.A1(Accepted))], [Some(w.B1(Accepted))], map[0 := 0], map[], multiset{}, [AcceptReply(0)]);
    Decided(w);
  }

  lemma Step10(w: Writes)
    ensures w.G9().Valid() && Enabled(w.G9(), Deliver(0, 1)) && Next(w.G9(), Deliver(0, 1)) == w.G10()
  {
    var g := w.G9();
    DeliverOfTwo(g.reps[0], g.reps[1], g.born);
    TakenOfTwo(0, [Some(w.A1(Accepted))], [Some(w.B1(Accepted))], map[0 := 1], map[0 := true], multiset{0},
               [AcceptReply(0)]);
    Decided(w);
  }

  lemma Step11(w: Writes)
    ensures w.G10().Valid() && Enabled(w.G10(), FireCommit(0, 0)) && Next(w.G10(), FireCommit(0, 0)) == w.G11()
  {
    var g := w.G10();
    DeliverOfTwo(g.reps[0], g.reps[1], g.born);
    PutOfTwo([Some(w.A1(Accepted))], [Some(w.B1(Accepted))], w.A1(Committed));
    SendOfTwo([], [], Commit(w.A1(Committed)));
    LocalOfTwo(g.reps[0], g.reps[1], w.G11().reps[0]);
  }

  lemma Step12(w: Writes)
    ensures w.G11().Valid() && Enabled(w.G11(), FireCommit(1, 0)) && Next(w.G11(), FireCommit(1, 0)) == w.G12()
  {
    var g := w.G11();
    DeliverOfTwo(g.reps[0], g.reps[1], g.born);
    PutOfTwo([Some(w.A1(Accepted))], [Some(w.B1(Accepted))], w.B1(Committed));
    SendOfTwo([], [], Commit(w.B1(Committed)));
    LocalOfTwo(g.reps[0], g.reps[1], w.G12().reps[1]);
  }

  lemma Step13(w: Writes)
    ensures w.G12().Valid() && Enabled(w.G12(), Deliver(0, 1)) && Next(w.G12(), Deliver(0, 1)) == w.G13()
  {
    var g := w.G12();
    DeliverOfTwo(g.reps[0], g.reps[1], g.born);
    TakenOfTwo(0, [Some(w.A1(Committed))], [Some(w.B1(Accepted))], map[0 := 1], map[0 := true], multiset{},
               [Commit(w.A1(Committed))]);
    PutOfTwo([Some(w.A1(Accepted))], [Some(w.B1(Committed))], w.A1(Committed));
  }

  lemma Step14(w: Writes)
    ensures w.G13().Valid() && Enabled(w.G13(), Deliver(1, 0)) && Next(w.G13(), Deliver(1, 0)) == w.G14()
  {
    var g := w.G13();
    DeliverOfTwo(g.reps[0], g.reps[1], g.born);
    TakenOfTwo(1, [Some(w.A1(Committed))], [Some(w.B1(Committed))], map[0 := 1], map[0 := true], multiset{},
               [Commit(w.B1(Committed))]);
    PutOfTwo([Some(w.A1(Committed))], [Some(w.B1(Accepted))], w.B1(Committed));
  }

  // ---- The run --------------------------------------------------------------------------------

  lemma Extend(n: nat, run: seq<System>, evs: seq<Event>, ev: Event, g: System)
    returns (run': seq<System>, evs': seq<Event>)
    requires IsRun(n, run, evs) && Disciplined(run, evs)
    requires run[|evs|].Valid() && Enabled(run[|evs|], ev) && Next(run[|evs|], ev) == g && OrderedStep(run[|evs|], ev)
    ensures IsRun(n, run', evs') && Disciplined(run', evs') && |run'| == |evs'| + 1 && run'[|evs'|] == g
    ensures evs' == evs + [ev]
  {
    run', evs' := run + [g], evs + [ev];
    forall i | 0 <= i < |evs'| ensures StepOf(run'[i], evs'[i], run'[i + 1]) && OrderedStep(run'[i], evs'[i]) {
      if i < |evs| {
        assert StepOf(run[i], evs[i], run[i + 1]) && OrderedStep(run[i], evs[i]);
        assert run'[i] == run[i] && run'[i + 1] == run[i + 1];
      } else {
        assert run'[i] == run[|evs|] && run'[i + 1] == g;
      }
    }
  }

  // Up to one answer being back.
  lemma HalfWay(w: Writes) returns (run: seq<System>, evs: seq<Event>)
    ensures IsRun(2, run, evs) && Disciplined(run, evs) && run[|evs|] == w.G5()
  {
    run, evs := [Start(2)], [];
    Step1(w);
    run, evs := Extend(2, run, evs, ProposeAt(0, Put1(w.key, w.x)), G1(w));
    Step2(w);
    run, evs := Extend(2, run, evs, ProposeAt(1, Put1(w.key, w.y)), w.G2());
    Step3(w);
    run, evs := Extend(2, run, evs, Deliver(0, 1), w.G3());
    Step4(w);
    run, evs := Extend(2, run, evs, Deliver(1, 0), w.G4());
    Step5(w);
    run, evs := Extend(2, run, evs, Deliver(1, 0), w.G5());
  }

  lemma BothDecide(w: Writes) returns (run: seq<System>, evs: seq<Event>)
    ensures IsRun(2, run, evs) && Disciplined(run, evs) && run[|evs|] == w.G10()
  {
    run, evs := HalfWay(w);
    Step6(w);
    run, evs := Extend(2, run, evs, Deliver(0, 1), w.G6());
    Step7(w);
    run, evs := Extend(2, run, evs, Deliver(0, 1), w.G7());
    Step8(w);
    run, evs := Extend(2, run, evs, Deliver(1, 0), w.G8());
    Step9(w);
    run, evs := Extend(2, run, evs, Deliver(1, 0), w.G9());
    Step10(w);
    run, evs := Extend(2, run, evs, Deliver(0, 1), w.G10());
  }

  lemma BothKnow(w: Writes) returns (run: seq<System>, evs: seq<Event>)
    ensures IsRun(2, run, evs) && Disciplined(run, evs) && run[|evs|] == w.G14()
  {
    run, evs := BothDecide(w);
    Step11(w);
    run, evs := Extend(2, run, evs, FireCommit(0, 0), w.G11());
    Step12(w);
    run, evs := Extend(2, run, evs, FireCommit(1, 0), w.G12());
    Step13(w);
    run, evs := Extend(2, run, evs, Deliver(0, 1), w.G13());
    Step14(w);
    run, evs := Extend(2, run, evs, Deliver(1, 0), w.G14());
  }

  // A dependency vector may name one conflicting row and stay silent about another whose conflict is
  // just as recent: in this run replica 0 holds both writes under Seq 2, and its scan for a third
  // write of the key leaves row 1 without a dependency.
  lemma MissedConflict(key: string, x: Bytes, y: Bytes, z: Bytes) returns (run: seq<System>, evs: seq<Event>)
    ensures IsRun(2, run, evs)
    ensures run[|evs|].Valid() && run[|evs|].n == 2
    ensures var logs := run[|evs|].reps[0].logs;
      && logs == [[Some(A(key, x, 2, [-1, 0], true, Accepted))], [Some(B(key, y, 2, [0, -1], true, PreAccepted))]]
      && ConflictAt(logs, 1, 0, Put1(key, z)) && Scan(logs, Put1(key, z)) == (2, [0, -1])
  {
    var w := Writes(key, x, y);
    run, evs := HalfWay(w);
    Step6(w);
    SameKey(key, x, z);
    SameKey(key, y, z);
    ScanOfTwo([Some(w.A1(Accepted))], [Some(w.B1(PreAccepted))], Put1(key, z));
    assert Hit([Some(w.B1(PreAccepted))], 0, Put1(key, z));
  }

  // ---- Execution ------------------------------------------------------------------------------

  const NODE_0 := Node(0, 0)
  const NODE_1 := Node(1, 0)

  // A replica that knows both decisions.
  predicate KnowsBoth(s: Replica, w: Writes) {
    s.Valid() && s.n == 2 && s.logs == [[Some(w.A1(Committed))], [Some(w.B1(Committed))]] && s.kvmap == map[]
  }

  lemma OnlyTwo(s: Replica, w: Writes, v: Node)
    requires KnowsBoth(s, w) && ValidNode(s.logs, v)
    ensures v == NODE_0 || v == NODE_1
  {
  }

  lemma EitherOrderIsGood(s: Replica, w: Writes, order: seq<seq<Node>>)
    requires KnowsBoth(s, w) && (order == [[NODE_0, NODE_1]] || order == [[NODE_1, NODE_0]])
    ensures GoodOrder(s.logs, order)
  {
    forall c, v, rep: nat, d | 0 <= c < |order| && v in order[c] && Edge(s.logs, v, rep, d)
      ensures InFirst(order, c + 1, d)
    {
      OnlyTwo(s, w, d);
      assert order[0][0] == d || order[0][1] == d;
      assert d in order[0];
    }
    assert Inst(s.logs, NODE_0).seqNo == Inst(s.logs, NODE_1).seqNo;
    forall c | 0 <= c < |order| ensures SortedBySeq(s.logs, order[c]) {
    }
  }

  lemma BothRun(s: Replica, w: Writes, a: Node, b: Node)
    requires KnowsBoth(s, w) && ((a == NODE_0 && b == NODE_1) || (a == NODE_1 && b == NODE_0))
    ensures ExecuteTo(s, [[a, b]], 1).trace == [a, b] && !ExecuteTo(s, [[a, b]], 1).stopped
  {
    var p0 := Progress(s, [], false);
    var p1 := Visit(p0, a);
    assert DepsReady(s.logs, Inst(s.logs, a).deps) && Inst(s.logs, a).state.Committed?;
    assert p1 == Progress(RunNode(s, a), [] + [a], false);
    VisitRan(p0, a);
    assert EntryRan(Entry(s.logs, a.rep, a.slot), Entry(p1.s.logs, a.rep, a.slot));
    assert Entry(p1.s.logs, b.rep, b.slot) == Entry(s.logs, b.rep, b.slot);
    assert DepsReady(p1.s.logs, Inst(p1.s.logs, b).deps);
    var scc := [a, b];
    var k := |scc| - 1;
    assert VisitAll(p0, scc, k) == Visit(VisitAll(p0, scc, k - 1), scc[k - 1]);
    assert VisitAll(p0, scc, k) == p1;
    assert VisitAll(p0, scc, |scc|) == Visit(p1, b);
    var order := [scc];
    assert ExecuteTo(s, order, |order| - 1) == p0;
  }

  // Running both in either order: the later write stands.
  lemma LaterWriteStands(s: Replica, w: Writes, a: Node, b: Node)
    requires KnowsBoth(s, w) && ((a == NODE_0 && b == NODE_1) || (a == NODE_1 && b == NODE_0))
    ensures var t := ExecuteSome(s, [[a, b]]);
      && t.kvmap == map[w.key := if b == NODE_0 then w.x else w.y]
      && forall v :: IsExecuted(t.logs, v) <==> v == NODE_0 || v == NODE_1
  {
    var order := [[a, b]];
    BothRun(s, w, a, b);
    var p := ExecuteTo(s, order, |order|);
    ExecuteTrace(s, order, |order|);
    forall v ensures IsExecuted(p.s.logs, v) <==> v == NODE_0 || v == NODE_1 {
      TraceEntries(s, p, v);
      if ValidNode(s.logs, v) {
        OnlyTwo(s, w, v);
      }
    }
    LastOfTwo(s.kvmap, Inst(s.logs, a), Inst(s.logs, b), w.key);
    assert Logged(s.logs, [a, b]) == [Inst(s.logs, a), Inst(s.logs, b)];
  }

  lemma LastOfTwo(kv: KV, a: Instance, b: Instance, key: string)
    requires |a.ops| == |b.ops| == 1 && a.ops[0].kind.Write? && b.ops[0].kind.Write?
    requires a.ops[0].key == b.ops[0].key == key
    ensures RunAll(kv, [a, b]).0 == kv[key := b.ops[0].value]
  {
    OneWrite(kv, a.ops);
    OneWrite(kv[key := a.ops[0].value], b.ops);
    RunCons(RunOps(kv, a.ops).0, b, []);
    RunCons(kv, a, [b]);
    assert [a] + [b] == [a, b] && [b] + [] == [b];
  }

  lemma OneWrite(kv: KV, ops: seq<Operation>)
    requires |ops| == 1 && ops[0].kind.Write?
    ensures RunOps(kv, ops).0 == kv[ops[0].key := ops[0].value]
  {
    var k := |ops| - 1;
    assert ops[..k] == [];
    assert RunOps(kv, ops[..k]) == (kv, []);
  }

  // Two conflicting writes proposed at once end in one component under one Seq, and nothing orders
  // them there: one replica runs them one way, the other the other way, and their data differ.
  lemma Divergence(key: string, x: Bytes, y: Bytes) returns (run: seq<System>, evs: seq<Event>)
    requires x != y
    ensures IsRun(2, run, evs) && Disciplined(run, evs) && SameExecuted(run[|evs|], 0, 1)
    ensures run[|evs|].reps[0].kvmap == map[key := y] && run[|evs|].reps[1].kvmap == map[key := x]
    ensures run[|evs|].reps[0].kvmap != run[|evs|].reps[1].kvmap
  {
    var w := Writes(key, x, y);
    run, evs := BothKnow(w);
    var g := w.G14();
    DeliverOfTwo(g.reps[0], g.reps[1], g.born);
    EitherOrderIsGood(g.reps[0], w, [[NODE_0, NODE_1]]);
    EitherOrderIsGood(g.reps[1], w, [[NODE_1, NODE_0]]);
    LaterWriteStands(g.reps[0], w, NODE_0, NODE_1);
    LaterWriteStands(g.reps[1], w, NODE_1, NODE_0);
    var g1 := Next(g, ExecuteAt(0, [[NODE_0, NODE_1]]));
    run, evs := Extend(2, run, evs, ExecuteAt(0, [[NODE_0, NODE_1]]), g1);
    assert g1.reps[1] == g.reps[1];
    run, evs := Extend(2, run, evs, ExecuteAt(1, [[NODE_1, NODE_0]]), Next(g1, ExecuteAt(1, [[NODE_1, NODE_0]])));
    var last := run[|evs|];
    assert last.reps[0] == ExecuteSome(g.reps[0], [[NODE_0, NODE_1]]);
    assert last.reps[1] == ExecuteSome(g.reps[1], [[NODE_1, NODE_0]]);
    assert map[key := x][key] == x && map[key := y][key] == y;
  }
}
