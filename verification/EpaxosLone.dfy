/** Runs in which one replica proposes, batches of one key each: they always converge. */
module EpaxosLone {
  import opened EpaxosTypes
  import opened EpaxosScan
  import opened EpaxosHandlers
  import opened EpaxosExecution
  import opened EpaxosProtocol
  import opened EpaxosTheorems
  import opened EpaxosConvergence
  import opened EpaxosLinks

  type Born = map<(nat, nat), Instance>

  predicate OneKey(ops: seq<Operation>) {
    forall i, j :: 0 <= i < |ops| && 0 <= j < |ops| ==> ops[i].key == ops[j].key
  }

  ghost predicate LoneProposer(evs: seq<Event>, p: nat) {
    forall ev :: ev in evs ==> LoneEvent(ev, p)
  }

  predicate LoneEvent(ev: Event, p: nat) {
    ev.ProposeAt? ==> ev.r == p && OneKey(ev.ops)
  }

  lemma SameOpsTransitive(a: seq<Operation>, b: seq<Operation>, c: seq<Operation>)
    requires SameOps(a, b) && SameOps(b, c)
    ensures SameOps(a, c)
  {
  }

  // What shares a key with a batch of one key shares it with everything else that does.
  lemma ConflictsMeet(a: seq<Operation>, b: seq<Operation>, ops: seq<Operation>)
    requires OneKey(ops) && Conflict(a, ops) && Conflict(b, ops)
    ensures Conflict(a, b)
  {
    var i, k :| 0 <= i < |a| && 0 <= k < |ops| && a[i].key == ops[k].key;
    var j, l :| 0 <= j < |b| && 0 <= l < |ops| && b[j].key == ops[l].key;
    assert a[i].key == b[j].key;
  }

  // ---- The invariant --------------------------------------------------------------------------

  // The record has the Seq, dependencies and operations it was proposed with by p.
  predicate AsProposed(born: Born, p: nat, k: nat, x: Instance) {
    && (p, k) in born && x.rep == p && x.slot == k
    && x.seqNo == born[(p, k)].seqNo && x.deps == born[(p, k)].deps && SameOps(born[(p, k)].ops, x.ops)
  }

  // Proposal k depends on the last conflicting proposal before it, under a Seq above them all.
  ghost predicate RankedAt(born: Born, p: nat, n: nat, k: nat)
    requires (p, k) in born && p < n
  {
    var b := born[(p, k)];
    && b.rep == p && b.slot == k && b.seqNo >= 1 && |b.deps| == n && OneKey(b.ops)
    && (forall rep :: 0 <= rep < n && rep != p ==> b.deps[rep] == -1)
    && -1 <= b.deps[p] < k
    && (forall d: nat :: d == b.deps[p] ==> (p, d) in born && Conflict(born[(p, d)].ops, b.ops))
    && forall j: nat :: j < k && (p, j) in born && Conflict(born[(p, j)].ops, b.ops) ==>
         born[(p, j)].seqNo < b.seqNo && j <= b.deps[p]
  }

  ghost predicate Ranked(born: Born, p: nat, n: nat) {
    p < n && forall k: nat :: (p, k) in born ==> RankedAt(born, p, n, k)
  }

  // All the replica logs is what p proposed.
  ghost predicate LogsProposed(born: Born, p: nat, s: Replica) {
    forall rep: nat, k: nat :: Entry(s.logs, rep, k).Some? ==>
      rep == p && AsProposed(born, p, k, Entry(s.logs, rep, k).value)
  }

  ghost predicate LogsAll(born: Born, p: nat, s: Replica) {
    forall k: nat :: (p, k) in born ==> Entry(s.logs, p, k).Some?
  }

  predicate SaysProposed(born: Born, p: nat, from: nat, m: Message) {
    match m
    case PreAccept(x) => from == p && AsProposed(born, p, x.slot, x)
    case Accept(x) => from == p && AsProposed(born, p, x.slot, x)
    case Commit(x) => from == p && AsProposed(born, p, x.slot, x)
    case PreAcceptReply(k, seqNo, deps, _) =>
      (p, k) in born && seqNo == born[(p, k)].seqNo && deps == born[(p, k)].deps
    case AcceptReply(_) => true
  }

  // A pre-accept on the link from p is about a later slot than anything sent before it, and than
  // anything its receiver logs.
  ghost predicate InOrderOn(ch: seq<Message>) {
    forall i, j :: 0 <= i < j < |ch| && ch[j].PreAccept? && Tells(ch[i]) ==> SlotOf(ch[i]) < SlotOf(ch[j])
  }

  predicate Tells(m: Message) {
    m.PreAccept? || m.Accept? || m.Commit?
  }

  function SlotOf(m: Message): nat {
    match m
    case PreAccept(x) => x.slot
    case Accept(x) => x.slot
    case Commit(x) => x.slot
    case PreAcceptReply(k, _, _, _) => k
    case AcceptReply(k) => k
  }

  ghost predicate NewTo(logs: Log, p: nat, ch: seq<Message>) {
    forall m, k: nat :: m in ch && m.PreAccept? && k >= SlotOf(m) ==> Entry(logs, p, k).None?
  }

  ghost predicate LinkOk(born: Born, p: nat, from: nat, ch: seq<Message>, logs: Log) {
    && (forall m :: m in ch ==> SaysProposed(born, p, from, m))
    && (from == p ==> InOrderOn(ch) && NewTo(logs, p, ch))
  }

  ghost predicate Lone(g: System, p: nat) {
    && g.Valid() && Ranked(g.born, p, g.n) && LogsAll(g.born, p, g.reps[p])
    && (forall r: nat :: r < g.n ==> LogsProposed(g.born, p, g.reps[r]))
    && forall from: nat, to: nat :: from < g.n && to < g.n ==> Links(g, p, from, to)
  }

  ghost predicate Links(g: System, p: nat, from: nat, to: nat)
    requires g.Valid() && from < g.n && to < g.n
  {
    LinkOk(g.born, p, from, g.reps[from].out[to], g.reps[to].logs)
  }

  // ---- Links ----------------------------------------------------------------------------------

  lemma LinkTaken(born: Born, p: nat, from: nat, ch: seq<Message>, logs: Log, logs': Log)
    requires |ch| > 0 && LinkOk(born, p, from, ch, logs)
    requires forall k: nat :: Entry(logs', p, k).Some? ==>
      Entry(logs, p, k).Some? || (Tells(ch[0]) && k == SlotOf(ch[0]))
    ensures LinkOk(born, p, from, ch[1..], logs')
  {
    var rest := ch[1..];
    if from == p {
      forall i, j | 0 <= i < j < |rest| && rest[j].PreAccept? && Tells(rest[i])
        ensures SlotOf(rest[i]) < SlotOf(rest[j])
      {
        assert rest[i] == ch[i + 1] && rest[j] == ch[j + 1];
      }
      forall m, k: nat | m in rest && m.PreAccept? && k >= SlotOf(m) ensures Entry(logs', p, k).None? {
        var j :| 0 <= j < |rest| && rest[j] == m;
        assert ch[j + 1] == m && m in ch;
        assert Tells(ch[0]) ==> SlotOf(ch[0]) < SlotOf(ch[j + 1]);
      }
    }
  }

  lemma LinkSent(born: Born, p: nat, from: nat, ch: seq<Message>, logs: Log, logs': Log, m: Message)
    requires LinkOk(born, p, from, ch, logs) && SaysProposed(born, p, from, m) && !m.PreAccept?
    requires from == p ==> forall k: nat :: Entry(logs', p, k).Some? ==> Entry(logs, p, k).Some?
    ensures LinkOk(born, p, from, ch, logs') && LinkOk(born, p, from, ch + [m], logs')
  {
  }

  // ---- What the scan makes of a proposal ------------------------------------------------------

  lemma LoggedConflict(born: Born, p: nat, s: Replica, ops: seq<Operation>, rep: int, i: int)
    requires LogsProposed(born, p, s) && ConflictAt(s.logs, rep, i, ops)
    ensures rep == p && i >= 0 && (p, i) in born && Conflict(born[(p, i)].ops, ops)
    ensures SeqAt(s.logs, rep, i) == born[(p, i)].seqNo && Entry(s.logs, p, i).Some?
  {
    assert Entry(s.logs, rep, i).Some?;
    SameOpsConflict(born[(p, i)].ops, s.logs[rep][i].value.ops, ops, ops);
  }

  // Merging a proposal with a log of earlier ones raises nothing.
  lemma MergeRaisesNothing(born: Born, p: nat, s: Replica, x: Instance)
    requires s.Valid() && LogsProposed(born, p, s) && Ranked(born, p, s.n) && AsProposed(born, p, x.slot, x)
    requires forall k: nat :: k >= x.slot ==> Entry(s.logs, p, k).None?
    ensures |x.deps| == |s.logs| && AsProposed(born, p, x.slot, Merged(s.logs, x))
  {
    var b := born[(p, x.slot)];
    assert RankedAt(born, p, s.n, x.slot);
    ScanMeaning(s.logs, x.ops);
    var (m, deps) := Scan(s.logs, x.ops);
    forall rep, i | ConflictAt(s.logs, rep, i, x.ops)
      ensures rep == p && 0 <= i <= b.deps[p] && SeqAt(s.logs, rep, i) < b.seqNo
    {
      EarlierConflict(born, p, s, x, rep, i);
    }
    assert JoinDeps(x.deps, deps) == x.deps;
  }

  lemma EarlierConflict(born: Born, p: nat, s: Replica, x: Instance, rep: int, i: int)
    requires s.Valid() && LogsProposed(born, p, s) && Ranked(born, p, s.n) && AsProposed(born, p, x.slot, x)
    requires forall k: nat :: k >= x.slot ==> Entry(s.logs, p, k).None?
    requires ConflictAt(s.logs, rep, i, x.ops)
    ensures var b := born[(p, x.slot)];
      |b.deps| == s.n && rep == p && 0 <= i <= b.deps[p] && SeqAt(s.logs, rep, i) < b.seqNo
  {
    var b := born[(p, x.slot)];
    assert RankedAt(born, p, s.n, x.slot);
    LoggedConflict(born, p, s, x.ops, rep, i);
    SameOpsConflict(born[(p, i)].ops, born[(p, i)].ops, b.ops, x.ops);
  }

  // What p proposes next takes its place in the ranking.
  lemma ProposalRanked(born: Born, s: Replica, ops: seq<Operation>)
    requires s.Valid() && LogsProposed(born, s.me, s) && LogsAll(born, s.me, s)
    requires Ranked(born, s.me, s.n) && OneKey(ops)
    ensures var b := Proposal(s, ops);
      var born' := born[(s.me, b.slot) := b];
      (s.me, b.slot) !in born && RankedAt(born', s.me, s.n, b.slot) && Ranked(born', s.me, s.n)
  {
    var b, p := Proposal(s, ops), s.me;
    var born' := born[(p, b.slot) := b];
    assert Entry(s.logs, p, b.slot).None?;
    DepOfProposal(born, s, ops);
    assert RankedAt(born', p, s.n, b.slot);
    forall k: nat | (p, k) in born' ensures RankedAt(born', p, s.n, k) {
      if k != b.slot {
        assert RankedAt(born, p, s.n, k) && Entry(s.logs, p, k).Some?;
      }
    }
  }

  lemma DepOfProposal(born: Born, s: Replica, ops: seq<Operation>)
    requires s.Valid() && LogsProposed(born, s.me, s) && LogsAll(born, s.me, s)
    requires Ranked(born, s.me, s.n) && OneKey(ops)
    ensures var b, p := Proposal(s, ops), s.me;
      && b.seqNo >= 1 && |b.deps| == s.n
      && (forall rep :: 0 <= rep < s.n && rep != p ==> b.deps[rep] == -1)
      && -1 <= b.deps[p] < b.slot
      && (forall d: nat :: d == b.deps[p] ==> (p, d) in born && Conflict(born[(p, d)].ops, ops))
      && forall j: nat :: (p, j) in born && Conflict(born[(p, j)].ops, ops) ==>
           born[(p, j)].seqNo < b.seqNo && j <= b.deps[p]
  {
    var b, p := Proposal(s, ops), s.me;
    ScanMeaning(s.logs, ops);
    forall rep, i | ConflictAt(s.logs, rep, i, ops)
      ensures rep == p && i >= 0 && (p, i) in born && Conflict(born[(p, i)].ops, ops)
      ensures SeqAt(s.logs, rep, i) == born[(p, i)].seqNo
    {
      LoggedConflict(born, p, s, ops, rep, i);
    }
    forall j: nat | (p, j) in born && Conflict(born[(p, j)].ops, ops)
      ensures born[(p, j)].seqNo < b.seqNo && j <= b.deps[p]
    {
      ConflictBelow(born, s, ops, j);
    }
  }

  lemma ConflictBelow(born: Born, s: Replica, ops: seq<Operation>, j: nat)
    requires s.Valid() && LogsProposed(born, s.me, s) && LogsAll(born, s.me, s)
    requires Ranked(born, s.me, s.n) && OneKey(ops)
    requires (s.me, j) in born && Conflict(born[(s.me, j)].ops, ops)
    ensures var b := Proposal(s, ops); |b.deps| == s.n && born[(s.me, j)].seqNo < b.seqNo && j <= b.deps[s.me]
  {
    var p := s.me;
    ScanMeaning(s.logs, ops);
    var (m, deps) := Scan(s.logs, ops);
    var x := Entry(s.logs, p, j).value;
    SameOpsConflict(born[(p, j)].ops, x.ops, ops, ops);
    assert ConflictAt(s.logs, p, j, ops) && SeqAt(s.logs, p, j) == born[(p, j)].seqNo;
    assert RankedAt(born, p, s.n, j);
    var r :| 0 <= r < |s.logs| && Chosen(s.logs, ops, r, deps[r]) && SeqAt(s.logs, r, deps[r]) == m;
    LoggedConflict(born, p, s, ops, r, deps[r]);
    ConflictsRise(born, p, s.n, deps[p], j, ops);
  }

  lemma ConflictsRise(born: Born, p: nat, n: nat, i: nat, j: nat, ops: seq<Operation>)
    requires Ranked(born, p, n) && OneKey(ops) && (p, i) in born && (p, j) in born
    requires Conflict(born[(p, i)].ops, ops) && Conflict(born[(p, j)].ops, ops)
    ensures i < j ==> born[(p, i)].seqNo < born[(p, j)].seqNo
  {
    ConflictsMeet(born[(p, i)].ops, born[(p, j)].ops, ops);
    assert RankedAt(born, p, n, j);
  }

  // ---- One replica, one message ---------------------------------------------------------------

  // s' is s after a step that proposes nothing: it logs nothing unproposed, and nothing new but slot k.
  ghost predicate Follows(born: Born, p: nat, s: Replica, s': Replica, k: int) {
    && s.Valid() && s'.Valid() && s'.n == s.n && s'.me == s.me && LogsProposed(born, p, s')
    && (forall i: nat :: Entry(s'.logs, p, i).Some? ==> Entry(s.logs, p, i).Some? || i == k)
    && (forall i: nat :: Entry(s.logs, p, i).Some? ==> Entry(s'.logs, p, i).Some?)
    && forall j: nat :: j < s.n ==> SendsProposed(born, p, s.me, s.out[j], s'.out[j])
  }

  ghost predicate SendsProposed(born: Born, p: nat, from: nat, ch: seq<Message>, ch': seq<Message>) {
    ch' == ch || exists m :: ch' == ch + [m] && SaysProposed(born, p, from, m) && !m.PreAccept?
  }

  lemma SendSends(born: Born, p: nat, s: Replica, dests: seq<int>, m: Message)
    requires s.Valid() && SaysProposed(born, p, s.me, m) && !m.PreAccept?
    ensures forall j: nat :: j < s.n ==> SendsProposed(born, p, s.me, s.out[j], Send(s.out, dests, m)[j])
  {
  }

  // A step that logs one record of p's.
  lemma PutFollows(born: Born, p: nat, s: Replica, s': Replica, k: nat, x: Instance)
    requires s.Valid() && s'.Valid() && s'.n == s.n && s'.me == s.me && LogsProposed(born, p, s)
    requires p < s.n && AsProposed(born, p, k, x) && s'.logs == Put(s.logs, p, k, x)
    requires forall j: nat :: j < s.n ==> SendsProposed(born, p, s.me, s.out[j], s'.out[j])
    ensures Follows(born, p, s, s', k) && (Entry(s.logs, p, k).Some? ==> Follows(born, p, s, s', -1))
  {
  }

  lemma HearsPreAccept(born: Born, p: nat, s: Replica, x: Instance)
    requires s.Valid() && LogsProposed(born, p, s) && Ranked(born, p, s.n) && AsProposed(born, p, x.slot, x)
    requires Fits(s, x) && forall k: nat :: k >= x.slot ==> Entry(s.logs, p, k).None?
    ensures Follows(born, p, s, OnPreAccept(s, p, x), x.slot)
  {
    MergeRaisesNothing(born, p, s, x);
    var y := Merged(s.logs, x);
    SendSends(born, p, s, [p], PreAcceptReply(y.slot, y.seqNo, y.deps, y.changed));
    PutFollows(born, p, s, OnPreAccept(s, p, x), x.slot, y);
  }

  lemma HearsTold(born: Born, p: nat, s: Replica, x: Instance)
    requires s.Valid() && LogsProposed(born, p, s) && AsProposed(born, p, x.slot, x) && p < s.n
    ensures Follows(born, p, s, OnAccept(s, p, x), x.slot) && Follows(born, p, s, OnCommit(s, x), x.slot)
  {
    SendSends(born, p, s, [p], AcceptReply(x.slot));
    PutFollows(born, p, s, OnAccept(s, p, x), x.slot, x);
    PutFollows(born, p, s, OnCommit(s, x), x.slot, x);
  }

  lemma HearsAnswer(born: Born, p: nat, s: Replica, k: nat, seqNo: int, deps: seq<int>, changed: bool)
    requires s.Valid() && LogsProposed(born, p, s) && Awaits(s, k) && |deps| == s.n
    requires (p, k) in born && seqNo == born[(p, k)].seqNo && deps == born[(p, k)].deps
    ensures Follows(born, p, s, OnPreAcceptReply(s, k, seqNo, deps, changed), -1)
  {
    var e := Entry(s.logs, s.me, k).value;
    assert s.me == p && AsProposed(born, p, k, e);
    var x := Absorb(e, seqNo, deps, changed);
    assert JoinDeps(deps, deps) == deps;
    var y := x.(state := Accepted);
    assert AsProposed(born, p, k, x) && AsProposed(born, p, k, y);
    SendSends(born, p, s, Thrifty(s.n, s.me), Accept(y));
    var t := OnPreAcceptReply(s, k, seqNo, deps, changed);
    if t != s {
      PutFollows(born, p, s, t, k, Entry(t.logs, p, k).value);
    }
  }

  lemma FiresCommit(born: Born, p: nat, s: Replica, k: nat)
    requires s.Valid() && LogsProposed(born, p, s) && k in s.pending && Entry(s.logs, s.me, k).Some?
    ensures Follows(born, p, s, RunCommit(s, k), -1)
  {
    var x := Entry(s.logs, s.me, k).value.(state := Committed);
    assert s.me == p && AsProposed(born, p, k, x);
    SendSends(born, p, s, Others(s.n, s.me), Commit(x));
    PutFollows(born, p, s, RunCommit(s, k), k, x);
  }

  lemma Executes(born: Born, p: nat, s: Replica, order: seq<seq<Node>>)
    requires s.Valid() && LogsProposed(born, p, s)
    ensures Follows(born, p, s, ExecuteSome(s, order), -1)
  {
    var t := ExecuteSome(s, order);
    ExecuteToRan(s, order, |order|);
    forall rep: nat, k: nat | Entry(t.logs, rep, k).Some?
      ensures rep == p && AsProposed(born, p, k, Entry(t.logs, rep, k).value)
    {
      assert EntryRan(Entry(s.logs, rep, k), Entry(t.logs, rep, k));
      if Entry(s.logs, rep, k) != Entry(t.logs, rep, k) {
        SameOpsTransitive(born[(p, k)].ops, Entry(s.logs, rep, k).value.ops, Entry(t.logs, rep, k).value.ops);
      }
    }
    forall i: nat ensures Entry(t.logs, p, i).Some? <==> Entry(s.logs, p, i).Some? {
      assert EntryRan(Entry(s.logs, p, i), Entry(t.logs, p, i));
    }
  }

  // ---- One event ------------------------------------------------------------------------------

  // Replica r steps alone.
  lemma LoneLocal(g: System, g': System, p: nat, r: nat)
    requires Lone(g, p) && g'.Valid() && r < g.n == g'.n && g' == g.(reps := g.reps[r := g'.reps[r]])
    requires Follows(g.born, p, g.reps[r], g'.reps[r], -1)
    ensures Lone(g', p)
  {
    forall from: nat, to: nat | from < g'.n && to < g'.n ensures Links(g', p, from, to) {
      assert Links(g, p, from, to);
      LinkFollows(g.born, p, from, g.reps[from].out[to], g'.reps[from].out[to], g.reps[to].logs, g'.reps[to].logs);
    }
  }

  lemma LinkFollows(born: Born, p: nat, from: nat, ch: seq<Message>, ch': seq<Message>, logs: Log, logs': Log)
    requires LinkOk(born, p, from, ch, logs) && SendsProposed(born, p, from, ch, ch')
    requires from == p ==> forall k: nat :: Entry(logs', p, k).Some? ==> Entry(logs, p, k).Some?
    ensures LinkOk(born, p, from, ch', logs')
  {
    LinkSent(born, p, from, ch, logs, logs', AcceptReply(0));
    if ch' != ch {
      var m :| ch' == ch + [m] && SaysProposed(born, p, from, m) && !m.PreAccept?;
      LinkSent(born, p, from, ch, logs, logs', m);
    }
  }

  lemma LoneDeliver(g: System, p: nat, from: nat, to: nat)
    requires Lone(g, p) && Enabled(g, Deliver(from, to))
    ensures Lone(Next(g, Deliver(from, to)), p)
  {
    HandledFollows(g, p, from, to);
    forall a: nat, b: nat | a < g.n && b < g.n ensures Links(Next(g, Deliver(from, to)), p, a, b) {
      assert Links(g, p, a, b);
      DeliveredLink(g, p, from, to, a, b);
    }
  }

  lemma HandledFollows(g: System, p: nat, from: nat, to: nat)
    requires Lone(g, p) && Enabled(g, Deliver(from, to))
    ensures HandlesProposed(g, p, from, to)
  {
    var s, ch := g.reps[to], g.reps[from].out[to];
    assert Links(g, p, from, to) && ch[0] in ch;
    MessageFollows(g.born, p, s, from, ch[0]);
  }

  // Handling the head of a link logs nothing but what p proposed.
  ghost predicate HandlesProposed(g: System, p: nat, from: nat, to: nat)
    requires g.Valid() && Enabled(g, Deliver(from, to))
  {
    var s, m := g.reps[to], g.reps[from].out[to][0];
    Follows(g.born, p, s, Handle(s, from, m), if Tells(m) then SlotOf(m) else -1) && (Tells(m) ==> from == p)
  }

  lemma MessageFollows(born: Born, p: nat, s: Replica, from: nat, m: Message)
    requires s.Valid() && LogsProposed(born, p, s) && Ranked(born, p, s.n) && from < s.n && Accepts(s, from, m)
    requires SaysProposed(born, p, from, m)
    requires from == p && m.PreAccept? ==> forall k: nat :: k >= SlotOf(m) ==> Entry(s.logs, p, k).None?
    ensures Follows(born, p, s, Handle(s, from, m), if Tells(m) then SlotOf(m) else -1)
    ensures Tells(m) ==> from == p
  {
    match m
    case PreAccept(x) => HearsPreAccept(born, p, s, x);
    case Accept(x) => HearsTold(born, p, s, x);
    case Commit(x) => HearsTold(born, p, s, x);
    case PreAcceptReply(k, seqNo, deps, changed) => HearsAnswer(born, p, s, k, seqNo, deps, changed);
    case AcceptReply(k) => HearsAccepted(born, p, s, k);
  }

  lemma HearsAccepted(born: Born, p: nat, s: Replica, k: nat)
    requires s.Valid() && LogsProposed(born, p, s)
    ensures Follows(born, p, s, OnAcceptReply(s, k), -1)
  {
  }

  lemma DeliveredLink(g: System, p: nat, from: nat, to: nat, a: nat, b: nat)
    requires g.Valid() && Enabled(g, Deliver(from, to)) && HandlesProposed(g, p, from, to)
    requires a < g.n && b < g.n && Links(g, p, a, b)
    ensures Links(Next(g, Deliver(from, to)), p, a, b)
  {
    var g' := Next(g, Deliver(from, to));
    var ch, logs, logs' := g.reps[a].out[b], g.reps[b].logs, g'.reps[b].logs;
    if a == from && b == to {
      LinkTaken(g.born, p, a, ch, logs, logs');
    } else {
      DeliveredElsewhere(g, p, from, to, a, b);
      LinkFollows(g.born, p, a, ch, g'.reps[a].out[b], logs, logs');
    }
  }

  lemma DeliveredElsewhere(g: System, p: nat, from: nat, to: nat, a: nat, b: nat)
    requires g.Valid() && Enabled(g, Deliver(from, to)) && HandlesProposed(g, p, from, to)
    requires a < g.n && b < g.n && !(a == from && b == to)
    ensures var g' := Next(g, Deliver(from, to));
      && SendsProposed(g.born, p, a, g.reps[a].out[b], g'.reps[a].out[b])
      && (a == p ==> forall k: nat :: Entry(g'.reps[b].logs, p, k).Some? ==> Entry(g.reps[b].logs, p, k).Some?)
  {
    var s' := Handle(g.reps[to], from, g.reps[from].out[to][0]);
    assert a == to ==> SendsProposed(g.born, p, to, g.reps[to].out[b], s'.out[b]);
  }

  // ---- A proposal -----------------------------------------------------------------------------

  lemma LonePropose(g: System, p: nat, ops: seq<Operation>)
    requires Lone(g, p) && OneKey(ops)
    ensures Lone(Next(g, ProposeAt(p, ops)), p)
  {
    var s, b := g.reps[p], Proposal(g.reps[p], ops);
    ProposalRanked(g.born, s, ops);
    var born' := g.born[(p, b.slot) := b];
    forall r: nat | r < g.n ensures LogsProposed(born', p, Next(g, ProposeAt(p, ops)).reps[r]) {
      ProposedLogs(g.born, p, g.reps[r], b);
    }
    forall from: nat, to: nat | from < g.n && to < g.n ensures Links(Next(g, ProposeAt(p, ops)), p, from, to) {
      assert Links(g, p, from, to) && Links(g, p, p, p);
      ProposedLink(g, p, ops, from, to);
    }
  }

  lemma ProposedLogs(born: Born, p: nat, s: Replica, b: Instance)
    requires s.Valid() && LogsProposed(born, p, s) && p < s.n && (p, b.slot) !in born && b.rep == p
    ensures var born' := born[(p, b.slot) := b];
      LogsProposed(born', p, s) && LogsProposed(born', p, s.(logs := Put(s.logs, p, b.slot, b)))
  {
  }

  lemma LinkGrows(born: Born, p: nat, from: nat, ch: seq<Message>, logs: Log, b: Instance)
    requires LinkOk(born, p, from, ch, logs) && (p, b.slot) !in born
    ensures LinkOk(born[(p, b.slot) := b], p, from, ch, logs)
  {
  }

  // Nothing the proposer sent so far is about its new slot.
  lemma SentBefore(born: Born, s: Replica, to: nat, logs: Log)
    requires s.Valid() && to < s.n && LinkOk(born, s.me, s.me, s.out[to], logs) && LogsAll(born, s.me, s)
    ensures forall m :: m in s.out[to] && Tells(m) ==> SlotOf(m) < |s.logs[s.me]|
    ensures logs == s.logs ==> forall m :: m in s.out[to] ==> !m.PreAccept?
  {
    forall m | m in s.out[to] && Tells(m) ensures Entry(s.logs, s.me, SlotOf(m)).Some? {
      assert SaysProposed(born, s.me, s.me, m);
    }
  }

  lemma LinkPreAccept(born: Born, p: nat, ch: seq<Message>, logs: Log, b: Instance)
    requires LinkOk(born, p, p, ch, logs) && AsProposed(born, p, b.slot, b)
    requires forall m :: m in ch && Tells(m) ==> SlotOf(m) < b.slot
    requires forall k: nat :: k >= b.slot ==> Entry(logs, p, k).None?
    ensures LinkOk(born, p, p, ch + [PreAccept(b)], logs)
  {
    var more := ch + [PreAccept(b)];
    forall i, j | 0 <= i < j < |more| && more[j].PreAccept? && Tells(more[i])
      ensures SlotOf(more[i]) < SlotOf(more[j])
    {
      assert more[i] in ch;
    }
  }

  lemma ProposedLink(g: System, p: nat, ops: seq<Operation>, from: nat, to: nat)
    requires Lone(g, p) && OneKey(ops) && from < g.n && to < g.n && Links(g, p, from, to)
    requires (p, Proposal(g.reps[p], ops).slot) !in g.born
    ensures Links(Next(g, ProposeAt(p, ops)), p, from, to)
  {
    var s, b, ch, logs := g.reps[p], Proposal(g.reps[p], ops), g.reps[from].out[to], g.reps[to].logs;
    LinkGrows(g.born, p, from, ch, logs, b);
    PeerIsNotMe(g.n, p);
    if from == p {
      SentBefore(g.born, s, to, logs);
      if to == p {
        SelfLink(g.born[(p, b.slot) := b], p, ch, logs, Propose(s, ops).logs);
      } else {
        UnheardOf(g, p, to);
        LinkPreAccept(g.born[(p, b.slot) := b], p, ch, logs, b);
      }
    }
  }

  lemma SelfLink(born: Born, p: nat, ch: seq<Message>, logs: Log, logs': Log)
    requires LinkOk(born, p, p, ch, logs) && forall m :: m in ch ==> !m.PreAccept?
    ensures LinkOk(born, p, p, ch, logs')
  {
  }

  // Nobody logs more slots than the proposer.
  lemma UnheardOf(g: System, p: nat, to: nat)
    requires Lone(g, p) && to < g.n
    ensures forall k: nat :: k >= |g.reps[p].logs[p]| ==> Entry(g.reps[to].logs, p, k).None?
  {
    forall k: nat | Entry(g.reps[to].logs, p, k).Some? ensures Entry(g.reps[p].logs, p, k).Some? {
      assert AsProposed(g.born, p, k, Entry(g.reps[to].logs, p, k).value);
    }
  }

  lemma LoneStep(g: System, ev: Event, p: nat)
    requires Lone(g, p) && Enabled(g, ev) && LoneEvent(ev, p)
    ensures Lone(Next(g, ev), p)
  {
    match ev
    case ProposeAt(_, ops) => LonePropose(g, p, ops);
    case Deliver(from, to) => LoneDeliver(g, p, from, to);
    case FireCommit(r, k) =>
      FiresCommit(g.born, p, g.reps[r], k);
      LoneLocal(g, Next(g, ev), p, r);
    case ExecuteAt(r, order) =>
      Executes(g.born, p, g.reps[r], order);
      LoneLocal(g, Next(g, ev), p, r);
  }

  lemma LoneRun(n: nat, run: seq<System>, evs: seq<Event>, p: nat, k: nat)
    requires IsRun(n, run, evs) && LoneProposer(evs, p) && p < n && k <= |evs|
    ensures Lone(run[k], p) && run[k].n == n
  {
    LoneStart(n, p);
    for j := 0 to k
      invariant Lone(run[j], p) && run[j].n == n
    {
      assert StepOf(run[j], evs[j], run[j + 1]) && evs[j] in evs;
      LoneNext(run[j], evs[j], run[j + 1], p);
    }
  }

  lemma LoneStart(n: nat, p: nat)
    requires n >= 2 && p < n
    ensures Lone(Start(n), p) && Start(n).n == n
  {
  }

  lemma LoneNext(g: System, ev: Event, g': System, p: nat)
    requires Lone(g, p) && StepOf(g, ev, g') && LoneEvent(ev, p)
    ensures Lone(g', p) && g'.n == g.n
  {
    LoneStep(g, ev, p);
  }

  // ---- Convergence ----------------------------------------------------------------------------

  // Links lead from an executed instance to every later one that shares a key with it.
  lemma {:induction false} LaterReached(g: System, p: nat, s: Replica, ns: seq<Node>, i: nat, j: nat)
    requires Lone(g, p) && s in g.reps && Ledger(s, ns) && LinkOrdered(s.logs, ns) && i < j
    requires IsExecuted(s.logs, Node(p, i)) && IsExecuted(s.logs, Node(p, j))
    requires Conflict(g.born[(p, i)].ops, g.born[(p, j)].ops)
    ensures Reaches(s.logs, Node(p, i), Node(p, j))
    decreases j
  {
    var d := g.born[(p, j)].deps[p];
    LastConflictLinked(g, p, s, ns, j, d);
    if d == i {
      ReachesNext(s.logs, Node(p, i), Node(p, j));
    } else {
      ConflictsMeet(g.born[(p, i)].ops, g.born[(p, d)].ops, g.born[(p, j)].ops);
      LaterReached(g, p, s, ns, i, d);
      ReachesOn(s.logs, Node(p, i), Node(p, d), Node(p, j));
    }
  }

  lemma LastConflictLinked(g: System, p: nat, s: Replica, ns: seq<Node>, j: nat, d: nat)
    requires Lone(g, p) && s in g.reps && Ledger(s, ns) && LinkOrdered(s.logs, ns)
    requires IsExecuted(s.logs, Node(p, j)) && (p, j) in g.born && |g.born[(p, j)].deps| == g.n
    requires d == g.born[(p, j)].deps[p]
    ensures Linked(s.logs, Node(p, d), Node(p, j)) && IsExecuted(s.logs, Node(p, d))
  {
    var w, v := Node(p, j), Node(p, d);
    assert RankedAt(g.born, p, g.n, j);
    assert AsProposed(g.born, p, j, Inst(s.logs, w));
    assert DependsOn(Inst(s.logs, w), v);
    assert w in ns;
    var q :| 0 <= q < |ns| && ns[q] == w;
    assert RunAfter(s.logs, ns, q, v);
    assert AsProposed(g.born, p, d, Inst(s.logs, v));
    assert Linked(s.logs, v, w);
    assert v in ns;
  }

  lemma ReachesNext(logs: Log, v: Node, w: Node)
    requires Linked(logs, v, w)
    ensures Reaches(logs, v, w)
  {
    var path := [v, w];
    assert Chain(logs, path) && path[|path| - 1] == w;
  }

  lemma ReachesOn(logs: Log, u: Node, v: Node, w: Node)
    requires Reaches(logs, u, v) && Linked(logs, v, w)
    ensures Reaches(logs, u, w)
  {
    var path :| |path| >= 2 && path[0] == u && path[|path| - 1] == v && Chain(logs, path);
    var more := path + [w];
    forall k | 0 < k < |more| ensures Linked(logs, more[k - 1], more[k]) {
      assert k < |path| ==> Linked(logs, path[k - 1], path[k]);
    }
    assert Chain(logs, more) && more[|more| - 1] == w;
  }

  lemma LoneIsChained(n: nat, run: seq<System>, evs: seq<Event>, p: nat, r: nat)
    requires IsRun(n, run, evs) && Disciplined(run, evs) && LoneProposer(evs, p) && p < n && r < n
    ensures run[|evs|].Valid() && run[|evs|].n == n && ConflictsChained(run[|evs|].reps[r].logs)
  {
    var g := run[|evs|];
    LoneRun(n, run, evs, p, |evs|);
    HistoryIsLedger(n, run, evs, r, |evs|);
    HistoryIsLinkOrdered(n, run, evs, r, |evs|);
    LoneLogsChained(g, p, r, History(run, evs, r, |evs|));
  }

  lemma LoneLogsChained(g: System, p: nat, r: nat, ns: seq<Node>)
    requires Lone(g, p) && r < g.n && Ledger(g.reps[r], ns) && LinkOrdered(g.reps[r].logs, ns)
    ensures ConflictsChained(g.reps[r].logs)
  {
    var s := g.reps[r];
    forall v, w | IsExecuted(s.logs, v) && IsExecuted(s.logs, w) && v != w
                  && Conflict(Inst(s.logs, v).ops, Inst(s.logs, w).ops)
      ensures Reaches(s.logs, v, w) || Reaches(s.logs, w, v)
    {
      PairReached(g, p, r, ns, v, w);
    }
  }

  lemma PairReached(g: System, p: nat, r: nat, ns: seq<Node>, v: Node, w: Node)
    requires Lone(g, p) && r < g.n && Ledger(g.reps[r], ns) && LinkOrdered(g.reps[r].logs, ns)
    requires IsExecuted(g.reps[r].logs, v) && IsExecuted(g.reps[r].logs, w) && v != w
    requires Conflict(Inst(g.reps[r].logs, v).ops, Inst(g.reps[r].logs, w).ops)
    ensures Reaches(g.reps[r].logs, v, w) || Reaches(g.reps[r].logs, w, v)
  {
    var s := g.reps[r];
    assert AsProposed(g.born, p, v.slot, Inst(s.logs, v)) && AsProposed(g.born, p, w.slot, Inst(s.logs, w));
    var a, b := g.born[(p, v.slot)].ops, g.born[(p, w.slot)].ops;
    SameOpsConflict(a, Inst(s.logs, v).ops, b, Inst(s.logs, w).ops);
    ConflictSymmetric(a, b);
    if v.slot < w.slot {
      LaterReached(g, p, s, ns, v.slot, w.slot);
    } else {
      LaterReached(g, p, s, ns, w.slot, v.slot);
    }
  }

  // With one proposer, and batches of one key each, replicas that executed the same instances hold
  // the same data and have answered every read alike.
  lemma LoneProposerConverges(n: nat, run: seq<System>, evs: seq<Event>, p: nat, r: nat, r': nat)
    requires IsRun(n, run, evs) && Disciplined(run, evs) && LoneProposer(evs, p) && p < n
    requires SameExecuted(run[|evs|], r, r')
    ensures var g := run[|evs|];
      && g.reps[r].kvmap == g.reps[r'].kvmap
      && forall v :: IsExecuted(g.reps[r].logs, v) ==>
           ValidNode(g.reps[r'].logs, v) && Inst(g.reps[r].logs, v).ops == Inst(g.reps[r'].logs, v).ops
  {
    RunValid(n, run, evs, |evs|);
    LoneIsChained(n, run, evs, p, r);
    LinkedReplicasConverge(n, run, evs, r, r');
  }
}
