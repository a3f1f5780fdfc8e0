/** The life of one instance: the invariant of its view, kept by every event. */
module EpaxosInstance {
  import opened Options
  import opened EpaxosTypes
  import opened EpaxosHandlers
  import opened EpaxosExecution
  import opened EpaxosProtocol

  predicate Sized(n: nat, lead: nat, v: View) {
    n >= 2 && lead < n && |v.entries| == n && |v.fwd| == n && |v.back| == n
  }

  // A record in its own place in the log.
  predicate Placed(n: nat, lead: nat, slot: nat, x: Instance) {
    x.rep == lead && x.slot == slot && |x.deps| == n
  }

  predicate Below(a: Instance, b: Instance) {
    a.seqNo <= b.seqNo && DepsBelow(a.deps, b.deps)
  }

  // A record derived from the proposal b: never below it, and equal to it unless marked changed.
  predicate GrownFrom(b: Instance, x: Instance) {
    && SameOps(x.ops, b.ops) && Below(b, x)
    && (!x.changed ==> x.seqNo == b.seqNo && x.deps == b.deps)
  }

  predicate Quiet(v: View, p: nat)
    requires p < |v.fwd| && p < |v.back|
  {
    v.fwd[p] == [] && v.back[p] == []
  }

  // p has not heard of the instance, and nothing is on the way.
  predicate Ignorant(v: View, p: nat)
    requires p < |v.fwd| == |v.back| == |v.entries|
  {
    v.entries[p].None? && Quiet(v, p)
  }

  predicate Blank(n: nat, v: View)
    requires |v.fwd| == |v.back| == |v.entries| == n
  {
    && (forall p: nat :: p < n ==> Ignorant(v, p))
    && v.count == 0 && !v.committed && v.pend == 0 && v.born.None?
  }

  function PeerSet(n: nat, lead: nat): set<int>
    requires n >= 1
  {
    set p | 0 <= p < n && p in Thrifty(n, lead)
  }

  // Peers whose answer of the current phase has been handled.
  function Counters(n: nat, lead: nat, v: View): set<int>
    requires Sized(n, lead, v)
  {
    set p | 0 <= p < n && p in Thrifty(n, lead) && Quiet(v, p)
  }

  predicate Vote(n: nat, lead: nat, slot: nat, b: Instance, x: Instance) {
    Placed(n, lead, slot, x) && x.state.PreAccepted? && x.ops == b.ops && GrownFrom(b, x)
  }

  // Phase 1 with one peer: asked, answered, or counted.
  predicate PreAcceptWith(n: nat, lead: nat, slot: nat, v: View, b: Instance, e: Instance, p: nat)
    requires Sized(n, lead, v) && p < n
  {
    || (v.fwd[p] == [PreAccept(b)] && v.back[p] == [] && v.entries[p].None?)
    || (v.fwd[p] == [] && v.entries[p].Some? && Vote(n, lead, slot, b, v.entries[p].value)
        && var x := v.entries[p].value;
           (v.back[p] == [PreAcceptReply(slot, x.seqNo, x.deps, x.changed)]
           || (v.back[p] == [] && Below(x, e) && (x.changed ==> e.changed))))
  }

  // Every component of the leader's record comes from the proposal or from a counted answer.
  ghost predicate FromVotes(n: nat, lead: nat, v: View, b: Instance, e: Instance)
    requires Sized(n, lead, v)
  {
    && (e.seqNo == b.seqNo
        || exists p :: p in Counters(n, lead, v) && v.entries[p].Some? && v.entries[p].value.seqNo == e.seqNo)
    && forall i :: 0 <= i < |e.deps| ==> DepFromVotes(n, lead, v, b, e, i)
  }

  ghost predicate DepFromVotes(n: nat, lead: nat, v: View, b: Instance, e: Instance, i: int)
    requires Sized(n, lead, v)
  {
    && 0 <= i < |e.deps| && |b.deps| == |e.deps|
    && (e.deps[i] == b.deps[i]
        || exists p :: p in Counters(n, lead, v) && v.entries[p].Some? && |v.entries[p].value.deps| == |e.deps|
                       && v.entries[p].value.deps[i] == e.deps[i])
  }

  ghost predicate Phase1(n: nat, lead: nat, slot: nat, v: View, b: Instance, e: Instance)
    requires Sized(n, lead, v)
  {
    && e.state.PreAccepted? && v.pend == 0 && !v.committed
    && v.count == |Counters(n, lead, v)| < n / 2
    && (forall p: nat :: p < n && p in Thrifty(n, lead) ==> PreAcceptWith(n, lead, slot, v, b, e, p))
    && (forall p: nat :: p < n && p != lead && p !in Thrifty(n, lead) ==> Ignorant(v, p))
    && FromVotes(n, lead, v, b, e)
  }

  // Phase 2 with one peer.
  predicate AcceptWith(n: nat, lead: nat, slot: nat, v: View, e: Instance, p: nat)
    requires Sized(n, lead, v) && p < n
  {
    && v.entries[p].Some?
    && ((v.fwd[p] == [Accept(e)] && v.back[p] == []
           && var x := v.entries[p].value;
              Placed(n, lead, slot, x) && x.state.PreAccepted? && x.ops == e.ops && Below(x, e))
       || (v.fwd[p] == [] && v.entries[p].value == e && (v.back[p] == [] || v.back[p] == [AcceptReply(slot)])))
  }

  ghost predicate Phase2(n: nat, lead: nat, slot: nat, v: View, e: Instance)
    requires Sized(n, lead, v)
  {
    && e.state.Accepted? && e.changed && v.pend == 0 && !v.committed
    && v.count == |Counters(n, lead, v)| < n / 2
    && (forall p: nat :: p < n && p in Thrifty(n, lead) ==> AcceptWith(n, lead, slot, v, e, p))
    && (forall p: nat :: p < n && p != lead && p !in Thrifty(n, lead) ==> Ignorant(v, p))
  }

  // p logs what the leader decided, though it does not know yet that it is decided.
  predicate Ready(n: nat, lead: nat, slot: nat, v: View, e: Instance, p: nat)
    requires Sized(n, lead, v) && p < n
  {
    && v.entries[p].Some? && Placed(n, lead, slot, v.entries[p].value)
    && SameDecision(v.entries[p].value, e)
    && (v.entries[p].value.state.PreAccepted? || v.entries[p].value.state.Accepted?)
  }

  // The decision is made and its commit has been launched.
  ghost predicate Launched(n: nat, lead: nat, slot: nat, v: View, e: Instance)
    requires Sized(n, lead, v)
  {
    && (e.state.PreAccepted? || e.state.Accepted?) && v.pend == 1 && v.committed
    && (e.state.Accepted? <==> e.changed)
    && (forall p: nat :: p < n && p in Thrifty(n, lead) ==> Ready(n, lead, slot, v, e, p) && Quiet(v, p))
    && (forall p: nat :: p < n && p != lead && p !in Thrifty(n, lead) ==> Ignorant(v, p))
  }

  predicate LearnsFrom(n: nat, lead: nat, slot: nat, v: View, e: Instance, p: nat)
    requires Sized(n, lead, v) && p < n
  {
    && v.back[p] == []
    && ((|v.fwd[p]| == 1 && v.fwd[p][0].Commit?
           && var c := v.fwd[p][0].inst;
              Placed(n, lead, slot, c) && SameDecision(c, e) && c.state.Committed?
              && if p in Thrifty(n, lead) then Ready(n, lead, slot, v, e, p) else v.entries[p].None?)
       || (v.fwd[p] == [] && v.entries[p].Some? && v.entries[p].value.Decided()
           && Placed(n, lead, slot, v.entries[p].value) && SameDecision(v.entries[p].value, e)))
  }

  // The leader committed and told everybody.
  ghost predicate Told(n: nat, lead: nat, slot: nat, v: View, e: Instance)
    requires Sized(n, lead, v)
  {
    && e.Decided() && v.pend == 0 && v.committed
    && forall p: nat :: p < n && p != lead ==> LearnsFrom(n, lead, slot, v, e, p)
  }

  ghost predicate Shape(n: nat, lead: nat, slot: nat, v: View) {
    && Sized(n, lead, v)
    && Quiet(v, lead)
    && match v.entries[lead]
       case None => Blank(n, v)
       case Some(e) =>
         && v.born.Some? && Placed(n, lead, slot, v.born.value) && !v.born.value.changed
         && v.born.value.state.PreAccepted?
         && Placed(n, lead, slot, e) && GrownFrom(v.born.value, e)
         && (if e.Decided() then Told(n, lead, slot, v, e)
             else e.ops == v.born.value.ops &&
                  if v.committed then Launched(n, lead, slot, v, e)
                  else Phase1(n, lead, slot, v, v.born.value, e) || Phase2(n, lead, slot, v, e))
  }

  // What may happen to a logged record: its state and its numbers only go up, its operations are
  // the same, a decision stays, and an executed record is never touched again.
  predicate Advances(x: Instance, y: Instance) {
    && x.state.Rank() <= y.state.Rank() && Below(x, y) && SameOps(x.ops, y.ops)
    && (x.Decided() ==> SameDecision(x, y))
    && (x.state.Executed? ==> y == x)
  }

  ghost predicate Grows(n: nat, lead: nat, v: View, v': View) {
    && Sized(n, lead, v) && Sized(n, lead, v')
    && (forall p: nat :: p < n && v.entries[p].Some? ==>
          v'.entries[p].Some? && Advances(v.entries[p].value, v'.entries[p].value))
    && (v.born.Some? ==> v'.born == v.born)
    && (v.entries[lead].Some? && v.entries[lead].value.changed ==>
        v'.entries[lead].Some? && v'.entries[lead].value.changed)
    && (v.committed ==> v'.committed && v'.pend <= v.pend)
  }

  // ---- Counting -------------------------------------------------------------------------------

  function Members(s: seq<int>): set<int> {
    set p | p in s
  }

  lemma ThriftyDistinct(n: nat, lead: nat, i: nat, j: nat)
    requires n >= 2 && lead < n && i < j < n / 2
    ensures Thrifty(n, lead)[i] != Thrifty(n, lead)[j]
  {
    ThriftyAt(n, lead, i);
    ThriftyAt(n, lead, j);
  }

  lemma ThriftyInRange(n: nat, lead: nat, i: nat)
    requires n >= 2 && lead < n && i < n / 2
    ensures 0 <= Thrifty(n, lead)[i] < n
  {
    ThriftyAt(n, lead, i);
  }

  // Distinct numbers below n make a set of as many.
  lemma {:induction false} DistinctMembers(s: seq<int>, n: nat)
    requires forall i :: 0 <= i < |s| ==> 0 <= s[i] < n
    requires forall i, j :: 0 <= i < j < |s| ==> s[i] != s[j]
    ensures |Members(s)| == |s| && forall p :: p in Members(s) ==> 0 <= p < n
  {
    if |s| > 0 {
      var k := |s| - 1;
      var before, x := s[..k], s[k];
      DistinctMembers(before, n);
      OneMoreMember(before, x);
      assert s == before + [x];
    }
  }

  lemma OneMoreMember(s: seq<int>, x: int)
    requires x !in s
    ensures Members(s + [x]) == Members(s) + {x} && |Members(s + [x])| == |Members(s)| + 1
  {
    assert Members(s + [x]) == Members(s) + {x};
  }

  lemma PeerCount(n: nat, lead: nat)
    requires n >= 2 && lead < n
    ensures |PeerSet(n, lead)| == n / 2
  {
    var t := Thrifty(n, lead);
    forall i: nat | i < |t| ensures 0 <= t[i] < n {
      ThriftyInRange(n, lead, i);
    }
    forall i: nat, j: nat | i < j < |t| ensures t[i] != t[j] {
      ThriftyDistinct(n, lead, i, j);
    }
    DistinctMembers(t, n);
    assert PeerSet(n, lead) == Members(t);
  }

  lemma SubsetSize(a: set<int>, b: set<int>)
    requires a <= b
    ensures |a| <= |b| && (|a| == |b| ==> a == b)
  {
    assert b == a + (b - a);
    assert |b| == |a| + |b - a|;
    if |a| == |b| {
      assert b - a == {};
    }
  }

  lemma AllCounted(n: nat, lead: nat, v: View)
    requires Sized(n, lead, v)
    ensures |Counters(n, lead, v)| <= n / 2
    ensures |Counters(n, lead, v)| == n / 2 ==> forall p: nat :: p < n && p in Thrifty(n, lead) ==> Quiet(v, p)
  {
    PeerCount(n, lead);
    SubsetSize(Counters(n, lead, v), PeerSet(n, lead));
    if |Counters(n, lead, v)| == n / 2 {
      forall p: nat | p < n && p in Thrifty(n, lead) ensures Quiet(v, p) {
        assert p in PeerSet(n, lead);
      }
    }
  }

  lemma OneMore(n: nat, lead: nat, v: View, v': View, p: nat)
    requires Sized(n, lead, v) && Sized(n, lead, v') && p < n && p in Thrifty(n, lead)
    requires !Quiet(v, p) && Quiet(v', p)
    requires forall q: nat :: q < n && q != p ==> Quiet(v', q) == Quiet(v, q)
    ensures Counters(n, lead, v') == Counters(n, lead, v) + {p}
    ensures |Counters(n, lead, v')| == |Counters(n, lead, v)| + 1
  {
    assert Counters(n, lead, v') == Counters(n, lead, v) + {p};
  }

  // ---- Every event keeps the shape -------------------------------------------------------------

  // Where replica p stands, phase by phase.
  lemma Standing(n: nat, lead: nat, slot: nat, v: View, p: nat)
    requires Shape(n, lead, slot, v) && p < n && p != lead
    ensures v.entries[lead].None? ==> Ignorant(v, p)
    ensures v.entries[lead].Some? ==>
      var e := v.entries[lead].value;
      v.born.Some? &&
      if e.Decided() then Told(n, lead, slot, v, e) && LearnsFrom(n, lead, slot, v, e, p)
      else e.ops == v.born.value.ops &&
           if p !in Thrifty(n, lead) then Ignorant(v, p)
           else if v.committed then Ready(n, lead, slot, v, e, p) && Quiet(v, p)
           else if e.state.PreAccepted?
           then Phase1(n, lead, slot, v, v.born.value, e) && PreAcceptWith(n, lead, slot, v, v.born.value, e, p)
           else Phase2(n, lead, slot, v, e) && AcceptWith(n, lead, slot, v, e, p)
  {
    assert v.entries[lead].None? ==> Ignorant(v, p);
    if v.entries[lead].Some? {
      var e := v.entries[lead].value;
      assert Told(n, lead, slot, v, e) ==> LearnsFrom(n, lead, slot, v, e, p);
      assert !e.Decided() && p !in Thrifty(n, lead) ==> Ignorant(v, p);
      assert Launched(n, lead, slot, v, e) && p in Thrifty(n, lead) ==> Ready(n, lead, slot, v, e, p) && Quiet(v, p);
      assert Phase1(n, lead, slot, v, v.born.value, e) && p in Thrifty(n, lead)
             ==> PreAcceptWith(n, lead, slot, v, v.born.value, e, p);
      assert Phase2(n, lead, slot, v, e) && p in Thrifty(n, lead) ==> AcceptWith(n, lead, slot, v, e, p);
    }
  }

  // What is waiting at the head of a conversation tells the phase.
  lemma ForwardHead(n: nat, lead: nat, slot: nat, v: View, p: nat)
    requires Shape(n, lead, slot, v) && p < n && p != lead && |v.fwd[p]| > 0
    ensures v.entries[lead].Some? && v.born.Some? && |v.fwd[p]| == 1 && v.back[p] == []
    ensures var e, b := v.entries[lead].value, v.born.value;
      match v.fwd[p][0]
      case PreAccept(i) => p in Thrifty(n, lead) && i == b && Phase1(n, lead, slot, v, b, e)
                           && e.ops == b.ops && v.entries[p].None?
      case Accept(i) => p in Thrifty(n, lead) && i == e && Phase2(n, lead, slot, v, e)
      case Commit(i) => Told(n, lead, slot, v, e) && LearnsFrom(n, lead, slot, v, e, p)
      case _ => false
  {
    Standing(n, lead, slot, v, p);
  }

  lemma BackwardHead(n: nat, lead: nat, slot: nat, v: View, p: nat)
    requires Shape(n, lead, slot, v) && p < n && p != lead && |v.back[p]| > 0
    ensures v.entries[lead].Some? && v.born.Some? && |v.back[p]| == 1 && v.fwd[p] == [] && p in Thrifty(n, lead)
    ensures var e, b := v.entries[lead].value, v.born.value;
      e.ops == b.ops &&
      match v.back[p][0]
      case PreAcceptReply(k, seqNo, deps, changed) =>
        && Phase1(n, lead, slot, v, b, e) && k == slot
        && v.entries[p].Some? && Vote(n, lead, slot, b, v.entries[p].value)
        && var x := v.entries[p].value; x.seqNo == seqNo && x.deps == deps && x.changed == changed
      case AcceptReply(k) => k == slot && Phase2(n, lead, slot, v, e) && v.entries[p] == Some(e)
      case _ => false
  {
    Standing(n, lead, slot, v, p);
  }

  lemma BirthVotes(n: nat, lead: nat, v: View, b: Instance)
    requires Sized(n, lead, v)
    ensures FromVotes(n, lead, v, b, b)
  {
    forall i | 0 <= i < |b.deps| ensures DepFromVotes(n, lead, v, b, b, i) {}
  }

  lemma KeepsProposal(n: nat, lead: nat, slot: nat, v: View, b: Instance)
    requires Shape(n, lead, slot, v) && v.entries[lead].None?
    requires Placed(n, lead, slot, b) && !b.changed && b.state.PreAccepted?
    ensures Shape(n, lead, slot, v.(entries := v.entries[lead := Some(b)],
                                    fwd := Send(v.fwd, Thrifty(n, lead), PreAccept(b)), born := Some(b)))
    ensures Grows(n, lead, v, v.(entries := v.entries[lead := Some(b)],
                                  fwd := Send(v.fwd, Thrifty(n, lead), PreAccept(b)), born := Some(b)))
  {
    var v' := v.(entries := v.entries[lead := Some(b)], fwd := Send(v.fwd, Thrifty(n, lead), PreAccept(b)),
        born := Some(b));
    PeerIsNotMe(n, lead);
    forall p: nat | p < n
      ensures v'.back[p] == [] && (p != lead ==> v'.entries[p].None?)
      ensures v'.fwd[p] == if p in Thrifty(n, lead) then [PreAccept(b)] else []
    {
      assert Ignorant(v, p);
    }
    assert Counters(n, lead, v') == {};
    BirthVotes(n, lead, v', b);
    assert Phase1(n, lead, slot, v', b, b);
  }

  // Votes already counted still vouch for the same components.
  lemma VotesStay(n: nat, lead: nat, v: View, v': View, b: Instance, e: Instance)
    requires Sized(n, lead, v) && Sized(n, lead, v') && FromVotes(n, lead, v, b, e)
    requires Counters(n, lead, v) <= Counters(n, lead, v')
    requires forall p :: p in Counters(n, lead, v) ==> v'.entries[p] == v.entries[p]
    ensures FromVotes(n, lead, v', b, e)
  {
    if e.seqNo != b.seqNo {
      var p :| p in Counters(n, lead, v) && v.entries[p].Some? && v.entries[p].value.seqNo == e.seqNo;
      assert p in Counters(n, lead, v') && v'.entries[p].value.seqNo == e.seqNo;
    }
    forall i | 0 <= i < |e.deps| ensures DepFromVotes(n, lead, v', b, e, i) {
      assert DepFromVotes(n, lead, v, b, e, i);
      if e.deps[i] != b.deps[i] {
        var p :| p in Counters(n, lead, v) && v.entries[p].Some? && |v.entries[p].value.deps| == |e.deps|
                 && v.entries[p].value.deps[i] == e.deps[i];
        assert p in Counters(n, lead, v') && v'.entries[p].value.deps[i] == e.deps[i];
      }
    }
  }

  lemma KeepsPreAccept(n: nat, lead: nat, slot: nat, v: View, p: nat, x: Instance)
    requires Shape(n, lead, slot, v) && p < n && p != lead
    requires |v.fwd[p]| > 0 && v.fwd[p][0].PreAccept?
    requires Vote(n, lead, slot, v.fwd[p][0].inst, x)
    ensures Shape(n, lead, slot, Heard(v, p, x, [PreAcceptReply(slot, x.seqNo, x.deps, x.changed)]))
    ensures Grows(n, lead, v, Heard(v, p, x, [PreAcceptReply(slot, x.seqNo, x.deps, x.changed)]))
  {
    ForwardHead(n, lead, slot, v, p);
    Phase1Hears(n, lead, slot, v, p, x, v.born.value, v.entries[lead].value);
    HeardGrows(n, lead, v, p, x, [PreAcceptReply(slot, x.seqNo, x.deps, x.changed)]);
  }

  lemma Phase1Hears(n: nat, lead: nat, slot: nat, v: View, p: nat, x: Instance, b: Instance, e: Instance)
    requires Sized(n, lead, v) && Phase1(n, lead, slot, v, b, e) && p < n && p != lead
    requires |v.fwd[p]| > 0 && v.fwd[p][0].PreAccept? && Vote(n, lead, slot, b, x)
    ensures Phase1(n, lead, slot, Heard(v, p, x, [PreAcceptReply(slot, x.seqNo, x.deps, x.changed)]), b, e)
  {
    var v' := Heard(v, p, x, [PreAcceptReply(slot, x.seqNo, x.deps, x.changed)]);
    assert Counters(n, lead, v') == Counters(n, lead, v);
    forall q: nat | q < n && q in Thrifty(n, lead) ensures PreAcceptWith(n, lead, slot, v', b, e, q) {
      assert PreAcceptWith(n, lead, slot, v, b, e, q);
      HeardPeer(n, lead, slot, v, p, x, b, e, q);
    }
    forall q: nat | q < n && q != lead && q !in Thrifty(n, lead) ensures Ignorant(v', q) {
      assert Ignorant(v, q);
    }
    VotesStay(n, lead, v, v', b, e);
  }

  lemma HeardPeer(n: nat, lead: nat, slot: nat, v: View, p: nat, x: Instance, b: Instance, e: Instance, q: nat)
    requires Sized(n, lead, v) && p < n && q < n && PreAcceptWith(n, lead, slot, v, b, e, q)
    requires |v.fwd[p]| > 0 && v.fwd[p][0].PreAccept? && Vote(n, lead, slot, b, x)
    ensures PreAcceptWith(n, lead, slot, Heard(v, p, x, [PreAcceptReply(slot, x.seqNo, x.deps, x.changed)]), b, e, q)
  {
  }

  lemma KeepsAccept(n: nat, lead: nat, slot: nat, v: View, p: nat)
    requires Shape(n, lead, slot, v) && p < n && p != lead
    requires |v.fwd[p]| > 0 && v.fwd[p][0].Accept?
    ensures Shape(n, lead, slot, Heard(v, p, v.fwd[p][0].inst, [AcceptReply(slot)]))
    ensures Grows(n, lead, v, Heard(v, p, v.fwd[p][0].inst, [AcceptReply(slot)]))
  {
    ForwardHead(n, lead, slot, v, p);
    var e := v.entries[lead].value;
    assert AcceptWith(n, lead, slot, v, e, p);
    Phase2Hears(n, lead, slot, v, p, e);
    HeardGrows(n, lead, v, p, e, [AcceptReply(slot)]);
  }

  // A peer's record only advances by what it hears.
  lemma HeardGrows(n: nat, lead: nat, v: View, p: nat, x: Instance, reply: seq<Message>)
    requires Sized(n, lead, v) && p < n && p != lead && |v.fwd[p]| > 0
    requires v.entries[p].Some? ==> Advances(v.entries[p].value, x)
    ensures Grows(n, lead, v, Heard(v, p, x, reply))
  {
  }

  lemma Phase2Hears(n: nat, lead: nat, slot: nat, v: View, p: nat, e: Instance)
    requires Sized(n, lead, v) && Phase2(n, lead, slot, v, e) && p < n && p != lead && p in Thrifty(n, lead)
    requires |v.fwd[p]| > 0 && v.fwd[p][0] == Accept(e)
    ensures Phase2(n, lead, slot, Heard(v, p, e, [AcceptReply(slot)]), e)
  {
    var v' := Heard(v, p, e, [AcceptReply(slot)]);
    assert Counters(n, lead, v') == Counters(n, lead, v);
    forall q: nat | q < n && q in Thrifty(n, lead) ensures AcceptWith(n, lead, slot, v', e, q) {
      assert AcceptWith(n, lead, slot, v, e, q);
      AcceptPeer(n, lead, slot, v, p, e, q);
    }
    forall q: nat | q < n && q != lead && q !in Thrifty(n, lead) ensures Ignorant(v', q) {
      assert Ignorant(v, q);
    }
  }

  lemma AcceptPeer(n: nat, lead: nat, slot: nat, v: View, p: nat, e: Instance, q: nat)
    requires Sized(n, lead, v) && p < n && q < n && AcceptWith(n, lead, slot, v, e, q)
    requires |v.fwd[p]| > 0 && v.fwd[p][0] == Accept(e)
    ensures AcceptWith(n, lead, slot, Heard(v, p, e, [AcceptReply(slot)]), e, q)
  {
  }

  lemma KeepsCommit(n: nat, lead: nat, slot: nat, v: View, p: nat)
    requires Shape(n, lead, slot, v) && p < n && p != lead
    requires |v.fwd[p]| > 0 && v.fwd[p][0].Commit?
    ensures Shape(n, lead, slot, Heard(v, p, v.fwd[p][0].inst, []))
    ensures Grows(n, lead, v, Heard(v, p, v.fwd[p][0].inst, []))
  {
    ForwardHead(n, lead, slot, v, p);
    var v' := Heard(v, p, v.fwd[p][0].inst, []);
    var e := v.entries[lead].value;
    forall q: nat | q < n && q != lead ensures LearnsFrom(n, lead, slot, v', e, q) {
      assert LearnsFrom(n, lead, slot, v, e, q);
    }
    assert Told(n, lead, slot, v', e);
  }

  lemma KeepsFire(n: nat, lead: nat, slot: nat, v: View)
    requires Shape(n, lead, slot, v) && v.pend > 0
    ensures v.entries[lead].Some? && v.entries[lead].value.slot == slot
    ensures Shape(n, lead, slot, Fired(v, lead, n, v.entries[lead].value.(state := Committed)))
    ensures Grows(n, lead, v, Fired(v, lead, n, v.entries[lead].value.(state := Committed)))
  {
    var e := v.entries[lead].value;
    var x := e.(state := Committed);
    var v' := Fired(v, lead, n, x);
    assert Launched(n, lead, slot, v, e);
    InOthers(n, lead, lead);
    forall q: nat | q < n && q != lead ensures LearnsFrom(n, lead, slot, v', x, q) {
      InOthers(n, lead, q);
      if q in Thrifty(n, lead) {
        assert Ready(n, lead, slot, v, e, q);
        assert Ready(n, lead, slot, v', x, q);
      } else {
        assert Ignorant(v, q);
      }
    }
    assert Told(n, lead, slot, v', x);
  }

  lemma KeepsRun(n: nat, lead: nat, slot: nat, v: View, r: nat, x: Option<Instance>)
    requires Shape(n, lead, slot, v) && r < n && EntryRan(v.entries[r], x)
    ensures Shape(n, lead, slot, v.(entries := v.entries[r := x]))
    ensures Grows(n, lead, v, v.(entries := v.entries[r := x]))
  {
    var v' := v.(entries := v.entries[r := x]);
    if x == v.entries[r] {
      assert v' == v;
    } else {
      if r != lead {
        Standing(n, lead, slot, v, r);
      }
      ToldRuns(n, lead, slot, v, r, x.value);
    }
  }

  lemma ToldRuns(n: nat, lead: nat, slot: nat, v: View, r: nat, x: Instance)
    requires Sized(n, lead, v) && r < n && v.entries[lead].Some? && Told(n, lead, slot, v, v.entries[lead].value)
    requires v.entries[r].Some? && SameDecision(v.entries[r].value, x) && v.entries[r].value.Decided() && x.Decided()
    ensures var v' := v.(entries := v.entries[r := Some(x)]); Told(n, lead, slot, v', v'.entries[lead].value)
  {
    var v' := v.(entries := v.entries[r := Some(x)]);
    var e, e' := v.entries[lead].value, v'.entries[lead].value;
    forall q: nat | q < n && q != lead ensures LearnsFrom(n, lead, slot, v', e', q) {
      assert LearnsFrom(n, lead, slot, v, e, q);
    }
  }

  // ---- Answers: absorbed, counted, and at the last one acted upon -----------------------------

  // The leader's record once the answer at the head of p's conversation is absorbed.
  function Absorbed(n: nat, lead: nat, v: View, p: nat): Instance
    requires Sized(n, lead, v) && p < n && v.entries[lead].Some?
    requires |v.back[p]| > 0 && v.back[p][0].PreAcceptReply?
    requires |v.back[p][0].deps| == |v.entries[lead].value.deps|
  {
    var m := v.back[p][0];
    Absorb(v.entries[lead].value, m.seqNo, m.deps, m.changed)
  }

  predicate Answering(n: nat, lead: nat, slot: nat, v: View, p: nat) {
    Sized(n, lead, v) && p < n && p != lead && |v.back[p]| > 0 && v.back[p][0].PreAcceptReply?
    && v.entries[lead].Some? && |v.back[p][0].deps| == |v.entries[lead].value.deps|
  }

  // The answer counted, whatever the leader does next.
  function Polled(n: nat, lead: nat, slot: nat, v: View, p: nat): View
    requires Answering(n, lead, slot, v, p)
  {
    Counted(v, lead, p, Some(Absorbed(n, lead, v, p)), [], [], v.count + 1, v.committed, v.pend)
  }

  // All the facts of phase 1 but the bound on the count.
  ghost predicate Polling(n: nat, lead: nat, slot: nat, v: View, b: Instance, e: Instance)
    requires Sized(n, lead, v)
  {
    && e.state.PreAccepted? && v.pend == 0 && !v.committed
    && v.count == |Counters(n, lead, v)|
    && (forall p: nat :: p < n && p in Thrifty(n, lead) ==> PreAcceptWith(n, lead, slot, v, b, e, p))
    && (forall p: nat :: p < n && p != lead && p !in Thrifty(n, lead) ==> Ignorant(v, p))
    && FromVotes(n, lead, v, b, e)
  }

  lemma AbsorbGrows(b: Instance, e: Instance, x: Instance)
    requires Below(b, e) && Below(b, x) && (!x.changed ==> x.seqNo == b.seqNo && x.deps == b.deps)
    ensures var y := Absorb(e, x.seqNo, x.deps, x.changed);
      Below(e, y) && Below(x, y) && (x.changed ==> y.changed) && (e.changed ==> y.changed) && (!y.changed ==> y == e)
  {
  }

  lemma PolledVotes(n: nat, lead: nat, slot: nat, v: View, p: nat)
    requires Shape(n, lead, slot, v) && p < n && p != lead && |v.back[p]| > 0 && v.back[p][0].PreAcceptReply?
    ensures Answering(n, lead, slot, v, p) && v.born.Some?
    ensures FromVotes(n, lead, Polled(n, lead, slot, v, p), v.born.value, Absorbed(n, lead, v, p))
  {
    BackwardHead(n, lead, slot, v, p);
    var v', e, b, y := Polled(n, lead, slot, v, p), v.entries[lead].value, v.born.value, Absorbed(n, lead, v, p);
    var x := v.entries[p].value;
    OneMore(n, lead, v, v', p);
    PeerIsNotMe(n, lead);
    VotesStay(n, lead, v, v', b, e);
    assert p in Counters(n, lead, v') && v'.entries[p] == Some(x);
    if x.changed {
      assert y.seqNo == e.seqNo || y.seqNo == x.seqNo;
      forall i | 0 <= i < |y.deps| ensures DepFromVotes(n, lead, v', b, y, i) {
        assert DepFromVotes(n, lead, v', b, e, i);
        assert y.deps[i] == e.deps[i] || y.deps[i] == x.deps[i];
      }
    }
  }

  lemma PollKeeps(n: nat, lead: nat, slot: nat, v: View, p: nat)
    requires Shape(n, lead, slot, v) && p < n && p != lead && |v.back[p]| > 0 && v.back[p][0].PreAcceptReply?
    ensures Answering(n, lead, slot, v, p) && v.born.Some?
    ensures var y := Absorbed(n, lead, v, p);
      && Polling(n, lead, slot, Polled(n, lead, slot, v, p), v.born.value, y)
      && Placed(n, lead, slot, y) && GrownFrom(v.born.value, y) && y.ops == v.born.value.ops
      && v.count + 1 <= n / 2
  {
    BackwardHead(n, lead, slot, v, p);
    PolledVotes(n, lead, slot, v, p);
    var v', e, b, y := Polled(n, lead, slot, v, p), v.entries[lead].value, v.born.value, Absorbed(n, lead, v, p);
    OneMore(n, lead, v, v', p);
    AllCounted(n, lead, v');
    AbsorbGrows(b, e, v.entries[p].value);
    PeerIsNotMe(n, lead);
    forall q: nat | q < n && q in Thrifty(n, lead) ensures PreAcceptWith(n, lead, slot, v', b, y, q) {
      assert PreAcceptWith(n, lead, slot, v, b, e, q);
      PollPeer(n, lead, slot, v, p, b, e, q);
    }
    forall q: nat | q < n && q != lead && q !in Thrifty(n, lead) ensures Ignorant(v', q) {
      assert Ignorant(v, q);
    }
  }

  // One peer's side of it: the one just counted, or any other.
  lemma PollPeer(n: nat, lead: nat, slot: nat, v: View, p: nat, b: Instance, e: Instance, q: nat)
    requires Answering(n, lead, slot, v, p) && q < n && q != lead && v.entries[lead] == Some(e)
    requires PreAcceptWith(n, lead, slot, v, b, e, q)
    requires var y := Absorbed(n, lead, v, p);
      Below(e, y) && (e.changed ==> y.changed)
      && (q == p && v.entries[p].Some? ==> Below(v.entries[p].value, y) && (v.entries[p].value.changed ==> y.changed))
    ensures PreAcceptWith(n, lead, slot, Polled(n, lead, slot, v, p), b, Absorbed(n, lead, v, p), q)
  {
    assert v.entries[lead := Some(Absorbed(n, lead, v, p))][q] == v.entries[q];
  }

  // At the last answer every peer has been counted, and the leader's record is the pointwise
  // maximum of its proposal and of what the N/2 peers answered with.
  lemma LastAnswer(n: nat, lead: nat, slot: nat, v: View, p: nat)
    requires Shape(n, lead, slot, v) && p < n && p != lead && |v.back[p]| > 0 && v.back[p][0].PreAcceptReply?
    requires Majority(n, v.count + 1)
    ensures Answering(n, lead, slot, v, p) && v.born.Some?
    ensures var y, v' := Absorbed(n, lead, v, p), Polled(n, lead, slot, v, p);
      && FromVotes(n, lead, v', v.born.value, y) && Below(v.born.value, y)
      && forall q: nat :: q < n && q in Thrifty(n, lead) ==>
           && Quiet(v', q) && v'.entries[q].Some? && Vote(n, lead, slot, v.born.value, v'.entries[q].value)
           && Below(v'.entries[q].value, y) && (v'.entries[q].value.changed ==> y.changed)
  {
    PollKeeps(n, lead, slot, v, p);
    var v', y := Polled(n, lead, slot, v, p), Absorbed(n, lead, v, p);
    AllCounted(n, lead, v');
    forall q: nat | q < n && q in Thrifty(n, lead)
      ensures && Quiet(v', q) && v'.entries[q].Some? && Vote(n, lead, slot, v.born.value, v'.entries[q].value)
              && Below(v'.entries[q].value, y) && (v'.entries[q].value.changed ==> y.changed)
    {
      assert PreAcceptWith(n, lead, slot, v', v.born.value, y, q);
    }
  }

  lemma KeepsPoll(n: nat, lead: nat, slot: nat, v: View, p: nat)
    requires Shape(n, lead, slot, v) && p < n && p != lead && |v.back[p]| > 0 && v.back[p][0].PreAcceptReply?
    requires !Majority(n, v.count + 1)
    ensures Answering(n, lead, slot, v, p)
    ensures Shape(n, lead, slot, Polled(n, lead, slot, v, p))
  {
    PollKeeps(n, lead, slot, v, p);
    assert Phase1(n, lead, slot, Polled(n, lead, slot, v, p), v.born.value, Absorbed(n, lead, v, p));
  }

  lemma SlowPeer(n: nat, lead: nat, slot: nat, w: View, v': View, b: Instance, y: Instance, q: nat)
    requires Sized(n, lead, w) && Sized(n, lead, v') && q < n && q != lead && q in Thrifty(n, lead)
    requires v'.fwd == Send(w.fwd, Thrifty(n, lead), Accept(y)) && v'.back == w.back
    requires v'.entries == w.entries[lead := v'.entries[lead]]
    requires Quiet(w, q) && w.entries[q].Some? && Vote(n, lead, slot, b, w.entries[q].value)
    requires Below(w.entries[q].value, y) && y.ops == b.ops
    ensures AcceptWith(n, lead, slot, v', y, q) && v'.fwd[q] == [Accept(y)]
  {
  }

  // The slow path: the merged record goes out for acceptance.
  lemma KeepsSlowPath(n: nat, lead: nat, slot: nat, v: View, p: nat)
    requires Shape(n, lead, slot, v) && p < n && p != lead && |v.back[p]| > 0 && v.back[p][0].PreAcceptReply?
    requires Majority(n, v.count + 1)
    ensures Answering(n, lead, slot, v, p)
    ensures Absorbed(n, lead, v, p).changed ==>
      var y := Absorbed(n, lead, v, p).(state := Accepted);
      Shape(n, lead, slot, Counted(v, lead, p, Some(y), [Accept(y)], Thrifty(n, lead), 0, v.committed, v.pend))
  {
    LastAnswer(n, lead, slot, v, p);
    PollKeeps(n, lead, slot, v, p);
    if Absorbed(n, lead, v, p).changed {
      Phase2Begins(n, lead, slot, v, p, v.born.value);
    }
  }

  lemma Phase2Begins(n: nat, lead: nat, slot: nat, v: View, p: nat, b: Instance)
    requires Answering(n, lead, slot, v, p) && Absorbed(n, lead, v, p).changed && Absorbed(n, lead, v, p).ops == b.ops
    requires v.pend == 0 && !v.committed
    requires var x, w := Absorbed(n, lead, v, p), Polled(n, lead, slot, v, p);
      && (forall q: nat :: q < n && q in Thrifty(n, lead) ==>
            Quiet(w, q) && w.entries[q].Some? && Vote(n, lead, slot, b, w.entries[q].value)
            && Below(w.entries[q].value, x))
      && (forall q: nat :: q < n && q != lead && q !in Thrifty(n, lead) ==> Ignorant(w, q))
    ensures var y := Absorbed(n, lead, v, p).(state := Accepted);
      Phase2(n, lead, slot, Counted(v, lead, p, Some(y), [Accept(y)], Thrifty(n, lead), 0, v.committed, v.pend), y)
  {
    var w, y := Polled(n, lead, slot, v, p), Absorbed(n, lead, v, p).(state := Accepted);
    var v' := Counted(v, lead, p, Some(y), [Accept(y)], Thrifty(n, lead), 0, v.committed, v.pend);
    PeerIsNotMe(n, lead);
    forall q: nat | q < n && q in Thrifty(n, lead)
      ensures AcceptWith(n, lead, slot, v', y, q) && v'.fwd[q] == [Accept(y)]
    {
      SlowPeer(n, lead, slot, w, v', b, y, q);
    }
    forall q: nat | q < n && q != lead && q !in Thrifty(n, lead) ensures Ignorant(v', q) {
      assert Ignorant(w, q);
    }
    assert Counters(n, lead, v') == {};
    assert n / 2 > 0;
  }

  // The fast path: nobody changed anything, so every peer already logs the decision.
  lemma KeepsFastPath(n: nat, lead: nat, slot: nat, v: View, p: nat)
    requires Shape(n, lead, slot, v) && p < n && p != lead && |v.back[p]| > 0 && v.back[p][0].PreAcceptReply?
    requires Majority(n, v.count + 1)
    ensures Answering(n, lead, slot, v, p)
    ensures !Absorbed(n, lead, v, p).changed ==>
      Shape(n, lead, slot, Counted(v, lead, p, Some(Absorbed(n, lead, v, p)), [], [], 0, true, v.pend + 1))
  {
    LastAnswer(n, lead, slot, v, p);
    PollKeeps(n, lead, slot, v, p);
    var w := Polled(n, lead, slot, v, p);
    var y := Absorbed(n, lead, v, p);
    if !y.changed {
      var v' := Counted(v, lead, p, Some(y), [], [], 0, true, v.pend + 1);
      PeerIsNotMe(n, lead);
      forall q: nat | q < n && q in Thrifty(n, lead) ensures Ready(n, lead, slot, v', y, q) && Quiet(v', q) {
        assert Quiet(w, q) && Vote(n, lead, slot, v.born.value, w.entries[q].value);
      }
      forall q: nat | q < n && q != lead && q !in Thrifty(n, lead) ensures Ignorant(v', q) {
        assert Ignorant(w, q);
      }
      assert Launched(n, lead, slot, v', y);
    }
  }

  lemma KeepsAcceptReply(n: nat, lead: nat, slot: nat, v: View, p: nat)
    requires Shape(n, lead, slot, v) && p < n && p != lead && |v.back[p]| > 0 && v.back[p][0].AcceptReply?
    ensures v.entries[lead].Some? && !v.committed && v.pend == 0
    ensures var last := Majority(n, v.count + 1);
      Shape(n, lead, slot, Counted(v, lead, p, v.entries[lead], [], [], v.count + 1, last, if last then 1 else 0))
  {
    BackwardHead(n, lead, slot, v, p);
    var last := Majority(n, v.count + 1);
    var v' := Counted(v, lead, p, v.entries[lead], [], [], v.count + 1, last, if last then 1 else 0);
    var e := v.entries[lead].value;
    assert v.back[p] == [AcceptReply(slot)] && v.back[p][1..] == [];
    Phase2Counts(n, lead, slot, v, p, e, v');
    if last {
      Phase2Ends(n, lead, slot, v', e);
    }
  }

  // Phase two with one more answer counted, whatever the leader makes of the count.
  lemma Phase2Counts(n: nat, lead: nat, slot: nat, v: View, p: nat, e: Instance, v': View)
    requires Sized(n, lead, v) && Phase2(n, lead, slot, v, e) && p < n && p != lead && p in Thrifty(n, lead)
    requires v.back[p] == [AcceptReply(slot)] && v.fwd[p] == []
    requires Sized(n, lead, v') && v'.entries == v.entries && v'.fwd == v.fwd && v'.back == v.back[p := []]
    ensures |Counters(n, lead, v')| == v.count + 1 <= n / 2
    ensures forall q: nat :: q < n && q in Thrifty(n, lead) ==> AcceptWith(n, lead, slot, v', e, q)
    ensures forall q: nat :: q < n && q != lead && q !in Thrifty(n, lead) ==> Ignorant(v', q)
  {
    OneMore(n, lead, v, v', p);
    AllCounted(n, lead, v');
    forall q: nat | q < n && q in Thrifty(n, lead) ensures AcceptWith(n, lead, slot, v', e, q) {
      assert AcceptWith(n, lead, slot, v, e, q);
    }
    forall q: nat | q < n && q != lead && q !in Thrifty(n, lead) ensures Ignorant(v', q) {
      assert Ignorant(v, q);
    }
  }

  lemma Phase2Ends(n: nat, lead: nat, slot: nat, v: View, e: Instance)
    requires Sized(n, lead, v) && |Counters(n, lead, v)| == n / 2 && e.state.Accepted? && e.changed
    requires Placed(n, lead, slot, e) && v.pend == 1 && v.committed
    requires forall q: nat :: q < n && q in Thrifty(n, lead) ==> AcceptWith(n, lead, slot, v, e, q)
    requires forall q: nat :: q < n && q != lead && q !in Thrifty(n, lead) ==> Ignorant(v, q)
    ensures Launched(n, lead, slot, v, e)
  {
    AllCounted(n, lead, v);
    forall q: nat | q < n && q in Thrifty(n, lead) ensures Ready(n, lead, slot, v, e, q) && Quiet(v, q) {
      assert AcceptWith(n, lead, slot, v, e, q);
    }
  }

  // An answer only ever moves the leader's own record, and forward.
  lemma CountedGrows(n: nat, lead: nat, v: View, p: nat, y: Instance, sent: seq<Message>, dests: seq<int>,
                     count: int, committed: bool, pend: nat)
    requires Sized(n, lead, v) && p < n && |v.back[p]| > 0 && |sent| <= 1 && v.entries[lead].Some? && !v.committed
    requires Advances(v.entries[lead].value, y) && (v.entries[lead].value.changed ==> y.changed)
    ensures Grows(n, lead, v, Counted(v, lead, p, Some(y), sent, dests, count, committed, pend))
  {
  }

  lemma AnswerAdvances(n: nat, lead: nat, slot: nat, v: View, p: nat)
    requires Shape(n, lead, slot, v) && p < n && p != lead && |v.back[p]| > 0
    ensures v.entries[lead].Some? && !v.committed
    ensures var e := v.entries[lead].value;
      if v.back[p][0].PreAcceptReply?
      then Answering(n, lead, slot, v, p) &&
           var x := Absorbed(n, lead, v, p);
           Advances(e, x) && Advances(e, x.(state := Accepted)) && (e.changed ==> x.changed)
      else Advances(e, e)
  {
    BackwardHead(n, lead, slot, v, p);
    if v.back[p][0].PreAcceptReply? {
      AbsorbGrows(v.born.value, v.entries[lead].value, v.entries[p].value);
    }
  }
}
