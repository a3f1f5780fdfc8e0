/** Which path a request is for: its own, less one slash at the end; and what holds of requests by their paths. */
module LockNames {
  import opened LockPaths
  import opened LockProtocol
  import opened LockTheorems

  // ---- The filter -----------------------------------------------------------------------------

  // The request begins with a slash, and is the path with or without one slash after it.
  predicate StandsFor(raw: string, path: string) {
    |raw| > 0 && raw[0] == '/' && if raw[|raw| - 1] == '/' then raw == path + "/" else raw == path
  }

  lemma FilteredExactly(raw: string, path: string)
    ensures FilterPath(raw) == Path(path) <==> StandsFor(raw, path)
  {
    if |raw| > 0 && raw[|raw| - 1] == '/' {
      assert raw == raw[..|raw| - 1] + "/";
      assert (path + "/")[..|path|] == path;
    }
  }

  // With a slash at the end or without, it is the same path.
  lemma SlashAtTheEnd(p: string)
    requires |p| > 0 && p[0] == '/' && p[|p| - 1] != '/'
    ensures FilterPath(p) == Path(p) && FilterPath(p + "/") == Path(p)
  {
    FilteredExactly(p, p);
    FilteredExactly(p + "/", p);
  }

  // ---- Requests along a run -------------------------------------------------------------------

  // By state k, request i has entered as this.
  ghost predicate EnteredAs(states: seq<System>, events: seq<Event>, k: nat, i: nat, rep: int, raw: string, mode: Mode)
  {
    exists e :: 0 <= e < k && e < |events| && EntersAt(states, events, e, i, rep, raw, mode)
  }

  ghost predicate EntersAt(states: seq<System>, events: seq<Event>, e: int, i: nat, rep: int, raw: string, mode: Mode) {
    0 <= e < |events| && e < |states| && events[e] == Enter(rep, raw, mode) && |states[e].calls| == i
  }

  predicate IsFor(c: Call, rep: int, path: string, mode: Mode) {
    c.rep == rep && c.path == path && c.mode == mode
  }

  // A request keeps its path and mode.
  lemma StepKeepsPath(s: System, e: Event, i: nat)
    requires Enabled(s, e) && i < |s.calls|
    ensures i < |Next(s, e).calls| && IsFor(Next(s, e).calls[i], s.calls[i].rep, s.calls[i].path, s.calls[i].mode)
  {
  }

  lemma {:induction false} EnteredStays(states: seq<System>, events: seq<Event>, e: nat, k: nat, i: nat, rep: int,
                                        raw: string, mode: Mode)
    requires IsRun(states, events) && e < k < |states| && EntersAt(states, events, e, i, rep, raw, mode)
    ensures i < |states[k].calls| && StandsFor(raw, states[k].calls[i].path)
    ensures IsFor(states[k].calls[i], rep, states[k].calls[i].path, mode)
    decreases k
  {
    var s, ev := states[k - 1], events[k - 1];
    assert Enabled(s, ev) && states[k] == Next(s, ev);
    if k == e + 1 {
      FilteredExactly(raw, FilterPath(raw).path);
    } else {
      EnteredStays(states, events, e, k - 1, i, rep, raw, mode);
      StepKeepsPath(s, ev, i);
    }
  }

  lemma EnteredIsFor(states: seq<System>, events: seq<Event>, k: nat, i: nat, rep: int, raw: string, mode: Mode,
                     p: string)
    requires IsRun(states, events) && k < |states| && EnteredAs(states, events, k, i, rep, raw, mode)
    requires |p| > 0 && p[|p| - 1] != '/' && (raw == p || raw == p + "/")
    ensures i < |states[k].calls| && IsFor(states[k].calls[i], rep, p, mode)
  {
    var e :| 0 <= e < k && e < |events| && EntersAt(states, events, e, i, rep, raw, mode);
    EnteredStays(states, events, e, k, i, rep, raw, mode);
    var path := states[k].calls[i].path;
    if raw == p + "/" {
      assert (path + "/")[..|path|] == path && (p + "/")[..|p|] == p;
    }
  }

  // In every run: while an exclusive request for a named path is held, entered with a slash at the
  // end or without, no other request of its replica for that path or one below it is, however entered.
  lemma SubtreeIsExclusive(states: seq<System>, events: seq<Event>, k: nat, i: nat, j: nat, rep: int,
                           p: string, rawP: string, q: string, rawQ: string, mode: Mode)
    requires IsRun(states, events) && k < |states| && i != j
    requires |p| >= 2 && p[0] == '/' && p[1] != '/' && p[|p| - 1] != '/' && (rawP == p || rawP == p + "/")
    requires q == p || (|p| < |q| && q[..|p| + 1] == p + "/" && q[|q| - 1] != '/')
    requires rawQ == q || rawQ == q + "/"
    requires EnteredAs(states, events, k, i, rep, rawP, Exclusive) && EnteredAs(states, events, k, j, rep, rawQ, mode)
    ensures i < |states[k].calls| && j < |states[k].calls|
    ensures !(Completed(states[k].calls[i]) && Completed(states[k].calls[j]))
  {
    EnteredIsFor(states, events, k, i, rep, rawP, Exclusive, p);
    EnteredIsFor(states, events, k, j, rep, rawQ, mode, q);
    RunInv(states, events, k);
    BelowSpelledOut(p, q);
    if Completed(states[k].calls[i]) && Completed(states[k].calls[j]) {
      SubtreeExclusion(states[k], i, j);
    }
  }

  lemma BelowSpelledOut(p: string, q: string)
    ensures q == p || (|p| < |q| && q[..|p| + 1] == p + "/") ==> Below(p, q)
  {
    if |p| < |q| && q[..|p| + 1] == p + "/" {
      assert q[..|p|] == (p + "/")[..|p|] == p && q[|p|] == (p + "/")[|p|];
    }
  }

  // ---- Modes ----------------------------------------------------------------------------------

  // Of any path, its own included in no level, an exclusive hold excludes every other hold of it.
  lemma SamePathIsExclusive(s: System, i: nat, j: nat)
    requires Inv(s) && i < |s.calls| && j < |s.calls| && i != j
    requires Completed(s.calls[i]) && s.calls[i].mode.Exclusive? && Completed(s.calls[j])
    ensures !(s.calls[j].rep == s.calls[i].rep && s.calls[j].path == s.calls[i].path)
  {
    var ci, cj := s.calls[i], s.calls[j];
    var l := Whole(ci.rep, ci.path);
    HoldsWhole(ci);
    HoldsWhole(cj);
    WriterIsAlone(s, i, j, l);
  }

  lemma HoldsWhole(c: Call)
    requires Sane(c) && Planned(c) && Completed(c)
    ensures Share(c, Whole(c.rep, c.path), if c.mode.Exclusive? then Writes else Reader) > 0
  {
    assert Has(c) == c.plan;
    assert c.plan[0] in Has(c);
  }

  // Every lock a request asks for is its replica's, and a shared one asks for none exclusively.
  lemma WantsOf(c: Call, k: nat)
    requires Planned(c) && k < |c.plan|
    ensures c.plan[k].lock.rep == c.rep && (c.mode.Shared? ==> !c.plan[k].exclusive)
  {
  }

  lemma SharedWritesNothing(c: Call, l: Lock)
    requires Sane(c) && Planned(c) && (l.rep != c.rep || c.mode.Shared?)
    ensures Share(c, l, Writes) == 0 && Share(c, l, Waits) == 0
  {
    forall k | 0 <= k < |Has(c)| ensures Has(c)[k] != Want(l, true) {
      WantsOf(c, c.released + k);
    }
    if c.announced {
      WantsOf(c, c.taken);
    }
  }

  // Some request has the lock in this role, or has announced itself on it.
  ghost predicate SomeoneAt(s: System, l: Lock, role: Role)
    requires AllSane(s.calls)
  {
    exists j :: 0 <= j < |s.calls| && Share(s.calls[j], l, role) > 0
  }

  lemma CountedAt(s: System, l: Lock, role: Role)
    requires AllSane(s.calls)
    ensures SomeoneAt(s, l, role) <==> Tally(s.calls, l, role) > 0
  {
    if Tally(s.calls, l, role) > 0 {
      var j := TallyWitness(s.calls, l, role);
    }
    if j: nat :| j < |s.calls| && Share(s.calls[j], l, role) > 0 {
      TallyAtLeast(s.calls, j, l, role);
    }
  }

  // What a request waits for: a shared one for a writer that has its next lock or has announced
  // itself there, an exclusive one for the same until it has announced itself, and then for readers.
  lemma WaitsExactly(s: System, i: nat)
    requires Inv(s) && i < |s.calls| && InFlight(s.calls[i])
    ensures var c := s.calls[i];
      var w := c.plan[c.taken];
      var written := SomeoneAt(s, w.lock, Writes) || SomeoneAt(s, w.lock, Waits);
      && (Enabled(s, Take(i)) <==> if w.exclusive then c.announced && !SomeoneAt(s, w.lock, Reader) else !written)
      && (Enabled(s, Announce(i)) <==> w.exclusive && !c.announced && !written)
  {
    var l := NextWant(s.calls[i]).lock;
    CountedAt(s, l, Reader);
    CountedAt(s, l, Writes);
    CountedAt(s, l, Waits);
    assert Conserved(s, l);
  }

  // Shared requests never wait for one another: with none but shared ones at its replica, a request
  // in flight can take its next lock.
  lemma SharedNeverWait(s: System, i: nat)
    requires Inv(s) && i < |s.calls| && InFlight(s.calls[i])
    requires forall j :: 0 <= j < |s.calls| && s.calls[j].rep == s.calls[i].rep ==> s.calls[j].mode.Shared?
    ensures Enabled(s, Take(i))
  {
    var c := s.calls[i];
    var l := NextWant(c).lock;
    WantsOf(c, c.taken);
    forall j | 0 <= j < |s.calls| ensures Share(s.calls[j], l, Writes) == 0 && Share(s.calls[j], l, Waits) == 0 {
      SharedWritesNothing(s.calls[j], l);
    }
    NobodyThere(s.calls, l, Writes);
    NobodyThere(s.calls, l, Waits);
    assert Conserved(s, l);
  }

  lemma NobodyThere(calls: seq<Call>, l: Lock, role: Role)
    requires AllSane(calls) && forall j :: 0 <= j < |calls| ==> Share(calls[j], l, role) == 0
    ensures Tally(calls, l, role) == 0
  {
    if Tally(calls, l, role) > 0 {
      var j := TallyWitness(calls, l, role);
    }
  }
}
