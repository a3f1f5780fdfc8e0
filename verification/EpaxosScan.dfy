/** The conflict scan: the maximum Seq over conflicting logged instances, and one dependency per row. */
module EpaxosScan {
  import opened EpaxosTypes

  // Entry i of the row holds an instance that shares a key with ops.
  predicate Hit(row: Row, i: int, ops: seq<Operation>) {
    0 <= i < |row| && row[i].Some? && Conflict(row[i].value.ops, ops)
  }

  // Positions i-1 down to 0 of a row, with the running maximum and the chosen slot.
  function ScanRow(row: Row, ops: seq<Operation>, i: nat, maxSeq: int, dep: int): (int, int)
    requires i <= |row|
  {
    if i == 0 then (maxSeq, dep)
    else if Hit(row, i - 1, ops) && row[i - 1].value.seqNo > maxSeq
    then ScanRow(row, ops, i - 1, row[i - 1].value.seqNo, i - 1)
    else ScanRow(row, ops, i - 1, maxSeq, dep)
  }

  // All rows, left to right; the running maximum is carried from row to row.
  function Scan(logs: Log, ops: seq<Operation>): (r: (int, seq<int>))
    ensures |r.1| == |logs|
  {
    if |logs| == 0 then (0, [])
    else
      var n := |logs| - 1;
      var (m, deps) := Scan(logs[..n], ops);
      var (m', dep) := ScanRow(logs[n], ops, |logs[n]|, m, -1);
      (m', deps + [dep])
  }

  ghost predicate ConflictAt(logs: Log, r: int, i: int, ops: seq<Operation>) {
    0 <= r < |logs| && Hit(logs[r], i, ops)
  }

  function SeqAt(logs: Log, r: int, i: int): int
    requires 0 <= r < |logs| && 0 <= i < |logs[r]| && logs[r][i].Some?
  {
    logs[r][i].value.seqNo
  }

  // The slot of row r stands out: its Seq is positive, beats every conflict in earlier rows, is
  // the largest of its own row, and no later slot of the row has the same Seq.
  ghost predicate Chosen(logs: Log, ops: seq<Operation>, r: int, i: int) {
    && ConflictAt(logs, r, i, ops)
    && SeqAt(logs, r, i) > 0
    && (forall r', j :: r' < r && ConflictAt(logs, r', j, ops) ==> SeqAt(logs, r', j) < SeqAt(logs, r, i))
    && (forall j :: ConflictAt(logs, r, j, ops) ==> SeqAt(logs, r, j) <= SeqAt(logs, r, i))
    && (forall j :: i < j && ConflictAt(logs, r, j, ops) ==> SeqAt(logs, r, j) < SeqAt(logs, r, i))
  }

  // m is the largest conflicting Seq, or 0 when there is none above 0.
  ghost predicate IsMaxSeq(logs: Log, ops: seq<Operation>, m: int) {
    && m >= 0
    && (forall r, i :: ConflictAt(logs, r, i, ops) ==> SeqAt(logs, r, i) <= m)
    && (m > 0 ==> exists r, i :: ConflictAt(logs, r, i, ops) && SeqAt(logs, r, i) == m)
  }

  lemma {:induction false} ScanRowFinds(row: Row, ops: seq<Operation>, i: nat, m: int, dep: int)
    requires i <= |row|
    requires dep < 0 || i <= dep
    ensures var (m', d) := ScanRow(row, ops, i, m, dep);
      && m' >= m
      && (forall j :: 0 <= j < i && Hit(row, j, ops) ==> row[j].value.seqNo <= m')
      && (d == dep ==> m' == m)
      && (d != dep ==> Hit(row, d, ops) && d < i && row[d].value.seqNo == m' > m
                       && forall j :: d < j < i && Hit(row, j, ops) ==> row[j].value.seqNo < m')
  {
    if i > 0 {
      if Hit(row, i - 1, ops) && row[i - 1].value.seqNo > m {
        ScanRowFinds(row, ops, i - 1, row[i - 1].value.seqNo, i - 1);
      } else {
        ScanRowFinds(row, ops, i - 1, m, dep);
      }
    }
  }

  // Conflicts, their Seqs and what is chosen among them in a row do not depend on later rows.
  lemma ConflictInPrefix(logs: Log, n: nat, ops: seq<Operation>, r: int, i: int)
    requires n <= |logs| && r < n
    ensures ConflictAt(logs[..n], r, i, ops) <==> ConflictAt(logs, r, i, ops)
    ensures ConflictAt(logs, r, i, ops) ==> SeqAt(logs[..n], r, i) == SeqAt(logs, r, i)
  {
  }

  lemma ChosenInPrefix(logs: Log, n: nat, ops: seq<Operation>, r: int, i: int)
    requires n <= |logs| && r < n
    ensures Chosen(logs[..n], ops, r, i) <==> Chosen(logs, ops, r, i)
  {
    forall r', j | r' < n
      ensures ConflictAt(logs[..n], r', j, ops) <==> ConflictAt(logs, r', j, ops)
      ensures ConflictAt(logs, r', j, ops) ==> SeqAt(logs[..n], r', j) == SeqAt(logs, r', j)
    {
      ConflictInPrefix(logs, n, ops, r', j);
    }
  }

  // The running maximum is at least every conflicting Seq.
  lemma {:induction false} ScanIsBound(logs: Log, ops: seq<Operation>)
    ensures var m := Scan(logs, ops).0;
      m >= 0 && forall r, i :: ConflictAt(logs, r, i, ops) ==> SeqAt(logs, r, i) <= m
  {
    if |logs| > 0 {
      var n := |logs| - 1;
      ScanIsBound(logs[..n], ops);
      ScanRowFinds(logs[n], ops, |logs[n]|, Scan(logs[..n], ops).0, -1);
      forall r, i | ConflictAt(logs, r, i, ops) ensures SeqAt(logs, r, i) <= Scan(logs, ops).0 {
        if r < n {
          ConflictInPrefix(logs, n, ops, r, i);
        } else {
          assert Hit(logs[n], i, ops);
        }
      }
    }
  }

  // A last row with a dependency: it is the chosen slot of that row.
  lemma {:induction false} LastRowChosen(logs: Log, ops: seq<Operation>)
    requires |logs| > 0
    ensures var n := |logs| - 1;
      var (m', d) := ScanRow(logs[n], ops, |logs[n]|, Scan(logs[..n], ops).0, -1);
      && (d != -1 ==> Chosen(logs, ops, n, d) && SeqAt(logs, n, d) == m')
      && (d == -1 ==> m' == Scan(logs[..n], ops).0 && forall i :: !Chosen(logs, ops, n, i))
    decreases |logs| - 1, 2
  {
    var n := |logs| - 1;
    var m := Scan(logs[..n], ops).0;
    var (m', d) := ScanRow(logs[n], ops, |logs[n]|, m, -1);
    ScanIsBound(logs[..n], ops);
    ScanRowFinds(logs[n], ops, |logs[n]|, m, -1);
    forall i ensures ConflictAt(logs, n, i, ops) <==> Hit(logs[n], i, ops) {
    }
    if d != -1 {
      forall r', j | r' < n && ConflictAt(logs, r', j, ops) ensures SeqAt(logs, r', j) < SeqAt(logs, n, d) {
        ConflictInPrefix(logs, n, ops, r', j);
      }
    } else {
      forall i ensures !Chosen(logs, ops, n, i) {
        NothingStandsOut(logs, ops, i);
      }
    }
  }

  // Nothing in the last row stands out if none of its conflicts exceeds the maximum of the rows before.
  lemma NothingStandsOut(logs: Log, ops: seq<Operation>, i: int)
    requires |logs| > 0
    requires var n := |logs| - 1;
      forall j :: ConflictAt(logs, n, j, ops) ==> SeqAt(logs, n, j) <= Scan(logs[..n], ops).0
    ensures !Chosen(logs, ops, |logs| - 1, i)
    decreases |logs| - 1, 1
  {
    var n := |logs| - 1;
    var prev, m := logs[..n], Scan(logs[..n], ops).0;
    ScanIsAttained(prev, ops);
    if m > 0 {
      var r :| 0 <= r < |prev| && Chosen(prev, ops, r, Scan(prev, ops).1[r])
               && SeqAt(prev, r, Scan(prev, ops).1[r]) == m;
      ConflictInPrefix(logs, n, ops, r, Scan(prev, ops).1[r]);
    }
  }

  // A positive maximum belongs to a chosen dependency.
  lemma {:induction false} ScanIsAttained(logs: Log, ops: seq<Operation>)
    ensures var (m, deps) := Scan(logs, ops);
      m > 0 ==> exists r :: 0 <= r < |logs| && Chosen(logs, ops, r, deps[r]) && SeqAt(logs, r, deps[r]) == m
    decreases |logs|, 0
  {
    if |logs| > 0 {
      var n := |logs| - 1;
      var (m, deps) := Scan(logs[..n], ops);
      var (m', d) := ScanRow(logs[n], ops, |logs[n]|, m, -1);
      ScanIsAttained(logs[..n], ops);
      LastRowChosen(logs, ops);
      var all := deps + [d];
      if d != -1 {
        assert all[n] == d;
      } else if m > 0 {
        var r :| 0 <= r < n && Chosen(logs[..n], ops, r, deps[r]) && SeqAt(logs[..n], r, deps[r]) == m;
        ChosenInPrefix(logs, n, ops, r, deps[r]);
        assert all[r] == deps[r];
      }
    }
  }

  // Every row contributes its chosen slot, or -1 exactly when it has none.
  lemma {:induction false} ScanChooses(logs: Log, ops: seq<Operation>, r: nat)
    requires r < |logs|
    ensures var dep := Scan(logs, ops).1[r];
      (dep == -1 && forall i :: !Chosen(logs, ops, r, i)) || Chosen(logs, ops, r, dep)
    decreases |logs|
  {
    var n := |logs| - 1;
    if r < n {
      ScanChooses(logs[..n], ops, r);
      forall i ensures Chosen(logs[..n], ops, r, i) <==> Chosen(logs, ops, r, i) {
        ChosenInPrefix(logs, n, ops, r, i);
      }
    } else {
      LastRowChosen(logs, ops);
    }
  }

  // What the nested loops compute, stated without them: the maximum, and for every row the chosen
  // slot, or -1 exactly when the row has none.
  lemma ScanMeaning(logs: Log, ops: seq<Operation>)
    ensures var (m, deps) := Scan(logs, ops);
      && IsMaxSeq(logs, ops, m)
      && |deps| == |logs|
      && (forall r :: 0 <= r < |logs| ==>
            (deps[r] == -1 && forall i :: !Chosen(logs, ops, r, i)) || Chosen(logs, ops, r, deps[r]))
      && (m > 0 ==> exists r :: 0 <= r < |logs| && Chosen(logs, ops, r, deps[r]) && SeqAt(logs, r, deps[r]) == m)
  {
    ScanIsBound(logs, ops);
    ScanIsAttained(logs, ops);
    forall r: nat | r < |logs|
      ensures var dep := Scan(logs, ops).1[r];
        (dep == -1 && forall i :: !Chosen(logs, ops, r, i)) || Chosen(logs, ops, r, dep)
    {
      ScanChooses(logs, ops, r);
    }
  }

  lemma ChosenUnique(logs: Log, ops: seq<Operation>, r: int, i: int, j: int)
    requires Chosen(logs, ops, r, i) && Chosen(logs, ops, r, j)
    ensures i == j
  {
  }

  // Chosen dependencies of two rows are ordered by Seq as the rows are by index.
  lemma ChosenSeqsIncrease(logs: Log, ops: seq<Operation>, r: int, s: int)
    requires 0 <= r < s < |logs|
    requires Scan(logs, ops).1[r] >= 0 && Scan(logs, ops).1[s] >= 0
    ensures var deps := Scan(logs, ops).1;
      && ConflictAt(logs, r, deps[r], ops) && ConflictAt(logs, s, deps[s], ops)
      && SeqAt(logs, r, deps[r]) < SeqAt(logs, s, deps[s])
  {
    ScanMeaning(logs, ops);
  }

  // A row contributes a dependency exactly when one of its conflicts has a positive Seq above every
  // conflicting Seq of the rows before it; its other conflicts leave no trace in the vector.
  lemma RowCoveredIff(logs: Log, ops: seq<Operation>, r: int)
    requires 0 <= r < |logs|
    ensures Scan(logs, ops).1[r] >= 0 <==>
            exists i :: && ConflictAt(logs, r, i, ops) && SeqAt(logs, r, i) > 0
                        && forall r', j :: r' < r && ConflictAt(logs, r', j, ops) ==>
                            SeqAt(logs, r', j) < SeqAt(logs, r, i)
  {
    ScanMeaning(logs, ops);
    var deps := Scan(logs, ops).1;
    if i :| && ConflictAt(logs, r, i, ops) && SeqAt(logs, r, i) > 0
            && forall r', j :: r' < r && ConflictAt(logs, r', j, ops) ==> SeqAt(logs, r', j) < SeqAt(logs, r, i) {
      ScanRowFinds(logs[r], ops, |logs[r]|, SeqAt(logs, r, i) - 1, -1);
      var (top, d) := ScanRow(logs[r], ops, |logs[r]|, SeqAt(logs, r, i) - 1, -1);
      assert Hit(logs[r], i, ops);
      assert d >= 0 && ConflictAt(logs, r, d, ops) && SeqAt(logs, r, d) == top;
      assert forall j :: ConflictAt(logs, r, j, ops) ==> Hit(logs[r], j, ops);
      assert Chosen(logs, ops, r, d);
    }
  }
}
