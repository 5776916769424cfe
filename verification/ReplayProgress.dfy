/** What one undisturbed `replay_safe_merge` does, column by column: which tables are accepted, and what
    is stored afterwards. */
module ReplayProgress {
  import opened Wrappers
  import opened ReplaySink

  /** A line the validation rejects: a negative window or sequence, or a tombstone with a payload. */
  predicate BadLine(line: Line)
  {
    line.row.window < 0 || line.row.sequence < 0 || (line.row.deleted && line.row.payload != [])
  }

  predicate NoBadLine(table: Table)
  {
    forall i :: 0 <= i < |table| ==> !BadLine(table[i])
  }

  predicate KeysDiffer(table: Table)
  {
    forall i, j :: 0 <= i < j < |table| ==> table[i].key != table[j].key
  }

  lemma AcceptedColumns(table: Table)
    ensures ValidTable(table) <==> NoBadLine(table)
    ensures DistinctLines(table) <==> KeysDiffer(table)
  {
    if NoBadLine(table) {
      forall i | 0 <= i < |table|
        ensures table[i].row.window >= 0 && table[i].row.sequence >= 0
        ensures table[i].row.deleted ==> table[i].row.payload == []
      {
        assert !BadLine(table[i]);
      }
    }
  }

  /** A call is refused as invalid, raises for a repeated key, or starts: by the columns alone. */
  lemma SpawnExactly(s: System, table: Table, retries: nat)
    ensures var t := Next(s, Spawn(table), retries);
            && |t.workers| == |s.workers| + 1 && t.rows == s.rows && t.log == s.log
            && var phase := t.workers[|s.workers|].phase;
               && (phase == Failed <==> !NoBadLine(table))
               && (phase == Start <==> NoBadLine(table) && KeysDiffer(table))
               && (phase == Conflict <==> NoBadLine(table) && !KeysDiffer(table))
  {
    AcceptedColumns(table);
  }

  /** No stored row has the sequence of an incoming line and another digest. */
  predicate LevelAgrees(rows: Dataset, table: Table)
  {
    forall i :: 0 <= i < |table| && table[i].key in rows && rows[table[i].key].sequence == table[i].row.sequence ==>
      rows[table[i].key].digest == table[i].row.digest
  }

  /** The rows after the table went in: each line where it is newer, everything else as it was. */
  ghost predicate TakesIn(before: Dataset, table: Table, after: Dataset)
  {
    && (forall i :: 0 <= i < |table| ==>
          && table[i].key in after
          && after[table[i].key] ==
             if table[i].key in before && before[table[i].key].sequence >= table[i].row.sequence
             then before[table[i].key] else table[i].row)
    && forall k :: (forall i :: 0 <= i < |table| ==> table[i].key != k) ==> Get(after, k) == Get(before, k)
  }

  lemma MergeTakesIn(rows: Dataset, table: Table)
    requires KeysDiffer(table)
    ensures TakesIn(rows, table, MergeInsert(rows, table))
  {
    AcceptedColumns(table);
    var after := MergeInsert(rows, table);
    forall i | 0 <= i < |table|
      ensures table[i].key in after
      ensures after[table[i].key] ==
              if table[i].key in rows && rows[table[i].key].sequence >= table[i].row.sequence
              then rows[table[i].key] else table[i].row
    {
      FindLine(table, i);
      assert table[i].key in TableKeys(table);
    }
    forall k | forall i :: 0 <= i < |table| ==> table[i].key != k ensures Get(after, k) == Get(rows, k) {
      assert Find(table, k).None?;
    }
  }

  lemma AgreeingNeverClashes(rows: Dataset, table: Table)
    requires KeysDiffer(table)
    ensures LevelAgrees(rows, table) <==> !HasClash(Stored(rows, TableKeys(table)), Incoming(table))
  {
    AcceptedColumns(table);
    var existing, incoming := Stored(rows, TableKeys(table)), Incoming(table);
    forall i | 0 <= i < |table|
      ensures table[i].key in incoming && incoming[table[i].key] == StateOf(table[i].row)
      ensures table[i].key in rows ==>
                table[i].key in existing && existing[table[i].key] == StateOf(rows[table[i].key])
    {
      FindLine(table, i);
      assert table[i].key in TableKeys(table);
    }
    if HasClash(existing, incoming) {
      var k :| k in incoming && k in existing && Clash(existing[k], incoming[k]);
      var i :| 0 <= i < |table| && table[i].key == k;
      assert rows[table[i].key].sequence == table[i].row.sequence;
    }
    if !LevelAgrees(rows, table) {
      var i :| 0 <= i < |table| && table[i].key in rows && rows[table[i].key].sequence == table[i].row.sequence
        && rows[table[i].key].digest != table[i].row.digest;
      assert Clash(existing[table[i].key], incoming[table[i].key]);
    }
  }

  lemma TakenInIsReconciled(rows: Dataset, table: Table)
    requires KeysDiffer(table) && LevelAgrees(rows, table)
    ensures var after := MergeInsert(rows, table);
            Reconciled(Stored(after, TableKeys(table)), Incoming(table))
  {
    var after := MergeInsert(rows, table);
    MergeTakesIn(rows, table);
    AcceptedColumns(table);
    hide MergeInsert;
    forall i | 0 <= i < |table| ensures Settled(after, table[i]) {
      var k := table[i].key;
      assert k in rows && rows[k].sequence == table[i].row.sequence ==> rows[k].digest == table[i].row.digest;
    }
    ReconciledMeansSettled(after, table);
  }

  /** The worker's run when nobody interferes: the merge is skipped exactly when it is a no-op. */
  ghost function UndisturbedRun(s: System, table: Table): seq<Step>
  {
    var i := |s.workers|;
    if MergeInsert(s.rows, table) == s.rows
    then [Spawn(table), Preflight(i, false), Verify(i)]
    else [Spawn(table), Preflight(i, false), Commit(i), Verify(i)]
  }

  ghost predicate Goes(s: System, step: Step, t: System, retries: nat)
  {
    Enabled(s, step) && Next(s, step, retries) == t
  }

  ghost predicate Reaches(s: System, run: seq<Step>, t: System, retries: nat)
  {
    ValidRun(s, run, retries) && After(s, run, retries) == t
  }

  lemma Prepended(s: System, step: Step, t: System, rest: seq<Step>, u: System, retries: nat)
    requires Goes(s, step, t, retries) && Reaches(t, rest, u, retries)
    ensures Reaches(s, [step] + rest, u, retries)
  {
    hide Next, Enabled;
    assert ([step] + rest)[1..] == rest;
  }

  lemma Ended(s: System, retries: nat)
    ensures Reaches(s, [], s, retries)
  {
  }

  function Joined(s: System, rows: Dataset, log: seq<Table>, w: Worker): System
  {
    System(rows, log, s.workers + [w])
  }

  lemma SpawnGoes(s: System, table: Table, retries: nat)
    requires NoBadLine(table) && KeysDiffer(table)
    ensures Goes(s, Spawn(table), Joined(s, s.rows, s.log, Worker(table, 0, Start)), retries)
  {
    AcceptedColumns(table);
    hide ValidTable, DistinctLines;
  }

  lemma PreflightGoes(s: System, table: Table, retries: nat)
    requires KeysDiffer(table) && LevelAgrees(s.rows, table)
    ensures var w := Worker(table, 0, if MergeInsert(s.rows, table) == s.rows then Merged else Preflighted);
            Goes(Joined(s, s.rows, s.log, Worker(table, 0, Start)), Preflight(|s.workers|, false),
                 Joined(s, s.rows, s.log, w), retries)
  {
    NoOpIsExact(s.rows, table);
    AgreeingNeverClashes(s.rows, table);
    hide MergeInsert, RequiresMerge, HasClash, Stored, Incoming;
    var w := Worker(table, 0, if MergeInsert(s.rows, table) == s.rows then Merged else Preflighted);
    assert (s.workers + [Worker(table, 0, Start)])[|s.workers| := w] == s.workers + [w];
  }

  lemma CommitGoes(s: System, table: Table, retries: nat)
    ensures Goes(Joined(s, s.rows, s.log, Worker(table, 0, Preflighted)), Commit(|s.workers|),
                 Joined(s, MergeInsert(s.rows, table), s.log + [table], Worker(table, 0, Merged)), retries)
  {
    hide MergeInsert;
    assert (s.workers + [Worker(table, 0, Preflighted)])[|s.workers| := Worker(table, 0, Merged)]
      == s.workers + [Worker(table, 0, Merged)];
  }

  lemma VerifyGoes(s: System, table: Table, log: seq<Table>, retries: nat)
    requires KeysDiffer(table) && LevelAgrees(s.rows, table)
    ensures var rows := MergeInsert(s.rows, table);
            Goes(Joined(s, rows, log, Worker(table, 0, Merged)), Verify(|s.workers|),
                 Joined(s, rows, log, Worker(table, 0, Done)), retries)
  {
    TakenInIsReconciled(s.rows, table);
    hide MergeInsert, Reconciled, Stored, Incoming;
    assert (s.workers + [Worker(table, 0, Merged)])[|s.workers| := Worker(table, 0, Done)]
      == s.workers + [Worker(table, 0, Done)];
  }

  /** Progress: a well-formed table with distinct keys that agrees with what is stored at its own
      sequences goes in. The call succeeds, and the rows are the old ones with every newer line, live or
      tombstone, in place. */
  lemma UndisturbedCallSucceeds(s: System, table: Table, retries: nat)
    requires NoBadLine(table) && KeysDiffer(table) && LevelAgrees(s.rows, table)
    ensures var run := UndisturbedRun(s, table);
            && ValidRun(s, run, retries)
            && var t := After(s, run, retries);
               t.workers == s.workers + [Worker(table, 0, Done)] && TakesIn(s.rows, table, t.rows)
  {
    hide MergeInsert, Goes, Reaches, TakesIn, LevelAgrees, NoBadLine, KeysDiffer, ValidRun, After;
    MergeTakesIn(s.rows, table);
    SpawnGoes(s, table, retries);
    PreflightGoes(s, table, retries);
    CommitGoes(s, table, retries);
    var i, merged := |s.workers|, MergeInsert(s.rows, table);
    var s1 := Joined(s, s.rows, s.log, Worker(table, 0, Start));
    var log := if merged == s.rows then s.log else s.log + [table];
    VerifyGoes(s, table, log, retries);
    var ready := Joined(s, merged, log, Worker(table, 0, Merged));
    var end := Joined(s, merged, log, Worker(table, 0, Done));
    Ended(end, retries);
    var r3 := [Verify(i)] + [];
    Prepended(ready, Verify(i), end, [], end, retries);
    var r2 := if merged == s.rows then r3 else [Commit(i)] + r3;
    var s2 := Joined(s, s.rows, s.log, Worker(table, 0, if merged == s.rows then Merged else Preflighted));
    if merged != s.rows {
      Prepended(s2, Commit(i), ready, r3, end, retries);
    }
    var r1 := [Preflight(i, false)] + r2;
    Prepended(s1, Preflight(i, false), s2, r2, end, retries);
    Prepended(s, Spawn(table), s1, r1, end, retries);
    assert [Spawn(table)] + r1 == UndisturbedRun(s, table);
    ReachesMeans(s, UndisturbedRun(s, table), end, retries);
  }

  lemma {:induction false} Chained(s: System, a: seq<Step>, t: System, b: seq<Step>, u: System, retries: nat)
    requires Reaches(s, a, t, retries) && Reaches(t, b, u, retries)
    ensures Reaches(s, a + b, u, retries)
    decreases |a|
  {
    hide Next, Enabled;
    if a == [] {
      assert a + b == b;
    } else {
      assert (a + b)[1..] == a[1..] + b;
      Chained(Next(s, a[0], retries), a[1..], t, b, u, retries);
    }
  }

  lemma ReachesMeans(s: System, run: seq<Step>, t: System, retries: nat)
    requires Reaches(s, run, t, retries)
    ensures ValidRun(s, run, retries) && After(s, run, retries) == t
  {
  }
}
