/** The replay-safe merge of `src/lance_etl/etl/replay_sink.py`, and its concurrent runs.

    A dataset is a map from record id to its one stored row. Lance's contract is explicit:
    `merge_insert` acts atomically on the version it commits against, a failed commit changes
    nothing, and a commit that reports an error may nevertheless have landed. */
module ReplaySink {
  import opened Digest
  import opened Orders
  import opened Wrappers

  datatype Row = Row(
    window: int, sequence: int, digest: seq<byte>, deleted: bool, ts: Instant, payload: seq<Entry>)

  datatype Line = Line(key: string, row: Row)

  type Table = seq<Line>

  type Dataset = map<string, Row>

  /** What the sink reads back: source sequence and digest. */
  datatype KeyState = KeyState(sequence: int, digest: seq<byte>)

  type States = map<string, KeyState>

  // ---------- validation ----------

  /** `validate_replay_table` for a table of the right column types: an empty payload is a cleared one. */
  predicate ValidTable(table: Table)
  {
    forall i :: 0 <= i < |table| ==>
      && table[i].row.window >= 0
      && table[i].row.sequence >= 0
      && (table[i].row.deleted ==> table[i].row.payload == [])
  }

  predicate DistinctLines(table: Table)
  {
    forall i, j :: 0 <= i < j < |table| ==> table[i].key != table[j].key
  }

  function Find(table: Table, key: string): (r: Option<Row>)
    ensures r.Some? <==> exists i :: 0 <= i < |table| && table[i].key == key
    ensures r.Some? ==> Line(key, r.value) in table
  {
    if table == [] then None
    else if table[0].key == key then
      assert table[0] == Line(key, table[0].row);
      Some(table[0].row)
    else
      var r := Find(table[1..], key);
      assert forall i :: 0 <= i < |table[1..]| ==> table[1..][i] == table[i + 1];
      assert (exists i :: 0 <= i < |table| && table[i].key == key) ==>
          exists i :: 0 <= i < |table[1..]| && table[1..][i].key == key by {
        if i :| 0 <= i < |table| && table[i].key == key {
          assert table[1..][i - 1].key == key;
        }
      }
      r
  }

  lemma FindLine(table: Table, i: nat)
    requires DistinctLines(table) && i < |table|
    ensures Find(table, table[i].key) == Some(table[i].row)
  {
    var r := Find(table, table[i].key);
    assert Line(table[i].key, r.value) in table;
  }

  function TableKeys(table: Table): set<string>
  {
    set i | 0 <= i < |table| :: table[i].key
  }

  function StateOf(row: Row): KeyState
  {
    KeyState(row.sequence, row.digest)
  }

  function Incoming(table: Table): States
  {
    map k | k in TableKeys(table) :: StateOf(Find(table, k).value)
  }

  /** `expected_key_states`: the incoming states, or nothing when some key repeats. */
  method ExpectedKeyStates(table: Table) returns (r: Option<States>)
    ensures r.Some? <==> DistinctLines(table)
    ensures r.Some? ==> r.value == Incoming(table)
  {
    var states: States := map[];
    for i := 0 to |table|
      invariant DistinctLines(table[..i])
      invariant states.Keys == TableKeys(table[..i])
      invariant forall j :: 0 <= j < i ==> states[table[j].key] == StateOf(table[j].row)
    {
      if table[i].key in states {
        assert exists j :: 0 <= j < i && table[j].key == table[i].key;
        return None;
      }
      states := states[table[i].key := StateOf(table[i].row)];
    }
    assert table[..|table|] == table;
    forall k | k in states ensures states[k] == Incoming(table)[k] {
      var j :| 0 <= j < |table| && table[j].key == k;
      FindLine(table, j);
    }
    r := Some(states);
  }

  /** `load_key_states` over one pinned version, for the incoming keys. */
  function Stored(rows: Dataset, keys: set<string>): States
  {
    map k | k in rows && k in keys :: StateOf(rows[k])
  }

  // ---------- the merge ----------

  /** `replay_update_condition`, or the key is missing. */
  predicate Wins(rows: Dataset, key: string, row: Row)
  {
    key !in rows || rows[key].sequence < row.sequence
  }

  /** Update when the stored source sequence is smaller, insert when absent: one atomic step. */
  function MergeInsert(rows: Dataset, table: Table): Dataset
  {
    map k | k in rows.Keys + TableKeys(table) ::
      var found := Find(table, k);
      if found.Some? && Wins(rows, k, found.value) then found.value else rows[k]
  }

  /** `requires_replay_merge`. */
  predicate RequiresMerge(existing: States, incoming: States)
  {
    exists k :: k in incoming && (k !in existing || incoming[k].sequence > existing[k].sequence)
  }

  /** Skipping the merge is exact: it is skipped if and only if it would change nothing. */
  lemma NoOpIsExact(rows: Dataset, table: Table)
    ensures RequiresMerge(Stored(rows, TableKeys(table)), Incoming(table)) <==> MergeInsert(rows, table) != rows
  {
    var existing, incoming, merged := Stored(rows, TableKeys(table)), Incoming(table), MergeInsert(rows, table);
    if k :| k in incoming && (k !in existing || incoming[k].sequence > existing[k].sequence) {
      assert Find(table, k).Some? && k in merged;
      assert k !in rows || merged[k].sequence != rows[k].sequence;
    } else {
      forall k | k in merged ensures k in rows && merged[k] == rows[k] {
        if Find(table, k).Some? {
          assert k in incoming;
        }
      }
      assert rows.Keys <= merged.Keys;
    }
  }

  /** Stored rows only ever move to a higher source sequence. */
  ghost predicate Advances(before: Dataset, after: Dataset)
  {
    forall k :: k in before ==> k in after && (after[k] == before[k] || after[k].sequence > before[k].sequence)
  }

  lemma MergeAdvances(rows: Dataset, table: Table)
    ensures Advances(rows, MergeInsert(rows, table))
  {
  }

  /** A merge stores each incoming line or finds its key at an equal or higher sequence. */
  ghost predicate Covered(rows: Dataset, table: Table)
  {
    forall i :: 0 <= i < |table| ==> table[i].key in rows && rows[table[i].key].sequence >= table[i].row.sequence
  }

  lemma MergeCovers(rows: Dataset, table: Table)
    requires DistinctLines(table)
    ensures Covered(MergeInsert(rows, table), table)
  {
    forall i | 0 <= i < |table|
      ensures var m := MergeInsert(rows, table);
              table[i].key in m && m[table[i].key].sequence >= table[i].row.sequence
    {
      FindLine(table, i);
      assert table[i].key in TableKeys(table);
    }
  }

  /** Merging two halves of a distinct-key table in sequence is merging the whole. */
  lemma MergeInPieces(rows: Dataset, a: Table, b: Table)
    requires DistinctLines(a + b)
    ensures MergeInsert(MergeInsert(rows, a), b) == MergeInsert(rows, a + b)
  {
    forall k: string ensures Get(MergeInsert(MergeInsert(rows, a), b), k) == Get(MergeInsert(rows, a + b), k) {
      MergeAtKey(rows, a, b, k);
    }
    SameGets(MergeInsert(MergeInsert(rows, a), b), MergeInsert(rows, a + b));
  }

  function Get(rows: Dataset, k: string): Option<Row>
  {
    if k in rows then Some(rows[k]) else None
  }

  lemma SameGets(x: Dataset, y: Dataset)
    requires forall k :: Get(x, k) == Get(y, k)
    ensures x == y
  {
    forall k | k in x.Keys + y.Keys ensures k in x && k in y && x[k] == y[k] {
      assert Get(x, k) == Get(y, k);
    }
  }

  /** The row a merge leaves at one key, from the stored row and the incoming one. */
  function Winner(stored: Option<Row>, incoming: Option<Row>): Option<Row>
  {
    if incoming.None? then stored
    else if stored.None? || stored.value.sequence < incoming.value.sequence then incoming
    else stored
  }

  lemma MergeGet(rows: Dataset, table: Table, k: string)
    ensures Get(MergeInsert(rows, table), k) == Winner(Get(rows, k), Find(table, k))
  {
    assert k in TableKeys(table) <==> Find(table, k).Some?;
  }

  lemma MergeAtKey(rows: Dataset, a: Table, b: Table, k: string)
    requires DistinctLines(a + b)
    ensures Get(MergeInsert(MergeInsert(rows, a), b), k) == Get(MergeInsert(rows, a + b), k)
  {
    hide MergeInsert, Find, Get;
    MergeGet(rows, a, k);
    MergeGet(MergeInsert(rows, a), b, k);
    MergeGet(rows, a + b, k);
    FindInHalves(a, b, k);
  }

  lemma FindInHalves(a: Table, b: Table, k: string)
    requires DistinctLines(a + b)
    ensures Find(a + b, k) == if Find(a, k).Some? then Find(a, k) else Find(b, k)
    ensures !(Find(a, k).Some? && Find(b, k).Some?)
  {
    var all := a + b;
    if i :| 0 <= i < |a| && a[i].key == k {
      assert all[i] == a[i];
      FindLine(all, i);
      assert DistinctLines(a) by {
        forall p, q | 0 <= p < q < |a| ensures a[p].key != a[q].key {
          assert all[p] == a[p] && all[q] == a[q];
        }
      }
      FindLine(a, i);
      forall j | 0 <= j < |b| ensures b[j].key != k {
        assert all[|a| + j] == b[j];
      }
    } else if j :| 0 <= j < |b| && b[j].key == k {
      assert all[|a| + j] == b[j];
      FindLine(all, |a| + j);
      assert DistinctLines(b) by {
        forall p, q | 0 <= p < q < |b| ensures b[p].key != b[q].key {
          assert all[|a| + p] == b[p] && all[|a| + q] == b[q];
        }
      }
      FindLine(b, j);
    } else {
      forall i | 0 <= i < |all| ensures all[i].key != k {
        if i >= |a| {
          assert all[i] == b[i - |a|];
        }
      }
    }
  }

  // ---------- conflict checks ----------

  /** Equal sequence, different digest. */
  predicate Clash(stored: KeyState, incoming: KeyState)
  {
    stored.sequence == incoming.sequence && stored.digest != incoming.digest
  }

  ghost predicate HasClash(existing: States, incoming: States)
  {
    exists k :: k in incoming && k in existing && Clash(existing[k], incoming[k])
  }

  /** The key is stored, not behind, and equal in digest when level. */
  predicate ReconciledKey(stored: States, k: string, incoming: KeyState)
  {
    && k in stored
    && (stored[k].sequence > incoming.sequence || stored[k] == incoming)
  }

  ghost predicate Reconciled(stored: States, incoming: States)
  {
    forall k :: k in incoming ==> ReconciledKey(stored, k, incoming[k])
  }

  /** `detect_same_sequence_conflicts`: true when the source raises. */
  method DetectSameSequenceConflicts(existing: States, incoming: States) returns (conflict: bool)
    ensures conflict <==> HasClash(existing, incoming)
  {
    var todo := incoming.Keys;
    while todo != {}
      invariant todo <= incoming.Keys
      invariant forall k :: k in incoming && k !in todo && k in existing ==> !Clash(existing[k], incoming[k])
      decreases |todo|
    {
      var k :| k in todo;
      if k in existing && Clash(existing[k], incoming[k]) {
        return true;
      }
      todo := todo - {k};
    }
    return false;
  }

  /** `verify_reconciled_states`: true when the source returns normally. */
  method VerifyReconciledStates(stored: States, incoming: States) returns (ok: bool)
    ensures ok <==> Reconciled(stored, incoming)
  {
    var todo := incoming.Keys;
    while todo != {}
      invariant todo <= incoming.Keys
      invariant forall k :: k in incoming && k !in todo ==> ReconciledKey(stored, k, incoming[k])
      decreases |todo|
    {
      var k :| k in todo;
      if k !in stored {
        return false;
      }
      if stored[k].sequence < incoming[k].sequence {
        return false;
      }
      if stored[k].sequence == incoming[k].sequence && stored[k].digest != incoming[k].digest {
        return false;
      }
      todo := todo - {k};
    }
    return true;
  }

  // ---------- concurrent workers ----------

  /** Where one call of `replay_safe_merge` stands. `Merged` awaits the post-write verification. */
  datatype Phase = Start | Preflighted | Merged | Done | Conflict | Failed | Crashed

  datatype Worker = Worker(table: Table, attempts: nat, phase: Phase)

  /** `log` is the history of committed merges, one per Lance version. */
  datatype System = System(rows: Dataset, log: seq<Table>, workers: seq<Worker>)

  /** One atomic step of the whole system. */
  datatype Step =
    | Spawn(table: Table)
    | Preflight(worker: nat, looksRetryable: bool)
    | Commit(worker: nat)
    | CommitError(worker: nat, landed: bool, retryable: bool)
    | Verify(worker: nat)
    | Crash(worker: nat)

  predicate Enabled(s: System, step: Step)
  {
    match step
    case Spawn(_) => true
    case Preflight(i, _) => i < |s.workers| && s.workers[i].phase == Start
    case Commit(i) => i < |s.workers| && s.workers[i].phase == Preflighted
    case CommitError(i, _, _) => i < |s.workers| && s.workers[i].phase == Preflighted
    case Verify(i) => i < |s.workers| && s.workers[i].phase == Merged
    case Crash(i) => i < |s.workers| && s.workers[i].phase in {Start, Preflighted, Merged}
  }

  function Goto(s: System, i: nat, phase: Phase): System
    requires i < |s.workers|
  {
    s.(workers := s.workers[i := s.workers[i].(phase := phase)])
  }

  function Land(s: System, table: Table): System
  {
    s.(rows := MergeInsert(s.rows, table), log := s.log + [table])
  }

  ghost function Next(s: System, step: Step, retries: nat): System
    requires Enabled(s, step)
  {
    match step
    case Spawn(table) =>
      // validation and the duplicate-key check run before the dataset is touched
      var phase := if !ValidTable(table) then Failed else if DistinctLines(table) then Start else Conflict;
      s.(workers := s.workers + [Worker(table, 0, phase)])
    case Preflight(i, looksRetryable) =>
      var table := s.workers[i].table;
      var existing, incoming := Stored(s.rows, TableKeys(table)), Incoming(table);
      if HasClash(existing, incoming) then
        // the conflict names the key, and a key may spell a retry marker
        if looksRetryable && s.workers[i].attempts < retries
        then s.(workers := s.workers[i := Worker(table, s.workers[i].attempts + 1, Start)])
        else Goto(s, i, Conflict)
      else if !RequiresMerge(existing, incoming) then Goto(s, i, Merged)
      else Goto(s, i, Preflighted)
    case Commit(i) => Goto(Land(s, s.workers[i].table), i, Merged)
    case CommitError(i, landed, retryable) =>
      var t := if landed then Land(s, s.workers[i].table) else s;
      if retryable && s.workers[i].attempts < retries
      then t.(workers := t.workers[i := Worker(s.workers[i].table, s.workers[i].attempts + 1, Start)])
      else Goto(t, i, Failed)
    case Verify(i) =>
      var table := s.workers[i].table;
      if Reconciled(Stored(s.rows, TableKeys(table)), Incoming(table)) then Goto(s, i, Done) else Goto(s, i, Conflict)
    case Crash(i) => Goto(s, i, Crashed)
  }

  ghost predicate ValidRun(s: System, run: seq<Step>, retries: nat)
    decreases |run|
  {
    run == [] || (Enabled(s, run[0]) && ValidRun(Next(s, run[0], retries), run[1..], retries))
  }

  ghost function After(s: System, run: seq<Step>, retries: nat): System
    requires ValidRun(s, run, retries)
    decreases |run|
  {
    if run == [] then s else After(Next(s, run[0], retries), run[1..], retries)
  }

  /** Every table spawned in the run carries only lines of the universe `lines`. */
  ghost predicate DrawnFrom(run: seq<Step>, lines: iset<Line>)
  {
    forall n :: 0 <= n < |run| && run[n].Spawn? ==> forall i :: 0 <= i < |run[n].table| ==> run[n].table[i] in lines
  }

  /** The strongest thing a finished worker can rely on, and which later merges keep. */
  ghost predicate Settled(rows: Dataset, line: Line)
  {
    && line.key in rows
    && (rows[line.key].sequence > line.row.sequence || StateOf(rows[line.key]) == StateOf(line.row))
  }

  ghost predicate WorkerInv(rows: Dataset, w: Worker, lines: iset<Line>)
  {
    && (forall i :: 0 <= i < |w.table| ==> w.table[i] in lines)
    && (w.phase in {Start, Preflighted, Merged, Done} ==> DistinctLines(w.table))
    && (w.phase == Merged ==> Covered(rows, w.table))
    && (w.phase == Done ==> forall i :: 0 <= i < |w.table| ==> Settled(rows, w.table[i]))
  }

  ghost predicate RowsInv(rows: Dataset, lines: iset<Line>)
  {
    forall k :: k in rows ==> Line(k, rows[k]) in lines
  }

  /** Whatever was committed once is never behind again. */
  ghost predicate LogInv(rows: Dataset, log: seq<Table>)
  {
    forall n :: 0 <= n < |log| ==> Covered(rows, log[n])
  }

  ghost predicate Inv(s: System, lines: iset<Line>)
  {
    && RowsInv(s.rows, lines)
    && LogInv(s.rows, s.log)
    && forall i :: 0 <= i < |s.workers| ==> WorkerInv(s.rows, s.workers[i], lines)
  }

  lemma WorkerInvMonotone(before: Dataset, after: Dataset, w: Worker, lines: iset<Line>)
    requires Advances(before, after) && WorkerInv(before, w, lines)
    ensures WorkerInv(after, w, lines)
  {
  }

  lemma LandKeepsRows(rows: Dataset, table: Table, lines: iset<Line>)
    requires RowsInv(rows, lines) && forall i :: 0 <= i < |table| ==> table[i] in lines
    ensures RowsInv(MergeInsert(rows, table), lines)
  {
    var m := MergeInsert(rows, table);
    forall k | k in m ensures Line(k, m[k]) in lines {
      if Find(table, k).Some? && Wins(rows, k, Find(table, k).value) {
        assert Line(k, m[k]) in table;
      }
    }
  }

  lemma LogInvMonotone(before: Dataset, after: Dataset, log: seq<Table>)
    requires Advances(before, after) && LogInv(before, log)
    ensures LogInv(after, log)
  {
  }

  lemma LandKeepsLog(rows: Dataset, log: seq<Table>, table: Table)
    requires LogInv(rows, log) && DistinctLines(table)
    ensures LogInv(MergeInsert(rows, table), log + [table])
  {
    MergeAdvances(rows, table);
    MergeCovers(rows, table);
    hide MergeInsert;
    LogInvMonotone(rows, MergeInsert(rows, table), log);
  }

  /** Changing the rows forward and one worker to a good state keeps the invariant. */
  lemma InvUpdate(s: System, rows: Dataset, log: seq<Table>, i: nat, w: Worker, lines: iset<Line>)
    requires Inv(s, lines) && i < |s.workers|
    requires Advances(s.rows, rows) && RowsInv(rows, lines) && LogInv(rows, log) && WorkerInv(rows, w, lines)
    ensures Inv(System(rows, log, s.workers[i := w]), lines)
  {
    hide WorkerInv, RowsInv, LogInv, Advances;
    var workers := s.workers[i := w];
    forall j | 0 <= j < |workers| ensures WorkerInv(rows, workers[j], lines) {
      if j != i {
        WorkerInvMonotone(s.rows, rows, s.workers[j], lines);
      }
    }
  }

  lemma NoClashNoMergeMeansCovered(rows: Dataset, table: Table)
    requires DistinctLines(table)
    requires !RequiresMerge(Stored(rows, TableKeys(table)), Incoming(table))
    ensures Covered(rows, table)
  {
    forall i | 0 <= i < |table|
      ensures table[i].key in rows && rows[table[i].key].sequence >= table[i].row.sequence
    {
      FindLine(table, i);
      assert table[i].key in Incoming(table);
    }
  }

  lemma ReconciledMeansSettled(rows: Dataset, table: Table)
    requires DistinctLines(table)
    ensures Reconciled(Stored(rows, TableKeys(table)), Incoming(table)) <==>
            forall i :: 0 <= i < |table| ==> Settled(rows, table[i])
  {
    var stored, incoming := Stored(rows, TableKeys(table)), Incoming(table);
    forall i | 0 <= i < |table|
      ensures table[i].key in incoming
      ensures (Settled(rows, table[i]) <==> ReconciledKey(stored, table[i].key, incoming[table[i].key]))
    {
      FindLine(table, i);
      assert table[i].key in TableKeys(table);
    }
    forall k | k in incoming ensures exists i :: 0 <= i < |table| && table[i].key == k {
    }
  }

  lemma StepKeepsInv(s: System, step: Step, retries: nat, lines: iset<Line>)
    requires Inv(s, lines) && Enabled(s, step)
    requires step.Spawn? ==> forall i :: 0 <= i < |step.table| ==> step.table[i] in lines
    ensures Inv(Next(s, step, retries), lines)
    ensures Advances(s.rows, Next(s, step, retries).rows)
  {
    hide MergeInsert, Incoming, Stored, RequiresMerge, Reconciled, HasClash;
    match step
    case Spawn(table) =>
    case Preflight(i, _) =>
      var w := s.workers[i];
      if !RequiresMerge(Stored(s.rows, TableKeys(w.table)), Incoming(w.table)) {
        NoClashNoMergeMeansCovered(s.rows, w.table);
      }
      InvUpdate(s, s.rows, s.log, i, Next(s, step, retries).workers[i], lines);
    case Commit(i) =>
      var w := s.workers[i];
      MergeAdvances(s.rows, w.table);
      MergeCovers(s.rows, w.table);
      LandKeepsRows(s.rows, w.table, lines);
      LandKeepsLog(s.rows, s.log, w.table);
      InvUpdate(s, MergeInsert(s.rows, w.table), s.log + [w.table], i, w.(phase := Merged), lines);
    case CommitError(i, landed, retryable) =>
      var w := s.workers[i];
      MergeAdvances(s.rows, w.table);
      LandKeepsRows(s.rows, w.table, lines);
      LandKeepsLog(s.rows, s.log, w.table);
      var t := Next(s, step, retries);
      InvUpdate(s, t.rows, t.log, i, t.workers[i], lines);
    case Verify(i) =>
      ReconciledMeansSettled(s.rows, s.workers[i].table);
      InvUpdate(s, s.rows, s.log, i, Next(s, step, retries).workers[i], lines);
    case Crash(i) =>
      InvUpdate(s, s.rows, s.log, i, s.workers[i].(phase := Crashed), lines);
  }

  lemma AdvancesTransitive(a: Dataset, b: Dataset, c: Dataset)
    requires Advances(a, b) && Advances(b, c)
    ensures Advances(a, c)
  {
  }

  /** Over every run, whatever the interleaving: stored rows come from the tables, never regress, and
      every finished worker's lines stay settled. */
  lemma {:induction false} RunKeepsInv(s: System, run: seq<Step>, retries: nat, lines: iset<Line>)
    requires Inv(s, lines) && ValidRun(s, run, retries) && DrawnFrom(run, lines)
    ensures Inv(After(s, run, retries), lines)
    ensures Advances(s.rows, After(s, run, retries).rows)
    decreases |run|
  {
    hide Inv, Advances, Next;
    if run == [] {
      assert Advances(s.rows, s.rows) by { SelfAdvances(s.rows); }
    } else {
      StepKeepsInv(s, run[0], retries, lines);
      var t := Next(s, run[0], retries);
      RunKeepsInv(t, run[1..], retries, lines);
      AdvancesTransitive(s.rows, t.rows, After(s, run, retries).rows);
    }
  }

  lemma SelfAdvances(rows: Dataset)
    ensures Advances(rows, rows)
  {
  }
}
