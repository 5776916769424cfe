/** What every interleaved run of replay-safe merges guarantees. */
module Convergence {
  import opened ReplaySink
  import opened ReplayProgress
  import opened Wrappers

  // ---------- conflicts ----------

  /** One key and source sequence always carry one digest. */
  ghost predicate Coherent(lines: iset<Line>)
  {
    forall a, b :: a in lines && b in lines && a.key == b.key && a.row.sequence == b.row.sequence ==>
      a.row.digest == b.row.digest
  }

  /** `expected_key_states` rejects the table: it is well formed but repeats a key. */
  predicate RepeatsKey(table: Table)
  {
    ValidTable(table) && !DistinctLines(table)
  }

  /** The workers in conflict are exactly those whose own table repeats a key. */
  ghost predicate Quiet(s: System)
  {
    forall i :: 0 <= i < |s.workers| ==> (s.workers[i].phase == Conflict <==> RepeatsKey(s.workers[i].table))
  }

  lemma CoherentNeverClashes(rows: Dataset, table: Table, lines: iset<Line>)
    requires Coherent(lines) && RowsInv(rows, lines) && forall i :: 0 <= i < |table| ==> table[i] in lines
    ensures !HasClash(Stored(rows, TableKeys(table)), Incoming(table))
  {
    var stored, incoming := Stored(rows, TableKeys(table)), Incoming(table);
    forall k | k in incoming && k in stored ensures !Clash(stored[k], incoming[k]) {
      assert Line(k, Find(table, k).value) in table;
      assert Line(k, rows[k]) in lines;
    }
  }

  lemma CoveredAndCoherentSettles(rows: Dataset, table: Table, lines: iset<Line>)
    requires Coherent(lines) && RowsInv(rows, lines) && forall i :: 0 <= i < |table| ==> table[i] in lines
    requires Covered(rows, table)
    ensures forall i :: 0 <= i < |table| ==> Settled(rows, table[i])
  {
    forall i | 0 <= i < |table| ensures Settled(rows, table[i]) {
      assert Line(table[i].key, rows[table[i].key]) in lines;
    }
  }

  lemma StepStaysQuiet(s: System, step: Step, retries: nat, lines: iset<Line>)
    requires Inv(s, lines) && Quiet(s) && Coherent(lines) && Enabled(s, step)
    ensures Quiet(Next(s, step, retries))
  {
    hide MergeInsert, Incoming, Stored, RequiresMerge, Reconciled, HasClash, Coherent, Settled;
    match step
    case Preflight(i, _) =>
      CoherentNeverClashes(s.rows, s.workers[i].table, lines);
    case Verify(i) =>
      assert WorkerInv(s.rows, s.workers[i], lines);
      CoveredAndCoherentSettles(s.rows, s.workers[i].table, lines);
      ReconciledMeansSettled(s.rows, s.workers[i].table);
    case _ =>
  }

  /** Soundness: when key and sequence determine the digest, a merge raises a conflict if and only if
      its own table repeats a key, however stale its preflight was and whatever others did meanwhile. */
  lemma {:induction false} NoFalseConflicts(s: System, run: seq<Step>, retries: nat, lines: iset<Line>)
    requires Inv(s, lines) && Quiet(s) && Coherent(lines)
    requires ValidRun(s, run, retries) && DrawnFrom(run, lines)
    ensures Quiet(After(s, run, retries))
    decreases |run|
  {
    hide Inv, Quiet, Coherent, Next;
    if run != [] {
      StepStaysQuiet(s, run[0], retries, lines);
      StepKeepsInv(s, run[0], retries, lines);
      NoFalseConflicts(Next(s, run[0], retries), run[1..], retries, lines);
    }
  }

  predicate HasRaised(s: System, i: nat)
  {
    i < |s.workers| && s.workers[i].phase == Conflict
  }

  /** A repeated key raises even when its lines are identical. */
  lemma RepeatedKeyRaises(line: Line, retries: nat)
    requires !BadLine(line)
    ensures var run := [Spawn([line, line])];
            && Coherent(iset{line}) && DrawnFrom(run, iset{line}) && ValidRun(NOBODY, run, retries)
            && HasRaised(After(NOBODY, run, retries), 0)
  {
    var table := [line, line];
    AcceptedColumns(table);
    assert [line][0] == line && table[0].key == table[1].key;
    assert RepeatsKey(table);
    assert [Spawn(table)][1..] == [];
  }

  const NOBODY := System(map[], [], [])

  /** The table with one line. */
  lemma OneLine(line: Line, rows: Dataset)
    ensures DistinctLines([line]) && TableKeys([line]) == {line.key}
    ensures Incoming([line]) == map[line.key := StateOf(line.row)]
    ensures line.key !in rows ==> MergeInsert(rows, [line]) == rows[line.key := line.row]
  {
    var table := [line];
    assert table[0] == line;
    FindLine(table, 0);
    assert TableKeys(table) == {line.key};
    forall k ensures Find(table, k) == if k == line.key then Some(line.row) else None {
    }
  }

  /** A merge of `a` into an empty dataset, and then the preflight of `b`. */
  function Racing(a: Line, b: Line): seq<Step>
  {
    [Spawn([a]), Preflight(0, false), Commit(0), Spawn([b]), Preflight(1, false)]
  }

  lemma RacingCommits(a: Line, retries: nat)
    requires ValidTable([a])
    ensures var s1 := Next(NOBODY, Spawn([a]), retries);
            && Enabled(s1, Preflight(0, false))
            && var s2 := Next(s1, Preflight(0, false), retries);
               && Enabled(s2, Commit(0))
               && Next(s2, Commit(0), retries) == System(map[a.key := a.row], [[a]], [Worker([a], 0, Merged)])
  {
    OneLine(a, map[]);
    hide MergeInsert, DistinctLines, ValidTable, Incoming;
    var s1 := Next(NOBODY, Spawn([a]), retries);
    assert s1.workers == [Worker([a], 0, Start)];
    assert a.key in Incoming([a]) && a.key !in Stored(map[], TableKeys([a]));
    var s2 := Next(s1, Preflight(0, false), retries);
    assert s2.workers == [Worker([a], 0, Preflighted)];
    assert [] + [[a]] == [[a]];
  }

  lemma RacingClashes(a: Line, b: Line, retries: nat)
    requires ValidTable([b]) && a.key == b.key && Clash(StateOf(a.row), StateOf(b.row))
    ensures var s3 := System(map[a.key := a.row], [[a]], [Worker([a], 0, Merged)]);
            var s4 := Next(s3, Spawn([b]), retries);
            && Enabled(s4, Preflight(1, false))
            && Next(s4, Preflight(1, false), retries).workers[1] == Worker([b], 0, Conflict)
  {
    var s3 := System(map[a.key := a.row], [[a]], [Worker([a], 0, Merged)]);
    OneLine(b, s3.rows);
    hide MergeInsert, DistinctLines, ValidTable, Incoming;
    var s4 := Next(s3, Spawn([b]), retries);
    assert s4.workers == [Worker([a], 0, Merged), Worker([b], 0, Start)];
    var existing, incoming := Stored(s4.rows, TableKeys([b])), Incoming([b]);
    assert b.key in incoming && b.key in existing && Clash(existing[b.key], incoming[b.key]);
  }

  lemma RacingRaises(a: Line, b: Line, retries: nat)
    requires ValidTable([a]) && ValidTable([b]) && a.key == b.key && Clash(StateOf(a.row), StateOf(b.row))
    ensures ValidRun(NOBODY, Racing(a, b), retries) && DrawnFrom(Racing(a, b), iset{a, b})
    ensures HasRaised(After(NOBODY, Racing(a, b), retries), 1) && DistinctLines([b])
  {
    RacingCommits(a, retries);
    RacingClashes(a, b, retries);
    OneLine(b, map[]);
    hide Next, Enabled, DistinctLines, ValidTable;
    assert Enabled(NOBODY, Spawn([a])) by { SpawnEnabled(NOBODY, [a]); }
    var s3 := System(map[a.key := a.row], [[a]], [Worker([a], 0, Merged)]);
    assert Enabled(s3, Spawn([b])) by { SpawnEnabled(s3, [b]); }
    var run := Racing(a, b);
    var r1, r2, r3, r4 := run[1..], run[2..], run[3..], run[4..];
    assert r1[1..] == r2 && r2[1..] == r3 && r3[1..] == r4 && r4[1..] == [];
    var s4 := Next(s3, Spawn([b]), retries);
    var s5 := Next(s4, Preflight(1, false), retries);
    assert ValidRun(s5, [], retries) && After(s5, [], retries) == s5;
    assert ValidRun(s4, r4, retries) && After(s4, r4, retries) == s5;
    assert ValidRun(s3, r3, retries) && After(s3, r3, retries) == s5;
    var s1 := Next(NOBODY, Spawn([a]), retries);
    var s2 := Next(s1, Preflight(0, false), retries);
    assert ValidRun(s2, r2, retries) && After(s2, r2, retries) == s5;
    assert ValidRun(s1, r1, retries) && After(s1, r1, retries) == s5;
  }

  /** The hypothesis is exact: two lines that break it can be merged so that the second one raises. */
  lemma IncoherentLinesRaise(a: Line, b: Line, retries: nat)
    requires !BadLine(a) && !BadLine(b)
    requires a.key == b.key && a.row.sequence == b.row.sequence && a.row.digest != b.row.digest
    ensures ValidRun(NOBODY, Racing(a, b), retries) && DrawnFrom(Racing(a, b), iset{a, b})
    ensures HasRaised(After(NOBODY, Racing(a, b), retries), 1) && !RepeatsKey([b])
  {
    hide ValidRun, DrawnFrom, After, DistinctLines, Racing, BadLine;
    AcceptedColumns([a]);
    AcceptedColumns([b]);
    RacingRaises(a, b, retries);
  }

  lemma SpawnEnabled(s: System, table: Table)
    ensures Enabled(s, Spawn(table))
  {
  }

  /** Completeness: two merges that disagree at one key and sequence can both have succeeded only
      once a higher sequence is stored for that key. */
  lemma DisagreementIsNeverSilent(
    s: System, run: seq<Step>, retries: nat, lines: iset<Line>, i: nat, j: nat, p: nat, q: nat)
    requires Inv(s, lines) && ValidRun(s, run, retries) && DrawnFrom(run, lines)
    requires var t := After(s, run, retries);
             && i < |t.workers| && j < |t.workers| && t.workers[i].phase == t.workers[j].phase == Done
             && p < |t.workers[i].table| && q < |t.workers[j].table|
             && t.workers[i].table[p].key == t.workers[j].table[q].key
             && t.workers[i].table[p].row.sequence == t.workers[j].table[q].row.sequence
             && t.workers[i].table[p].row.digest != t.workers[j].table[q].row.digest
    ensures var t := After(s, run, retries);
            var line := t.workers[i].table[p];
            line.key in t.rows && t.rows[line.key].sequence > line.row.sequence
  {
    hide After, ValidRun, DrawnFrom, RowsInv, LogInv;
    RunKeepsInv(s, run, retries, lines);
    var t := After(s, run, retries);
    assert WorkerInv(t.rows, t.workers[i], lines) && WorkerInv(t.rows, t.workers[j], lines);
    assert Settled(t.rows, t.workers[i].table[p]) && Settled(t.rows, t.workers[j].table[q]);
  }

  // ---------- the in-order oracle ----------

  /** One snapshot written over the state before it, without looking at sequences. */
  function Overwrite(rows: Dataset, snapshot: Table): Dataset
  {
    map k | k in rows.Keys + TableKeys(snapshot) ::
      if Find(snapshot, k).Some? then Find(snapshot, k).value else rows[k]
  }

  /** `replay_state`: apply every snapshot in order, the last writer of a key wins. */
  function Oracle(snapshots: seq<Table>): Dataset
  {
    if snapshots == [] then map[]
    else Overwrite(Oracle(snapshots[..|snapshots| - 1]), snapshots[|snapshots| - 1])
  }

  /** Collapsed snapshots: one line per key, all lines of a snapshot at its own source sequence, and
      source sequences growing with the snapshot. */
  ghost predicate Sequenced(snapshots: seq<Table>, sequences: seq<int>)
  {
    && |sequences| == |snapshots|
    && (forall n :: 0 <= n < |snapshots| ==> DistinctLines(snapshots[n]))
    && (forall n, i :: 0 <= n < |snapshots| && 0 <= i < |snapshots[n]| ==> snapshots[n][i].row.sequence == sequences[n])
    && forall m, n :: 0 <= m < n < |snapshots| ==> sequences[m] < sequences[n]
  }

  ghost function Lines(snapshots: seq<Table>): iset<Line>
  {
    iset n, i | 0 <= n < |snapshots| && 0 <= i < |snapshots[n]| :: snapshots[n][i]
  }

  /** The last snapshot that mentions a key, if any. */
  ghost predicate LastAt(snapshots: seq<Table>, k: string, n: nat, row: Row)
  {
    && n < |snapshots|
    && Find(snapshots[n], k) == Some(row)
    && forall m :: n < m < |snapshots| ==> Find(snapshots[m], k).None?
  }

  lemma {:induction false} OracleIsLastWriter(snapshots: seq<Table>, k: string)
    ensures k in Oracle(snapshots) ==> exists n :: LastAt(snapshots, k, n, Oracle(snapshots)[k])
    ensures k !in Oracle(snapshots) ==> forall n :: 0 <= n < |snapshots| ==> Find(snapshots[n], k).None?
    decreases |snapshots|
  {
    hide Find, TableKeys;
    if snapshots != [] {
      var last := |snapshots| - 1;
      var front := snapshots[..last];
      OracleIsLastWriter(front, k);
      InTable(snapshots[last], k);
      if Find(snapshots[last], k).Some? {
        assert LastAt(snapshots, k, last, Oracle(snapshots)[k]);
      } else if k in Oracle(front) {
        var n :| LastAt(front, k, n, Oracle(front)[k]);
        assert LastAt(snapshots, k, n, Oracle(snapshots)[k]);
      }
    }
  }

  lemma InTable(table: Table, k: string)
    ensures k in TableKeys(table) <==> Find(table, k).Some?
  {
  }

  /** Every line of every snapshot sits in a committed merge or in a merge that finished. */
  ghost predicate Delivered(s: System, snapshots: seq<Table>)
  {
    forall n, i :: 0 <= n < |snapshots| && 0 <= i < |snapshots[n]| ==> HasDelivered(s, snapshots[n][i])
  }

  ghost predicate HasDelivered(s: System, line: Line)
  {
    || (exists n :: 0 <= n < |s.log| && line in s.log[n])
    || (exists i :: 0 <= i < |s.workers| && s.workers[i].phase == Done && line in s.workers[i].table)
  }

  lemma DeliveredNotBehind(s: System, lines: iset<Line>, line: Line)
    requires Inv(s, lines) && HasDelivered(s, line)
    ensures line.key in s.rows && s.rows[line.key].sequence >= line.row.sequence
  {
    if n :| 0 <= n < |s.log| && line in s.log[n] {
      assert Covered(s.rows, s.log[n]);
    } else {
      var i :| 0 <= i < |s.workers| && s.workers[i].phase == Done && line in s.workers[i].table;
      assert WorkerInv(s.rows, s.workers[i], lines);
      var p :| 0 <= p < |s.workers[i].table| && s.workers[i].table[p] == line;
      assert Settled(s.rows, s.workers[i].table[p]);
    }
  }

  /** A state that holds only snapshot lines and is behind none of them is the oracle's state. */
  lemma CaughtUpIsOracle(s: System, snapshots: seq<Table>, sequences: seq<int>)
    requires Sequenced(snapshots, sequences) && Inv(s, Lines(snapshots)) && Delivered(s, snapshots)
    ensures s.rows == Oracle(snapshots)
  {
    forall k: string ensures Get(s.rows, k) == Get(Oracle(snapshots), k) {
      OracleIsLastWriter(snapshots, k);
      assert k in s.rows ==> Line(k, s.rows[k]) in Lines(snapshots);
      if k in Oracle(snapshots) {
        var n :| LastAt(snapshots, k, n, Oracle(snapshots)[k]);
        LastWriterIsStored(s, snapshots, sequences, k, n, Oracle(snapshots)[k]);
      }
    }
    SameGets(s.rows, Oracle(snapshots));
  }

  lemma LastWriterIsStored(
    s: System, snapshots: seq<Table>, sequences: seq<int>, k: string, n: nat, row: Row)
    requires Sequenced(snapshots, sequences) && Inv(s, Lines(snapshots)) && Delivered(s, snapshots)
    requires LastAt(snapshots, k, n, row)
    ensures k in s.rows && s.rows[k] == row
  {
    var line := Line(k, row);
    var i :| 0 <= i < |snapshots[n]| && snapshots[n][i] == line;
    assert HasDelivered(s, snapshots[n][i]);
    DeliveredNotBehind(s, Lines(snapshots), line);
    var stored := Line(k, s.rows[k]);
    assert stored in Lines(snapshots);
    var m, j :| 0 <= m < |snapshots| && 0 <= j < |snapshots[m]| && snapshots[m][j] == stored;
    FindLine(snapshots[m], j);
    assert m <= n;
    assert stored.row.sequence == sequences[m] && row.sequence == sequences[n];
    assert m == n;
    FindLine(snapshots[n], j);
  }

  /** Convergence. Start from any dataset holding only lines of these snapshots. However merges are
      chunked, reordered, repeated, retried, reported ambiguously or abandoned, once every terminal
      mutation has been committed or acknowledged the dataset is the in-order replay, tombstones
      and payloads included. */
  lemma RunsConverge(
    s: System, run: seq<Step>, retries: nat, snapshots: seq<Table>, sequences: seq<int>)
    requires Sequenced(snapshots, sequences)
    requires Inv(s, Lines(snapshots)) && ValidRun(s, run, retries) && DrawnFrom(run, Lines(snapshots))
    requires Delivered(After(s, run, retries), snapshots)
    ensures After(s, run, retries).rows == Oracle(snapshots)
  {
    hide Inv, Delivered, Sequenced, Lines, DrawnFrom, ValidRun, After;
    RunKeepsInv(s, run, retries, Lines(snapshots));
    CaughtUpIsOracle(After(s, run, retries), snapshots, sequences);
  }

  /** A new dataset with no workers is a good place to start. */
  lemma EmptyStart(lines: iset<Line>)
    ensures Inv(System(map[], [], []), lines) && Quiet(System(map[], [], []))
  {
  }

  // ---------- delivery is possible ----------

  /** Every snapshot was merged by its own worker, in order. */
  ghost predicate MergedInOrder(s: System, snapshots: seq<Table>)
  {
    |s.workers| == |snapshots| && forall n :: 0 <= n < |snapshots| ==> s.workers[n] == Worker(snapshots[n], 0, Done)
  }

  lemma SequencedFront(snapshots: seq<Table>, sequences: seq<int>)
    requires Sequenced(snapshots, sequences) && snapshots != []
    ensures |sequences| == |snapshots| && Sequenced(snapshots[..|snapshots| - 1], sequences[..|snapshots| - 1])
  {
  }

  /** Rows of earlier snapshots are never level with the next one. */
  lemma EarlierNeverLevel(rows: Dataset, snapshots: seq<Table>, sequences: seq<int>)
    requires Sequenced(snapshots, sequences) && snapshots != []
    requires RowsInv(rows, Lines(snapshots[..|snapshots| - 1]))
    ensures LevelAgrees(rows, snapshots[|snapshots| - 1])
  {
    var n := |snapshots| - 1;
    var front, last := snapshots[..n], snapshots[n];
    forall i | 0 <= i < |last| && last[i].key in rows ensures rows[last[i].key].sequence < last[i].row.sequence {
      var k := last[i].key;
      assert Line(k, rows[k]) in Lines(front);
      var m, j :| 0 <= m < |front| && 0 <= j < |front[m]| && front[m][j] == Line(k, rows[k]);
      assert snapshots[m][j].row.sequence == sequences[m] && last[i].row.sequence == sequences[n];
    }
  }

  lemma UndisturbedDraws(s: System, table: Table, lines: iset<Line>)
    requires forall line :: line in table ==> line in lines
    ensures DrawnFrom(UndisturbedRun(s, table), lines)
  {
    hide MergeInsert;
  }

  lemma DrawnMore(a: seq<Step>, b: seq<Step>, fewer: iset<Line>, lines: iset<Line>)
    requires DrawnFrom(a, fewer) && fewer <= lines && DrawnFrom(b, lines)
    ensures DrawnFrom(a + b, lines)
  {
    var run := a + b;
    forall n | 0 <= n < |run| && run[n].Spawn?
      ensures forall i :: 0 <= i < |run[n].table| ==> run[n].table[i] in lines
    {
      assert run[n] == if n < |a| then a[n] else b[n - |a|];
    }
  }

  lemma LinesGrow(snapshots: seq<Table>)
    requires snapshots != []
    ensures Lines(snapshots[..|snapshots| - 1]) <= Lines(snapshots)
    ensures forall line :: line in snapshots[|snapshots| - 1] ==> line in Lines(snapshots)
  {
    var front := snapshots[..|snapshots| - 1];
    forall line | line in Lines(front) ensures line in Lines(snapshots) {
      var m, j :| 0 <= m < |front| && 0 <= j < |front[m]| && front[m][j] == line;
      assert snapshots[m][j] == line;
    }
  }

  lemma DeliverNext(s: System, snapshots: seq<Table>, sequences: seq<int>, retries: nat)
    requires Sequenced(snapshots, sequences) && snapshots != [] && NoBadLine(snapshots[|snapshots| - 1])
    requires RowsInv(s.rows, Lines(snapshots[..|snapshots| - 1]))
    ensures var last := snapshots[|snapshots| - 1];
            var run := UndisturbedRun(s, last);
            && ValidRun(s, run, retries) && DrawnFrom(run, Lines(snapshots))
            && After(s, run, retries).workers == s.workers + [Worker(last, 0, Done)]
  {
    var last := snapshots[|snapshots| - 1];
    assert DistinctLines(last);
    hide Sequenced, Lines, RowsInv, NoBadLine, UndisturbedRun, ValidRun, After, DrawnFrom, LevelAgrees, TakesIn;
    hide DistinctLines;
    EarlierNeverLevel(s.rows, snapshots, sequences);
    AcceptedColumns(last);
    UndisturbedCallSucceeds(s, last, retries);
    LinesGrow(snapshots);
    UndisturbedDraws(s, last, Lines(snapshots));
  }

  lemma InvRows(s: System, lines: iset<Line>)
    requires Inv(s, lines)
    ensures RowsInv(s.rows, lines)
  {
  }

  lemma MergedOneMore(s: System, t: System, snapshots: seq<Table>)
    requires snapshots != [] && MergedInOrder(s, snapshots[..|snapshots| - 1])
    requires t.workers == s.workers + [Worker(snapshots[|snapshots| - 1], 0, Done)]
    ensures MergedInOrder(t, snapshots)
  {
    var front := snapshots[..|snapshots| - 1];
    forall n | 0 <= n < |snapshots| ensures t.workers[n] == Worker(snapshots[n], 0, Done) {
      assert n < |front| ==> front[n] == snapshots[n] && s.workers[n] == Worker(front[n], 0, Done);
    }
  }

  /** Every list of well-formed snapshots can be delivered: merging them one after the other is a run
      after which each has its finished worker. */
  lemma {:induction false} DeliveryIsPossible(snapshots: seq<Table>, sequences: seq<int>, retries: nat)
    returns (run: seq<Step>)
    requires Sequenced(snapshots, sequences) && forall n :: 0 <= n < |snapshots| ==> NoBadLine(snapshots[n])
    ensures ValidRun(NOBODY, run, retries) && DrawnFrom(run, Lines(snapshots))
    ensures MergedInOrder(After(NOBODY, run, retries), snapshots)
    decreases |snapshots|
  {
    if snapshots == [] {
      run := [];
    } else {
      hide Lines, Sequenced, DrawnFrom, NoBadLine, UndisturbedRun, Inv, ValidRun, After, MergedInOrder, RowsInv;
      var n := |snapshots| - 1;
      var front := snapshots[..n];
      SequencedFront(snapshots, sequences);
      var begun := DeliveryIsPossible(front, sequences[..n], retries);
      var s := After(NOBODY, begun, retries);
      EmptyStart(Lines(front));
      RunKeepsInv(NOBODY, begun, retries, Lines(front));
      InvRows(s, Lines(front));
      DeliverNext(s, snapshots, sequences, retries);
      var rest := UndisturbedRun(s, snapshots[n]);
      LinesGrow(snapshots);
      DrawnMore(begun, rest, Lines(front), Lines(snapshots));
      RunsChain(NOBODY, begun, rest, retries);
      MergedOneMore(s, After(s, rest, retries), snapshots);
      run := begun + rest;
    }
  }

  /** So the replay is reached, not only approached: some run of the workers ends in it. */
  lemma ReplayIsReachable(snapshots: seq<Table>, sequences: seq<int>, retries: nat) returns (run: seq<Step>)
    requires Sequenced(snapshots, sequences) && forall n :: 0 <= n < |snapshots| ==> NoBadLine(snapshots[n])
    ensures ValidRun(NOBODY, run, retries) && DrawnFrom(run, Lines(snapshots))
    ensures Delivered(After(NOBODY, run, retries), snapshots)
    ensures After(NOBODY, run, retries).rows == Oracle(snapshots)
  {
    hide Lines, Sequenced, DrawnFrom, NoBadLine, Inv, ValidRun, After, MergedInOrder, Delivered, Oracle;
    run := DeliveryIsPossible(snapshots, sequences, retries);
    InOrderIsDelivered(After(NOBODY, run, retries), snapshots);
    EmptyStart(Lines(snapshots));
    RunsConverge(NOBODY, run, retries, snapshots, sequences);
  }

  lemma RunsChain(s: System, a: seq<Step>, b: seq<Step>, retries: nat)
    requires ValidRun(s, a, retries) && ValidRun(After(s, a, retries), b, retries)
    ensures ValidRun(s, a + b, retries) && After(s, a + b, retries) == After(After(s, a, retries), b, retries)
  {
    var t := After(s, a, retries);
    Chained(s, a, t, b, After(t, b, retries), retries);
  }

  lemma InOrderIsDelivered(s: System, snapshots: seq<Table>)
    requires MergedInOrder(s, snapshots)
    ensures Delivered(s, snapshots)
  {
    forall n, i | 0 <= n < |snapshots| && 0 <= i < |snapshots[n]| ensures HasDelivered(s, snapshots[n][i]) {
      assert s.workers[n].phase == Done && snapshots[n][i] in s.workers[n].table;
    }
  }
}
