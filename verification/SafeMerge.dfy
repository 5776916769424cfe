/** Chunking of a terminal table, and one call of `replay_safe_merge` among interfering merges. */
module SafeMerge {
  import opened ReplaySink
  import opened Lists
  import opened ReplayProgress
  import opened Wrappers

  // ---------- replay_table_chunks ----------

  /** The slice fits the byte budget, or it is a single row, which cannot be cut further. */
  predicate Fits(offset: nat, length: nat, maxBytes: int, nbytes: (nat, nat) -> nat)
  {
    nbytes(offset, length) <= maxBytes || length == 1
  }

  /** The slice is as long as the row limit allows, or ends the table, or the longest one was too big. */
  predicate IsFull(offset: nat, length: nat, rows: nat, maxRows: nat, maxBytes: int, nbytes: (nat, nat) -> nat)
  {
    || length == maxRows || offset + length == rows
    || (offset <= rows && nbytes(offset, if rows - offset < maxRows then rows - offset else maxRows) > maxBytes)
  }

  /** Slices of a table of `rows` rows: within the limits, and no shorter than they have to be. */
  ghost predicate GoodChunks(chunks: seq<Table>, rows: nat, maxRows: nat, maxBytes: int, nbytes: (nat, nat) -> nat)
  {
    forall n :: 0 <= n < |chunks| ==>
      && 1 <= |chunks[n]| <= maxRows
      && Fits(|Flatten(chunks[..n])|, |chunks[n]|, maxBytes, nbytes)
      && IsFull(|Flatten(chunks[..n])|, |chunks[n]|, rows, maxRows, maxBytes, nbytes)
  }

  /** Cut a table into slices. `nbytes(offset, length)` is the size PyArrow reports for a slice; it
      need not be additive or even monotone. */
  method ReplayTableChunks(table: Table, maxRows: int, maxBytes: int, nbytes: (nat, nat) -> nat)
    returns (r: Option<seq<Table>>)
    ensures r.None? <==> maxRows < 1 || maxBytes < 1
    ensures r.Some? ==> maxRows >= 1 && Flatten(r.value) == table
    ensures r.Some? ==> GoodChunks(r.value, |table|, maxRows, maxBytes, nbytes)
  {
    if maxRows < 1 || maxBytes < 1 {
      return None;
    }
    var chunks: seq<Table> := [];
    var offset := 0;
    while offset < |table|
      invariant 0 <= offset <= |table|
      invariant Flatten(chunks) == table[..offset]
      invariant GoodChunks(chunks, |table|, maxRows, maxBytes, nbytes)
      decreases |table| - offset
    {
      var length := if maxRows <= |table| - offset then maxRows else |table| - offset;
      while nbytes(offset, length) > maxBytes && length > 1
        invariant 1 <= length <= maxRows && offset + length <= |table|
        invariant IsFull(offset, length, |table|, maxRows, maxBytes, nbytes)
        decreases length
      {
        var scaled := length * maxBytes / nbytes(offset, length);
        scaled := if scaled < 1 then 1 else scaled;
        length := if length - 1 <= scaled then length - 1 else scaled;
      }
      var candidate := table[offset..offset + length];
      AppendChunk(chunks, candidate, |table|, maxRows, maxBytes, nbytes);
      chunks := chunks + [candidate];
      assert table[..offset] + candidate == table[..offset + length];
      offset := offset + length;
    }
    assert table[..offset] == table;
    r := Some(chunks);
  }

  lemma AppendChunk(
    chunks: seq<Table>, c: Table, rows: nat, maxRows: nat, maxBytes: int, nbytes: (nat, nat) -> nat)
    requires GoodChunks(chunks, rows, maxRows, maxBytes, nbytes)
    requires 1 <= |c| <= maxRows && Fits(|Flatten(chunks)|, |c|, maxBytes, nbytes)
    requires IsFull(|Flatten(chunks)|, |c|, rows, maxRows, maxBytes, nbytes)
    ensures GoodChunks(chunks + [c], rows, maxRows, maxBytes, nbytes)
    ensures Flatten(chunks + [c]) == Flatten(chunks) + c
  {
    hide Fits, IsFull;
    var all := chunks + [c];
    assert all[..|chunks|] == chunks;
    forall n | 0 <= n < |all|
      ensures 1 <= |all[n]| <= maxRows && Fits(|Flatten(all[..n])|, |all[n]|, maxBytes, nbytes)
      ensures IsFull(|Flatten(all[..n])|, |all[n]|, rows, maxRows, maxBytes, nbytes)
    {
      if n < |chunks| {
        assert all[..n] == chunks[..n];
      }
    }
  }

  function MergeAll(rows: Dataset, tables: seq<Table>): Dataset
  {
    if tables == [] then rows
    else MergeInsert(MergeAll(rows, tables[..|tables| - 1]), tables[|tables| - 1])
  }

  /** Merging the slices one after the other is merging the whole distinct-key table. */
  lemma {:induction false} ChunksMergeAsOne(rows: Dataset, chunks: seq<Table>)
    requires DistinctLines(Flatten(chunks))
    ensures MergeAll(rows, chunks) == MergeInsert(rows, Flatten(chunks))
    decreases |chunks|
  {
    if chunks == [] {
      assert MergeInsert(rows, []) == rows;
    } else {
      var front, last := chunks[..|chunks| - 1], chunks[|chunks| - 1];
      assert DistinctLines(Flatten(front)) by {
        forall i, j | 0 <= i < j < |Flatten(front)| ensures Flatten(front)[i].key != Flatten(front)[j].key {
          assert Flatten(chunks)[i] == Flatten(front)[i] && Flatten(chunks)[j] == Flatten(front)[j];
        }
      }
      ChunksMergeAsOne(rows, front);
      hide MergeInsert;
      MergeInPieces(rows, Flatten(front), last);
    }
  }

  /** No line is lost between slices. */
  lemma LineInSomeChunk(chunks: seq<Table>, line: Line) returns (n: nat)
    requires line in Flatten(chunks)
    ensures n < |chunks| && line in chunks[n]
  {
    n := Located(chunks, line);
  }

  // ---------- one call, with other workers in between ----------

  /** How one commit ends: cleanly, or with an error after landing or not. */
  datatype Fate = Commits | Errors(landed: bool, retryable: bool)

  /** What happens around one attempt: merges of other workers before the preflight read and
      between it and the commit. A clash is retried when the key it names spells a retry marker. */
  datatype Attempt = Attempt(before: seq<Table>, between: seq<Table>, clashRetried: bool, fate: Fate)

  datatype MergeResult =
    | Reconciled(rows: nat, tombstones: nat, version: nat)
    | InvalidTable
    | ReplayConflict
    | CommitFailed

  /** How one attempt ends: done or nothing to do, a digest clash, or another exception. */
  datatype AttemptEnd = Through | Clashed(retryable: bool) | Raised(retryable: bool)

  /** A merge some other worker committed during the call. */
  ghost predicate Environment(t: Table, script: seq<Attempt>, after: seq<Table>)
  {
    t in after || exists n :: 0 <= n < |script| && (t in script[n].before || t in script[n].between)
  }

  /** Nobody else merges around the attempt or before verification, and its commit goes through. */
  predicate Undisturbed(now: Attempt, after: seq<Table>)
  {
    now.before == [] && now.between == [] && now.fate.Commits? && after == []
  }

  function Tombstones(table: Table): nat
  {
    if table == [] then 0 else (if table[0].row.deleted then 1 else 0) + Tombstones(table[1..])
  }

  // ---------- the call as steps of the worker system ----------

  /** What happens next: another worker's merge lands, or this worker takes a step. */
  datatype Moment = Other(table: Table) | Own(step: Step)

  ghost predicate Playable(s: System, trace: seq<Moment>, retries: nat)
    decreases |trace|
  {
    trace == [] || (
      && (trace[0].Own? ==> Enabled(s, trace[0].step))
      && Playable(PlayOne(s, trace[0], retries), trace[1..], retries))
  }

  ghost function PlayOne(s: System, m: Moment, retries: nat): System
    requires m.Own? ==> Enabled(s, m.step)
  {
    match m
    case Other(table) => Land(s, table)
    case Own(step) => Next(s, step, retries)
  }

  ghost function Play(s: System, trace: seq<Moment>, retries: nat): System
    requires Playable(s, trace, retries)
    decreases |trace|
  {
    if trace == [] then s else Play(PlayOne(s, trace[0], retries), trace[1..], retries)
  }

  /** The trace is playable and leads from one state to the other. */
  ghost predicate Leads(s: System, trace: seq<Moment>, t: System, retries: nat)
  {
    Playable(s, trace, retries) && Play(s, trace, retries) == t
  }

  lemma {:induction false} LeadsOn(s: System, a: seq<Moment>, t: System, b: seq<Moment>, u: System, retries: nat)
    requires Leads(s, a, t, retries) && Leads(t, b, u, retries)
    ensures Leads(s, a + b, u, retries)
    decreases |a|
  {
    hide PlayOne, Enabled;
    if a == [] {
      assert a + b == b;
    } else {
      assert (a + b)[1..] == a[1..] + b;
      LeadsOn(PlayOne(s, a[0], retries), a[1..], t, b, u, retries);
    }
  }

  lemma LeadsOne(s: System, m: Moment, retries: nat)
    requires m.Own? ==> Enabled(s, m.step)
    ensures Leads(s, [m], PlayOne(s, m, retries), retries)
  {
    hide PlayOne, Enabled;
    var t := PlayOne(s, m, retries);
    assert [m][1..] == [] && [m][0] == m;
    assert Playable(t, [], retries) && Play(t, [], retries) == t;
  }

  function Others(tables: seq<Table>): seq<Moment>
  {
    seq(|tables|, i requires 0 <= i < |tables| => Other(tables[i]))
  }

  lemma {:induction false} OthersLead(s: System, tables: seq<Table>, retries: nat)
    ensures Leads(s, Others(tables), System(MergeAll(s.rows, tables), s.log + tables, s.workers), retries)
    decreases |tables|
  {
    hide MergeInsert;
    if tables == [] {
      assert Others(tables) == [] && s.log + tables == s.log;
    } else {
      var front, last := tables[..|tables| - 1], tables[|tables| - 1];
      OthersLead(s, front, retries);
      var mid := System(MergeAll(s.rows, front), s.log + front, s.workers);
      LeadsOne(mid, Other(last), retries);
      assert s.log + front + [last] == s.log + tables;
      LeadsOn(s, Others(front), mid, [Other(last)], PlayOne(mid, Other(last), retries), retries);
      assert Others(tables) == Others(front) + [Other(last)];
    }
  }

  /** The worker after an attempt ended. */
  function AfterAttempt(table: Table, attempt: nat, retries: nat, end: AttemptEnd): Worker
  {
    if end.Through? then Worker(table, attempt, Merged)
    else if end.retryable && attempt < retries then Worker(table, attempt + 1, Start)
    else Worker(table, attempt, if end.Clashed? then Conflict else Failed)
  }

  function PhaseOf(r: MergeResult): Phase
  {
    match r
    case Reconciled(_, _, _) => Done
    case ReplayConflict => Conflict
    case InvalidTable => Failed
    case CommitFailed => Failed
  }

  lemma PreflightLeads(rows: Dataset, log: seq<Table>, table: Table, attempt: nat, retries: nat, retried: bool)
    ensures var s := System(rows, log, [Worker(table, attempt, Start)]);
            var existing, incoming := Stored(rows, TableKeys(table)), Incoming(table);
            var w := if HasClash(existing, incoming) then AfterAttempt(table, attempt, retries, Clashed(retried))
                     else if !RequiresMerge(existing, incoming) then Worker(table, attempt, Merged)
                     else Worker(table, attempt, Preflighted);
            Leads(s, [Own(Preflight(0, retried))], System(rows, log, [w]), retries)
  {
    hide Stored, Incoming, HasClash, RequiresMerge;
    LeadsOne(System(rows, log, [Worker(table, attempt, Start)]), Own(Preflight(0, retried)), retries);
  }

  /** The step a commit's fate is. */
  function CommitStep(fate: Fate): Step
  {
    if fate.Commits? then Commit(0) else CommitError(0, fate.landed, fate.retryable)
  }

  lemma CommitLeads(rows: Dataset, log: seq<Table>, table: Table, attempt: nat, retries: nat, fate: Fate)
    ensures var s := System(rows, log, [Worker(table, attempt, Preflighted)]);
            var lands := fate.Commits? || fate.landed;
            var end := if fate.Commits? then Through else Raised(fate.retryable);
            Leads(s, [Own(CommitStep(fate))],
                  System(if lands then MergeInsert(rows, table) else rows, if lands then log + [table] else log,
                         [AfterAttempt(table, attempt, retries, end)]), retries)
  {
    hide MergeInsert;
    LeadsOne(System(rows, log, [Worker(table, attempt, Preflighted)]), Own(CommitStep(fate)), retries);
  }

  /** The reported count: one per deleted line, none per live line, added up over the table. */
  lemma {:induction false} TombstonesAddUp(a: Table, b: Table)
    ensures Tombstones(a + b) == Tombstones(a) + Tombstones(b)
    ensures |a| == 1 ==> Tombstones(a) == if a[0].row.deleted then 1 else 0
  {
    if a == [] {
      assert a + b == b;
    } else {
      TombstonesAddUp(a[1..], b);
      assert (a + b)[1..] == a[1..] + b;
    }
  }

  class ReplayDataset {
    var rows: Dataset
    var log: seq<Table>

    constructor ()
      ensures rows == map[] && log == []
    {
      rows, log := map[], [];
    }

    /** One committed merge: a new version. */
    method MergeAtomically(table: Table)
      modifies this
      ensures rows == MergeInsert(old(rows), table) && log == old(log) + [table]
    {
      rows, log := MergeInsert(rows, table), log + [table];
    }

    method MergeOthers(tables: seq<Table>)
      modifies this
      ensures log == old(log) + tables && rows == MergeAll(old(rows), tables)
    {
      for n := 0 to |tables|
        invariant log == old(log) + tables[..n] && rows == MergeAll(old(rows), tables[..n])
      {
        MergeAtomically(tables[n]);
        assert tables[..n + 1] == tables[..n] + [tables[n]];
        assert tables[..n + 1][..n] == tables[..n];
      }
      assert tables[..|tables|] == tables;
    }

    /** The committed history, grown by `added`, is what produced the rows. */
    twostate predicate GrewBy(added: seq<Table>)
      reads this
    {
      log == old(log) + added && rows == MergeAll(old(rows), added)
    }

    /** The dataset with this call's worker in it. */
    ghost function With(w: Worker): System
      reads this
    {
      System(rows, log, [w])
    }

    /** `merge_attempt`: reopen, preflight, and execute one conditional merge. */
    method MergeAttempt(table: Table, incoming: States, now: Attempt, attempt: nat, ghost retries: nat)
      returns (end: AttemptEnd, ghost added: seq<Table>, ghost trace: seq<Moment>)
      requires incoming == Incoming(table)
      modifies this
      ensures GrewBy(added)
      ensures Leads(old(With(Worker(table, attempt, Start))), trace,
                    With(AfterAttempt(table, attempt, retries, end)), retries)
      ensures end.Clashed? ==> added == now.before && HasClash(Stored(rows, TableKeys(table)), incoming)
      ensures end.Raised? ==> now.fate.Errors? && now.fate.retryable == end.retryable
      ensures Undisturbed(now, []) && !HasClash(Stored(old(rows), TableKeys(table)), incoming) ==>
                end.Through? && rows == MergeInsert(old(rows), table)
      ensures forall t :: t in added ==> t == table || t in now.before || t in now.between
    {
      hide MergeInsert, Leads, Stored, Incoming, HasClash, RequiresMerge;
      ghost var start := With(Worker(table, attempt, Start));
      OthersLead(start, now.before, retries);
      MergeOthers(now.before);
      added, trace := now.before, Others(now.before) + [Own(Preflight(0, now.clashRetried))];
      var existing := Stored(rows, TableKeys(table));
      var conflict := DetectSameSequenceConflicts(existing, incoming);
      PreflightLeads(rows, log, table, attempt, retries, now.clashRetried);
      ghost var read := With(Worker(table, attempt, Start));
      if conflict {
        LeadsOn(start, Others(now.before), read, [Own(Preflight(0, now.clashRetried))],
                With(AfterAttempt(table, attempt, retries, Clashed(now.clashRetried))), retries);
        return Clashed(now.clashRetried), added, trace;
      }
      if now.before == [] {
        MergeNone(old(rows));
      }
      if !RequiresMerge(existing, incoming) {
        NoOpIsExact(rows, table);
        LeadsOn(start, Others(now.before), read, [Own(Preflight(0, now.clashRetried))],
                With(Worker(table, attempt, Merged)), retries);
        return Through, added, trace;
      }
      ghost var ready := With(Worker(table, attempt, Preflighted));
      LeadsOn(start, Others(now.before), read, [Own(Preflight(0, now.clashRetried))], ready, retries);
      OthersLead(ready, now.between, retries);
      MergeNone(rows);
      MergeOthers(now.between);
      MergeAllAppends(old(rows), added, now.between);
      ghost var late := With(Worker(table, attempt, Preflighted));
      LeadsOn(start, trace, ready, Others(now.between), late, retries);
      added, trace := added + now.between, trace + Others(now.between);
      CommitLeads(rows, log, table, attempt, retries, now.fate);
      if now.fate.Commits? || now.fate.landed {
        MergeAtomically(table);
        MergeAllAppends(old(rows), added, [table]);
        assert [table][..0] == [];
        added := added + [table];
      }
      end := if now.fate.Commits? then Through else Raised(now.fate.retryable);
      LeadsOn(start, trace, late, [Own(CommitStep(now.fate))], With(AfterAttempt(table, attempt, retries, end)),
              retries);
      trace := trace + [Own(CommitStep(now.fate))];
    }

    /** `replay_safe_merge`: validate, then preflight and merge under retries, then verify.
        `script` says what the environment does around each attempt, `after` before verification.
        `trace` shows the call as steps of the worker system: a worker that is spawned with the table
        and ends in the phase of the result. */
    method ReplaySafeMerge(table: Table, retries: nat, script: seq<Attempt>, after: seq<Table>)
      returns (r: MergeResult, ghost added: seq<Table>, ghost trace: seq<Moment>, ghost w: Worker)
      requires |script| == retries + 1
      modifies this
      ensures GrewBy(added)
      ensures Leads(System(old(rows), old(log), []), trace, With(w), retries) && w.table == table
      ensures w.phase == PhaseOf(r)
      ensures r == InvalidTable <==> !NoBadLine(table)
      ensures NoBadLine(table) && !KeysDiffer(table) ==> r == ReplayConflict
      ensures r.InvalidTable? || !KeysDiffer(table) ==> added == []
      ensures NoBadLine(table) && KeysDiffer(table)
              && LevelAgrees(old(rows), table) && Undisturbed(script[0], after) ==>
                r.Reconciled? && TakesIn(old(rows), table, rows)
      ensures forall t :: t in added ==> t == table || Environment(t, script, after)
      ensures r.Reconciled? ==>
                && (forall i :: 0 <= i < |table| ==> Settled(rows, table[i]))
                && r == Reconciled(|table|, Tombstones(table), |log|)
      ensures r == ReplayConflict && KeysDiffer(table) ==> exists i :: 0 <= i < |table| && !Settled(rows, table[i])
      ensures r == CommitFailed ==> exists n :: 0 <= n < |script| && script[n].fate.Errors?
    {
      AcceptedColumns(table);
      hide MergeInsert, Settled, Stored, MergeAll, Incoming, ValidTable, DistinctLines, TableKeys, Leads, HasClash;
      hide NoBadLine, KeysDiffer, LevelAgrees, TakesIn;
      added, trace := [], [Own(Spawn(table))];
      ghost var start := System(rows, log, []);
      assert MergeAll(rows, []) == rows by { MergeNone(rows); }
      SpawnLeads(rows, log, table, retries);
      if !ValidTable(table) {
        return InvalidTable, added, trace, Worker(table, 0, Failed);
      }
      var incoming := ExpectedKeyStates(table);
      if incoming.None? {
        return ReplayConflict, added, trace, Worker(table, 0, Conflict);
      }
      AgreeingNeverClashes(rows, table);
      ghost var quiet := LevelAgrees(rows, table) && Undisturbed(script[0], after);
      w := Worker(table, 0, Start);
      var attempt := 0;
      var end := Raised(true);
      while !end.Through?
        invariant 0 <= attempt <= retries + (if end.Through? then 1 else 0) && GrewBy(added)
        invariant attempt == 0 ==> rows == old(rows) && !end.Through?
        invariant attempt > 0 && quiet ==> end.Through? && rows == MergeInsert(old(rows), table)
        invariant Leads(start, trace, With(w), retries) && w.table == table
        invariant if end.Through? then w.phase == Merged else w == Worker(table, attempt, Start)
        invariant forall t :: t in added ==> t == table || Environment(t, script, after)
        decreases retries + 1 - attempt
      {
        ghost var more, steps;
        ghost var before := With(w);
        end, more, steps := MergeAttempt(table, incoming.value, script[attempt], attempt, retries);
        w := AfterAttempt(table, attempt, retries, end);
        LeadsOn(start, trace, before, steps, With(w), retries);
        trace := trace + steps;
        MergeAllAppends(old(rows), added, more);
        assert forall t :: t in more ==> t == table || Environment(t, script, after);
        added := added + more;
        if !end.Through? && (!end.retryable || attempt == retries) {
          if end.Clashed? {
            ClashIsUnsettled(rows, table);
          } else {
            assert script[attempt].fate.Errors?;
          }
          return if end.Clashed? then ReplayConflict else CommitFailed, added, trace, w;
        }
        attempt := attempt + 1;
      }
      OthersLead(With(w), after, retries);
      ghost var merged := With(w);
      MergeNone(rows);
      MergeOthers(after);
      if quiet {
        TakenInIsReconciled(old(rows), table);
        MergeTakesIn(old(rows), table);
      }
      LeadsOn(start, trace, merged, Others(after), With(w), retries);
      MergeAllAppends(old(rows), added, after);
      added, trace := added + after, trace + Others(after);
      var ok := VerifyReconciledStates(Stored(rows, TableKeys(table)), incoming.value);
      ReconciledMeansSettled(rows, table);
      VerifyLeads(rows, log, w, retries);
      ghost var settled := w.(phase := if ok then Done else Conflict);
      LeadsOn(start, trace, With(w), [Own(Verify(0))], With(settled), retries);
      trace, w := trace + [Own(Verify(0))], settled;
      if !ok {
        return ReplayConflict, added, trace, w;
      }
      r := Reconciled(|table|, Tombstones(table), |log|);
    }
  }

  lemma SpawnLeads(rows: Dataset, log: seq<Table>, table: Table, retries: nat)
    ensures var phase := if !ValidTable(table) then Failed else if DistinctLines(table) then Start else Conflict;
            Leads(System(rows, log, []), [Own(Spawn(table))], System(rows, log, [Worker(table, 0, phase)]), retries)
  {
    hide ValidTable, DistinctLines;
    LeadsOne(System(rows, log, []), Own(Spawn(table)), retries);
  }

  lemma VerifyLeads(rows: Dataset, log: seq<Table>, w: Worker, retries: nat)
    requires w.phase == Merged
    ensures var ok := ReplaySink.Reconciled(Stored(rows, TableKeys(w.table)), Incoming(w.table));
            Leads(System(rows, log, [w]), [Own(Verify(0))],
                  System(rows, log, [w.(phase := if ok then Done else Conflict)]), retries)
  {
    hide Stored, Incoming, TableKeys;
    LeadsOne(System(rows, log, [w]), Own(Verify(0)), retries);
  }

  /** A clash is a line that is not settled. */
  lemma ClashIsUnsettled(rows: Dataset, table: Table)
    requires DistinctLines(table) && HasClash(Stored(rows, TableKeys(table)), Incoming(table))
    ensures exists i :: 0 <= i < |table| && !Settled(rows, table[i])
  {
    var stored, incoming := Stored(rows, TableKeys(table)), Incoming(table);
    var k :| k in incoming && k in stored && Clash(stored[k], incoming[k]);
    var i :| 0 <= i < |table| && table[i].key == k;
    FindLine(table, i);
    assert !Settled(rows, table[i]);
  }

  lemma MergeNone(rows: Dataset)
    ensures MergeAll(rows, []) == rows
  {
  }

  lemma {:induction false} MergeAllAppends(rows: Dataset, a: seq<Table>, b: seq<Table>)
    ensures MergeAll(rows, a + b) == MergeAll(MergeAll(rows, a), b)
    decreases |b|
  {
    hide MergeInsert;
    if b == [] {
      assert a + b == a;
    } else {
      MergeAllAppends(rows, a, b[..|b| - 1]);
      assert (a + b)[..|a + b| - 1] == a + b[..|b| - 1];
    }
  }
}
