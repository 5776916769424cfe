/** From a generated op program to the published dataset: deliver each snapshot, collapse it, merge
    the terminal mutations in any interleaved run, and compare with the replayed oracle. */
module EndToEnd {
  import opened Orders
  import opened Digest
  import opened Identity
  import opened Mutation
  import opened ReplaySink
  import opened ReplayProgress
  import opened Convergence
  import opened Naming
  import opened Workload
  import opened Ledger
  import opened Generator
  import opened GeneratedWorkload
  import opened Wrappers

  /** `fuzz_payload`: the content of one record version. */
  type Content = (string, string, nat) -> seq<Entry>

  /** Where the records go, what they contain, and which source sequence each snapshot was given. */
  datatype Delivery = Delivery(
    tenant: string, namespace: string, content: Content, sha: Hash, windows: seq<int>, sequences: seq<int>)

  /** The source row an op is delivered as: tombstones carry no payload. */
  function Input(op: FuzzOp, d: Delivery): MutationInput
  {
    MutationInput(d.tenant, d.namespace, op.org, op.recordId, op.op, Instant(op.ts, true),
                  if op.IsDelete() then [] else d.content(op.org, op.recordId, op.version))
  }

  /** One organization's share of one snapshot, in delivery order. */
  function OpsAt(w: seq<FuzzOp>, org: string, n: int): (ops: seq<FuzzOp>)
    ensures forall op :: op in ops <==> op in w && op.org == org && op.snapshot == n
  {
    if w == [] then []
    else
      var rest := OpsAt(w[..|w| - 1], org, n);
      var op := w[|w| - 1];
      assert w == w[..|w| - 1] + [op];
      if op.org == org && op.snapshot == n then rest + [op] else rest
  }

  function Inputs(ops: seq<FuzzOp>, d: Delivery): (rows: seq<MutationInput>)
    ensures |rows| == |ops| && forall i :: 0 <= i < |ops| ==> rows[i] == Input(ops[i], d)
  {
    seq(|ops|, i requires 0 <= i < |ops| => Input(ops[i], d))
  }

  function ToLine(t: TerminalMutation): Line
  {
    Line(t.recordId, Row(t.windowSeq, t.sourceSequence, t.digest, t.IsDeleted(), t.ts, t.payload))
  }

  function ToTable(out: seq<TerminalMutation>): (table: Table)
    ensures |table| == |out| && forall i :: 0 <= i < |out| ==> table[i] == ToLine(out[i])
  {
    seq(|out|, i requires 0 <= i < |out| => ToLine(out[i]))
  }

  /** Table `n` holds the collapse of snapshot `n`, at that snapshot's source sequence. */
  ghost predicate CollapsedAt(
    w: seq<FuzzOp>, org: string, d: Delivery, outs: seq<seq<TerminalMutation>>, tables: seq<Table>, n: nat)
    requires n < |outs| == |tables| && |outs| <= |d.windows| && |outs| <= |d.sequences|
  {
    var rows := Inputs(OpsAt(w, org, n), d);
    && AllAcceptable(rows)
    && IsCollapse(rows, d.windows[n], d.sequences[n], d.sha, outs[n])
    && tables[n] == ToTable(outs[n])
  }

  ghost predicate CollapsedThrough(
    w: seq<FuzzOp>, org: string, cap: nat, d: Delivery, outs: seq<seq<TerminalMutation>>, tables: seq<Table>)
  {
    && |outs| == |tables| == |d.windows| == |d.sequences| == cap + 1
    && (forall n :: 0 <= n <= cap ==> CollapsedAt(w, org, d, outs, tables, n))
    && forall m, n :: 0 <= m < n <= cap ==> d.sequences[m] < d.sequences[n]
  }

  /** The organization's ops through `cap` touch each key once per snapshot and are all replayed. */
  ghost predicate Calm(w: seq<FuzzOp>, org: string, cap: nat)
  {
    && InOrder(w)
    && (forall i :: 0 <= i < |w| && w[i].org == org && w[i].snapshot <= cap ==> !w[i].IsConflict())
    && forall i, j :: 0 <= i < j < |w| && w[i].org == w[j].org == org && w[j].snapshot <= cap ==> !SameSlot(w[i], w[j])
  }

  /** Generated programs are calm for every organization but the conflict's victim, and for the
      victim up to the last snapshot. */
  lemma GeneratedIsCalm(s: Settings, w: seq<FuzzOp>, b: Book, clock: Clock, planted: nat, org: string, cap: nat)
    requires ProgramOk(s, w, b, clock, planted) && cap < s.snapshots
    requires s.conflict ==> org != OrgName(0) || cap < s.snapshots - 1
    ensures Calm(w, org, cap)
  {
    hide Claims, NamesOk, OrgName, NormalizeOperation, Fresh, OncePerSnapshot;
    forall i | 0 <= i < |w| && w[i].org == org && w[i].snapshot <= cap ensures !w[i].IsConflict() {
      if s.conflict {
        assert i < |w| - 2 ==> w[i] == w[..|w| - 2][i];
      }
    }
    if s.conflict {
      PairPlace(s, w, b, clock, planted);
    }
    hide InOrder, ConflictPair;
    forall i, j | 0 <= i < j < |w| && w[i].org == w[j].org == org && w[j].snapshot <= cap
      ensures !SameSlot(w[i], w[j])
    {
      OnlyThePairShares(s, w, b, clock, planted, i, j);
    }
  }

  lemma PairPlace(s: Settings, w: seq<FuzzOp>, b: Book, clock: Clock, planted: nat)
    requires ProgramOk(s, w, b, clock, planted) && s.conflict
    ensures |w| >= 2 && w[|w| - 1].org == OrgName(0) && w[|w| - 1].snapshot == s.snapshots - 1
  {
  }

  // ---------- the replay names the last op of a record ----------

  predicate Touches(op: FuzzOp, cap: int, org: string, id: string)
  {
    Replayed(op, cap) && op.org == org && op.recordId == id
  }

  ghost predicate LastTouch(w: seq<FuzzOp>, i: int, cap: int, org: string, id: string)
  {
    && 0 <= i < |w| && Touches(w[i], cap, org, id)
    && forall j :: i < j < |w| ==> !Touches(w[j], cap, org, id)
  }

  lemma {:induction false} ReplayIsLastOp(w: seq<FuzzOp>, cap: int, org: string, id: string)
    ensures var r := Lookup(ReplayState(w, cap), org, id);
            if r.None? then forall i :: 0 <= i < |w| ==> !Touches(w[i], cap, org, id)
            else exists i :: LastTouch(w, i, cap, org, id) && r == Some(RowOf(w[i]))
    decreases |w|
  {
    hide RowOf, Lookup, Put, Replayed, ReplayState;
    if w != [] {
      var front, op := w[..|w| - 1], w[|w| - 1];
      assert w == front + [op];
      ReplayLast(front, op, cap);
      ReplayIsLastOp(front, cap, org, id);
      var before := ReplayState(front, cap);
      PutAt(before, op, org, id);
      if Touches(op, cap, org, id) {
        assert LastTouch(w, |w| - 1, cap, org, id);
      } else if Lookup(before, org, id).Some? {
        var i :| LastTouch(front, i, cap, org, id) && Lookup(before, org, id) == Some(RowOf(front[i]));
        assert w[i] == front[i] && LastTouch(w, i, cap, org, id);
      }
    } else {
      NothingThere(cap, org, id);
    }
  }

  lemma NothingThere(cap: int, org: string, id: string)
    ensures Lookup(ReplayState([], cap), org, id).None?
  {
  }

  // ---------- from op to stored row ----------

  /** The published row an oracle row stands for: sequence, digest, tombstone flag, time and payload. */
  function ExpectedRow(r: OracleRow, org: string, id: string, d: Delivery): Row
    requires r.snapshot < |d.windows| && r.snapshot < |d.sequences|
  {
    var payload := if r.deleted then [] else d.content(org, id, r.version);
    var event := Event(d.tenant, d.namespace, org, id, if r.deleted then "delete" else "upsert", Instant(r.ts, true),
                       payload);
    var preimage := EventPreimage(event);
    Row(d.windows[r.snapshot], d.sequences[r.snapshot], if preimage.Ok? then d.sha(preimage.value) else [],
        r.deleted, Instant(r.ts, true), payload)
  }

  lemma TerminalIsExpected(op: FuzzOp, d: Delivery)
    requires op.snapshot < |d.windows| && op.snapshot < |d.sequences| && Acceptable(Input(op, d))
    ensures ToLine(Terminal(Input(op, d), d.windows[op.snapshot], d.sequences[op.snapshot], d.sha))
         == Line(op.recordId, ExpectedRow(RowOf(op), op.org, op.recordId, d))
  {
    hide EventPreimage;
    OperationWords(op.op);
    hide NormalizeOperation;
  }

  lemma OperationWords(operation: string)
    ensures NormalizeOperation(operation).Success? ==>
              NormalizeOperation(operation).value == "upsert" || NormalizeOperation(operation).value == "delete"
    ensures "upsert" != "delete"
  {
    assert "upsert"[0] == 'u' && "delete"[0] == 'd';
  }

  /** Every line of a collapsed table is the row of some op of that snapshot. */
  lemma LineHasOp(
    w: seq<FuzzOp>, org: string, d: Delivery, outs: seq<seq<TerminalMutation>>, tables: seq<Table>, n: nat, line: Line)
    returns (i: nat)
    requires n < |outs| == |tables| && |outs| <= |d.windows| && |outs| <= |d.sequences|
    requires CollapsedAt(w, org, d, outs, tables, n) && line in tables[n]
    ensures i < |w| && w[i].org == org && w[i].snapshot == n && w[i].recordId == line.key
    ensures line == Line(w[i].recordId, ExpectedRow(RowOf(w[i]), org, w[i].recordId, d))
  {
    hide Acceptable, NormalizeOperation, ExpectedRow, Represented, TerminalLess;
    var ops := OpsAt(w, org, n);
    var rows := Inputs(ops, d);
    var j :| 0 <= j < |tables[n]| && tables[n][j] == line;
    assert IsTerminalOf(outs[n][j], rows, d.windows[n], d.sequences[n], d.sha);
    var k :| 0 <= k < |rows| && outs[n][j] == Terminal(rows[k], d.windows[n], d.sequences[n], d.sha);
    assert ops[k] in ops && rows[k] == Input(ops[k], d);
    assert Acceptable(rows[k]);
    i :| 0 <= i < |w| && w[i] == ops[k];
    TerminalIsExpected(ops[k], d);
  }

  /** Every op has a line of its key in the table of its snapshot. */
  lemma OpHasLine(
    w: seq<FuzzOp>, org: string, d: Delivery, outs: seq<seq<TerminalMutation>>, tables: seq<Table>, n: nat, i: nat)
    requires n < |outs| == |tables| && |outs| <= |d.windows| && |outs| <= |d.sequences|
    requires CollapsedAt(w, org, d, outs, tables, n) && i < |w| && w[i].org == org && w[i].snapshot == n
    ensures Find(tables[n], w[i].recordId).Some?
  {
    hide Acceptable, NormalizeOperation, TerminalLess, IsTerminalOf;
    var ops := OpsAt(w, org, n);
    var rows := Inputs(ops, d);
    assert w[i] in ops;
    var k :| 0 <= k < |ops| && ops[k] == w[i];
    assert rows[k] == Input(w[i], d) && Represented(rows[k], outs[n], d.sha);
    var j :| 0 <= j < |outs[n]| && TerminalKey(outs[n][j]) == RowKey(rows[k]);
    assert tables[n][j].key == w[i].recordId;
  }

  /** Strictly sorted terminal mutations of one target have distinct record ids. */
  lemma CollapsedIsSequenced(
    w: seq<FuzzOp>, org: string, cap: nat, d: Delivery, outs: seq<seq<TerminalMutation>>, tables: seq<Table>)
    requires CollapsedThrough(w, org, cap, d, outs, tables)
    ensures Sequenced(tables, d.sequences)
  {
    hide Acceptable, Represented, NormalizeOperation, Preimage;
    forall n | 0 <= n < |tables|
      ensures DistinctLines(tables[n]) && forall i :: 0 <= i < |tables[n]| ==>
                tables[n][i].row.sequence == d.sequences[n]
    {
      assert CollapsedAt(w, org, d, outs, tables, n);
      CollapsedTable(Inputs(OpsAt(w, org, n), d), org, d, outs[n], n);
    }
    hide CollapsedThrough, CollapsedAt;
    assert |tables| == |d.sequences| && forall m, n :: 0 <= m < n < |tables| ==> d.sequences[m] < d.sequences[n] by {
      Growing(w, org, cap, d, outs, tables);
    }
  }

  lemma Growing(
    w: seq<FuzzOp>, org: string, cap: nat, d: Delivery, outs: seq<seq<TerminalMutation>>, tables: seq<Table>)
    requires CollapsedThrough(w, org, cap, d, outs, tables)
    ensures |tables| == |d.sequences| && forall m, n :: 0 <= m < n < |tables| ==> d.sequences[m] < d.sequences[n]
  {
    hide CollapsedAt;
  }

  lemma CollapsedTable(rows: seq<MutationInput>, org: string, d: Delivery, out: seq<TerminalMutation>, n: nat)
    requires n < |d.windows| && n < |d.sequences|
    requires AllAcceptable(rows) && IsCollapse(rows, d.windows[n], d.sequences[n], d.sha, out)
    requires forall i :: 0 <= i < |rows| ==>
              rows[i].tenant == d.tenant && rows[i].namespace == d.namespace && rows[i].org == org
    ensures var table := ToTable(out);
            DistinctLines(table) && forall i :: 0 <= i < |table| ==> table[i].row.sequence == d.sequences[n]
  {
    hide Acceptable, NormalizeOperation, Preimage, Represented;
    forall i | 0 <= i < |out|
      ensures out[i].sourceSequence == d.sequences[n]
      ensures out[i].tenant == d.tenant && out[i].namespace == d.namespace && out[i].org == org
    {
      assert IsTerminalOf(out[i], rows, d.windows[n], d.sequences[n], d.sha);
    }
    forall i, j | 0 <= i < j < |out| ensures out[i].recordId != out[j].recordId {
      assert TerminalLess(out[i], out[j]);
      KeyTrichotomy(TerminalKey(out[i]), TerminalKey(out[j]));
    }
  }

  lemma CollapsedLinesAreGood(
    w: seq<FuzzOp>, org: string, d: Delivery, outs: seq<seq<TerminalMutation>>, tables: seq<Table>, n: nat)
    requires n < |outs| == |tables| && |outs| <= |d.windows| && |outs| <= |d.sequences|
    requires CollapsedAt(w, org, d, outs, tables, n) && 0 <= d.windows[n] && 0 <= d.sequences[n]
    ensures NoBadLine(tables[n])
  {
    hide CollapsedAt, RowOf, ExpectedRow, BadLine;
    var table := tables[n];
    forall i | 0 <= i < |table| ensures !BadLine(table[i]) {
      var p := LineHasOp(w, org, d, outs, tables, n, table[i]);
      ExpectedIsGood(w[p], org, d);
    }
  }

  lemma ExpectedIsGood(op: FuzzOp, org: string, d: Delivery)
    requires op.snapshot < |d.windows| && op.snapshot < |d.sequences|
    requires d.windows[op.snapshot] >= 0 && d.sequences[op.snapshot] >= 0
    ensures RowOf(op).snapshot == op.snapshot
    ensures !BadLine(Line(op.recordId, ExpectedRow(RowOf(op), org, op.recordId, d)))
  {
    hide NormalizeOperation, EventPreimage;
  }

  lemma CollapsedKeysDiffer(
    w: seq<FuzzOp>, org: string, d: Delivery, outs: seq<seq<TerminalMutation>>, tables: seq<Table>, n: nat)
    requires n < |outs| == |tables| && |outs| <= |d.windows| && |outs| <= |d.sequences|
    requires CollapsedAt(w, org, d, outs, tables, n)
    ensures KeysDiffer(tables[n])
  {
    hide Acceptable, Input, DistinctLines, KeysDiffer, IsCollapse;
    AcceptedColumns(tables[n]);
    var rows := Inputs(OpsAt(w, org, n), d);
    forall i | 0 <= i < |rows|
      ensures rows[i].tenant == d.tenant && rows[i].namespace == d.namespace && rows[i].org == org
    {
      assert rows[i] == Input(OpsAt(w, org, n)[i], d);
      InputTarget(OpsAt(w, org, n)[i], d);
    }
    CollapsedTable(rows, org, d, outs[n], n);
  }

  lemma InputTarget(op: FuzzOp, d: Delivery)
    ensures var row := Input(op, d); row.tenant == d.tenant && row.namespace == d.namespace && row.org == op.org
  {
    hide NormalizeOperation;
  }

  /** Every collapsed snapshot is accepted by the sink, tombstones included: the worker starts. */
  lemma CollapsedTableStarts(
    w: seq<FuzzOp>, org: string, d: Delivery, outs: seq<seq<TerminalMutation>>, tables: seq<Table>, n: nat,
    s: System, retries: nat)
    requires n < |outs| == |tables| && |outs| <= |d.windows| && |outs| <= |d.sequences|
    requires CollapsedAt(w, org, d, outs, tables, n) && 0 <= d.windows[n] && 0 <= d.sequences[n]
    ensures NoBadLine(tables[n]) && KeysDiffer(tables[n])
    ensures var t := Next(s, Spawn(tables[n]), retries);
            |t.workers| == |s.workers| + 1 && t.workers[|s.workers|] == Worker(tables[n], 0, Start)
  {
    AcceptedColumns(tables[n]);
    hide CollapsedAt, NoBadLine, KeysDiffer;
    CollapsedLinesAreGood(w, org, d, outs, tables, n);
    CollapsedKeysDiffer(w, org, d, outs, tables, n);
  }

  // ---------- the two oracles agree ----------

  /** The replayed state of one organization, as published rows. */
  ghost function Published(state: State, org: string, d: Delivery): Dataset
    requires forall id :: Lookup(state, org, id).Some? ==>
               && Lookup(state, org, id).value.snapshot < |d.windows|
               && Lookup(state, org, id).value.snapshot < |d.sequences|
  {
    var ids := if org in state then state[org].Keys else {};
    map id | id in ids && Lookup(state, org, id).Some? :: ExpectedRow(Lookup(state, org, id).value, org, id, d)
  }

  lemma ReplayedWithinCap(w: seq<FuzzOp>, cap: nat, org: string, id: string)
    requires Lookup(ReplayState(w, cap), org, id).Some?
    ensures Lookup(ReplayState(w, cap), org, id).value.snapshot <= cap
  {
    hide ReplayState, Lookup;
    ReplayIsLastOp(w, cap, org, id);
  }

  lemma OraclesAgreeAt(
    w: seq<FuzzOp>, org: string, cap: nat, d: Delivery, outs: seq<seq<TerminalMutation>>, tables: seq<Table>,
    id: string)
    requires Calm(w, org, cap) && CollapsedThrough(w, org, cap, d, outs, tables)
    ensures var r := Lookup(ReplayState(w, cap), org, id);
            && (r.Some? ==> r.value.snapshot <= cap)
            && Get(Oracle(tables), id) == if r.None? then None else Some(ExpectedRow(r.value, org, id, d))
  {
    hide ReplayState, Lookup, Oracle, ExpectedRow, Find, RowOf, CollapsedAt;
    var r := Lookup(ReplayState(w, cap), org, id);
    ReplayIsLastOp(w, cap, org, id);
    OracleIsLastWriter(tables, id);
    if r.Some? {
      ReplayedWithinCap(w, cap, org, id);
      var i :| LastTouch(w, i, cap, org, id) && r == Some(RowOf(w[i]));
      OpHasLine(w, org, d, outs, tables, w[i].snapshot, i);
      assert id in Oracle(tables);
    }
    if id in Oracle(tables) {
      var n :| LastAt(tables, id, n, Oracle(tables)[id]);
      LastLineIsLastOp(w, org, cap, d, outs, tables, id, n, Oracle(tables)[id]);
    }
  }

  lemma LastLineIsLastOp(
    w: seq<FuzzOp>, org: string, cap: nat, d: Delivery, outs: seq<seq<TerminalMutation>>, tables: seq<Table>,
    id: string, n: nat, row: Row)
    requires Calm(w, org, cap) && CollapsedThrough(w, org, cap, d, outs, tables)
    requires LastAt(tables, id, n, row)
    ensures var r := Lookup(ReplayState(w, cap), org, id);
            r.Some? && r.value.snapshot <= cap && row == ExpectedRow(r.value, org, id, d)
  {
    hide ReplayState, Lookup, ExpectedRow, RowOf, CollapsedAt, Find;
    var r := Lookup(ReplayState(w, cap), org, id);
    var p := LineHasOp(w, org, d, outs, tables, n, Line(id, row));
    assert Touches(w[p], cap, org, id);
    ReplayIsLastOp(w, cap, org, id);
    var q :| LastTouch(w, q, cap, org, id) && r == Some(RowOf(w[q]));
    assert p <= q;
    OpHasLine(w, org, d, outs, tables, w[q].snapshot, q);
    assert w[q].snapshot <= n;
    assert w[p].snapshot <= w[q].snapshot;
    assert SameSlot(w[p], w[q]);
    ReplayedWithinCap(w, cap, org, id);
  }

  /** Collapsing each snapshot and overwriting in order is replaying the ops in order. */
  lemma OraclesAgree(
    w: seq<FuzzOp>, org: string, cap: nat, d: Delivery, outs: seq<seq<TerminalMutation>>, tables: seq<Table>)
    requires Calm(w, org, cap) && CollapsedThrough(w, org, cap, d, outs, tables)
    ensures forall id :: Lookup(ReplayState(w, cap), org, id).Some? ==>
              Lookup(ReplayState(w, cap), org, id).value.snapshot < |d.windows| == |d.sequences|
    ensures Oracle(tables) == Published(ReplayState(w, cap), org, d)
  {
    hide ReplayState, Oracle, ExpectedRow, Calm, CollapsedAt;
    var st := ReplayState(w, cap);
    forall id | Lookup(st, org, id).Some? ensures Lookup(st, org, id).value.snapshot < |d.windows| {
      ReplayedWithinCap(w, cap, org, id);
    }
    forall id: string ensures Get(Oracle(tables), id) == Get(Published(st, org, d), id) {
      OraclesAgreeAt(w, org, cap, d, outs, tables, id);
    }
    SameGets(Oracle(tables), Published(st, org, d));
  }

  /** The whole pipeline. Take any generated workload, deliver its snapshots, collapse each, and let
      any number of workers merge the results in any interleaving, chunking, repetition or crash: once
      every terminal mutation was delivered, the organization's dataset is its replayed oracle. */
  lemma PublishedIsReplayed(
    settings: Settings, w: seq<FuzzOp>, b: Book, clock: Clock, planted: nat, org: string, cap: nat, d: Delivery,
    outs: seq<seq<TerminalMutation>>, tables: seq<Table>, run: seq<Step>, retries: nat)
    requires ProgramOk(settings, w, b, clock, planted) && cap < settings.snapshots
    requires settings.conflict ==> org != OrgName(0) || cap < settings.snapshots - 1
    requires CollapsedThrough(w, org, cap, d, outs, tables)
    requires ValidRun(System(map[], [], []), run, retries) && DrawnFrom(run, Lines(tables))
    requires Delivered(After(System(map[], [], []), run, retries), tables)
    ensures forall id :: Lookup(ReplayState(w, cap), org, id).Some? ==>
              Lookup(ReplayState(w, cap), org, id).value.snapshot < |d.windows| == |d.sequences|
    ensures After(System(map[], [], []), run, retries).rows == Published(ReplayState(w, cap), org, d)
  {
    hide ProgramOk, CollapsedThrough, ValidRun, DrawnFrom, Delivered, After, Inv, ReplayState, Oracle, Lookup,
         Published, Calm, Sequenced;
    GeneratedIsCalm(settings, w, b, clock, planted, org, cap);
    OraclesAgree(w, org, cap, d, outs, tables);
    CollapsedIsSequenced(w, org, cap, d, outs, tables);
    EmptyStart(Lines(tables));
    RunsConverge(System(map[], [], []), run, retries, tables, d.sequences);
  }

  // ---------- the injected conflict ----------

  /** Delivering the final snapshot of the victim raises a conflict, provided SHA-256 tells the
      injected update and delete apart. */
  lemma InjectedPairConflicts(
    settings: Settings, w: seq<FuzzOp>, b: Book, clock: Clock, planted: nat, d: Delivery)
    requires ProgramOk(settings, w, b, clock, planted) && settings.conflict
    requires AllAcceptable(Inputs(OpsAt(w, OrgName(0), settings.snapshots - 1), d))
    requires NoCollision(Inputs(OpsAt(w, OrgName(0), settings.snapshots - 1), d), d.sha)
    requires forall org, id, v :: WellFormed(Mapping(d.content(org, id, v)))
    ensures Conflicting(Inputs(OpsAt(w, OrgName(0), settings.snapshots - 1), d), d.sha)
  {
    hide Claims, NamesOk, InOrder, OncePerSnapshot, Acceptable, NormalizeOperation, Preimage, OrgName, WellFormed,
         Fresh, SameSlot;
    var ops := OpsAt(w, OrgName(0), settings.snapshots - 1);
    var up, del := w[|w| - 2], w[|w| - 1];
    assert up in w && del in w && up in ops && del in ops;
    hide ProgramOk, ConflictPair, OpsAt;
    DeliveredPairConflicts(ops, up, del, d);
  }

  lemma DeliveredPairConflicts(ops: seq<FuzzOp>, up: FuzzOp, del: FuzzOp, d: Delivery)
    requires up in ops && del in ops && up.org == del.org && up.recordId == del.recordId
    requires NormalizeOperation(up.op) == Success("upsert") && NormalizeOperation(del.op) == Success("delete")
    requires AllAcceptable(Inputs(ops, d)) && NoCollision(Inputs(ops, d), d.sha)
    requires forall org, id, v :: WellFormed(Mapping(d.content(org, id, v)))
    ensures Conflicting(Inputs(ops, d), d.sha)
  {
    hide Acceptable, NormalizeOperation, Preimage, WellFormed;
    var rows := Inputs(ops, d);
    var i :| 0 <= i < |ops| && ops[i] == up;
    var j :| 0 <= j < |ops| && ops[j] == del;
    assert rows[i] == Input(up, d) && rows[j] == Input(del, d);
    PairPreimagesDiffer(up, del, d);
    assert RowKey(rows[i]) == RowKey(rows[j]);
    if i > j {
      assert d.sha(Preimage(rows[j])) != d.sha(Preimage(rows[i]));
    }
  }

  lemma PairPreimagesDiffer(up: FuzzOp, del: FuzzOp, d: Delivery)
    requires NormalizeOperation(up.op) == Success("upsert") && NormalizeOperation(del.op) == Success("delete")
    requires Acceptable(Input(up, d)) && Acceptable(Input(del, d))
    requires WellFormed(Mapping(d.content(up.org, up.recordId, up.version)))
    ensures Preimage(Input(up, d)) != Preimage(Input(del, d))
  {
    hide NormalizeOperation, EventPreimage, WellFormed, Same;
    OperationWords(up.op);
    var e, f := RowEvent(Input(up, d)), RowEvent(Input(del, d));
    assert "upsert"[0] != "delete"[0];
    assert e.operation == "upsert" && f.operation == "delete";
    EmptyWellFormed();
    EventPreimageInjective(e, f);
    assert e.(payload := []).operation != f.(payload := []).operation;
  }

  lemma EmptyWellFormed()
    ensures WellFormed(Mapping([]))
  {
  }

  /** Two positions of a delivered snapshot come from two positions of the program. */
  lemma {:induction false} DeliveredInOrder(w: seq<FuzzOp>, org: string, n: int, i: nat, j: nat)
    returns (p: nat, q: nat)
    requires i < j < |OpsAt(w, org, n)|
    ensures p < q < |w| && w[p] == OpsAt(w, org, n)[i] && w[q] == OpsAt(w, org, n)[j]
    decreases |w|
  {
    var front, op := w[..|w| - 1], w[|w| - 1];
    var rest := OpsAt(front, org, n);
    if j < |rest| {
      p, q := DeliveredInOrder(front, org, n, i, j);
    } else {
      q := |w| - 1;
      assert rest[i] in rest;
      p :| 0 <= p < |front| && front[p] == rest[i];
    }
  }

  /** A calm snapshot collapses without a conflict. */
  lemma CalmCollapses(w: seq<FuzzOp>, org: string, cap: nat, d: Delivery, n: nat)
    requires Calm(w, org, cap) && n <= cap && AllAcceptable(Inputs(OpsAt(w, org, n), d))
    ensures !Conflicting(Inputs(OpsAt(w, org, n), d), d.sha)
  {
    hide Acceptable, Preimage, NormalizeOperation, InOrder, OpsAt;
    var ops := OpsAt(w, org, n);
    var rows := Inputs(ops, d);
    forall i, j | 0 <= i < j < |rows| ensures RowKey(rows[i]) != RowKey(rows[j]) {
      var p, q := DeliveredInOrder(w, org, n, i, j);
      assert w[p] in ops && w[q] in ops;
      assert !SameSlot(w[p], w[q]);
    }
  }

  /** Delivering a generated program, collapse raises for exactly one snapshot of one organization:
      the victim's last one, and only when a conflict was injected. */
  lemma ConflictsExactlyWhereInjected(
    settings: Settings, w: seq<FuzzOp>, b: Book, clock: Clock, planted: nat, org: string, n: nat, d: Delivery)
    requires ProgramOk(settings, w, b, clock, planted) && n < settings.snapshots
    requires AllAcceptable(Inputs(OpsAt(w, org, n), d)) && NoCollision(Inputs(OpsAt(w, org, n), d), d.sha)
    requires forall org, id, v :: WellFormed(Mapping(d.content(org, id, v)))
    ensures Conflicting(Inputs(OpsAt(w, org, n), d), d.sha) <==>
              settings.conflict && org == OrgName(0) && n == settings.snapshots - 1
  {
    hide ProgramOk, AllAcceptable, NoCollision, Conflicting, OpsAt, Inputs, Calm, WellFormed, OrgName;
    if settings.conflict && org == OrgName(0) && n == settings.snapshots - 1 {
      InjectedPairConflicts(settings, w, b, clock, planted, d);
    } else {
      GeneratedIsCalm(settings, w, b, clock, planted, org, n);
      CalmCollapses(w, org, n, d, n);
    }
  }
}
