/** The fuzz workload of `bench/fuzz_workload.py`: ops, in-order replay, and retention. */
module Workload {
  import opened Naming
  import opened Mutation
  import opened Wrappers

  datatype Scenario =
    Normal | Duplicate | AbsentDelete | Revive | Redelete | Xl | St | At | ConflictUpdate | ConflictDelete

  datatype FuzzOp = FuzzOp(
    snapshot: nat, org: string, recordId: string, op: string, ts: int, version: nat, scenario: Scenario)
  {
    predicate IsDelete() { NormalizeOperation(op) == Success("delete") }

    predicate IsConflict() { scenario == ConflictUpdate || scenario == ConflictDelete }
  }

  datatype OracleRow = OracleRow(ts: int, deleted: bool, version: nat, snapshot: nat, scenario: Scenario)

  type OrgState = map<string, OracleRow>

  type State = map<string, OrgState>

  function RowOf(op: FuzzOp): OracleRow
  {
    OracleRow(op.ts, op.IsDelete(), op.version, op.snapshot, op.scenario)
  }

  predicate Replayed(op: FuzzOp, cap: int)
  {
    op.snapshot <= cap && !op.IsConflict()
  }

  function Put(state: State, op: FuzzOp): State
  {
    var rows := if op.org in state then state[op.org] else map[];
    state[op.org := rows[op.recordId := RowOf(op)]]
  }

  /** `replay_state`: every op in order, later ones overwriting earlier ones. */
  function ReplayState(ops: seq<FuzzOp>, cap: int): State
  {
    if ops == [] then map[]
    else
      var before := ReplayState(ops[..|ops| - 1], cap);
      var op := ops[|ops| - 1];
      if Replayed(op, cap) then Put(before, op) else before
  }

  method Replay(ops: seq<FuzzOp>, cap: int) returns (state: State)
    ensures state == ReplayState(ops, cap)
  {
    state := map[];
    for i := 0 to |ops|
      invariant state == ReplayState(ops[..i], cap)
    {
      assert ops[..i + 1][..i] == ops[..i];
      var op := ops[i];
      if op.snapshot > cap || op.IsConflict() {
        continue;
      }
      if op.org !in state {
        state := state[op.org := map[]];
      }
      state := state[op.org := state[op.org][op.recordId := RowOf(op)]];
    }
    assert ops[..|ops|] == ops;
  }

  function Lookup(state: State, org: string, id: string): Option<OracleRow>
  {
    if org in state && id in state[org] then Some(state[org][id]) else None
  }

  // ---------- retention ----------

  const FRESH_BAND_SECONDS: int := 300
  const REPLAY_HORIZON_SECONDS: int := 2_592_000
  const ANCIENT_TOMBSTONE_SECONDS: int := 3_456_000
  const XL_LIVE_MULTIPLIER: int := 10
  const ST_TOMBSTONE_MULTIPLIER: int := 5
  const SECOND: int := 1_000_000

  /** The two-clock predicate: live rows by the retention window, tombstones by the longer horizon. */
  predicate Expired(row: OracleRow, retention: int, now: int)
  {
    var liveCutoff := now - retention * SECOND;
    var horizon := if retention >= REPLAY_HORIZON_SECONDS then retention else REPLAY_HORIZON_SECONDS;
    var tombCutoff := now - horizon * SECOND;
    (!row.deleted && row.ts < liveCutoff) || (row.deleted && row.ts < tombCutoff)
  }

  function Retained(state: State, retention: Option<int>, now: int): State
  {
    if retention.None? then state
    else map org | org in state :: Unexpired(state[org], retention.value, now)
  }

  /** `apply_retention`; `None` is the `off` mode. */
  method ApplyRetention(state: State, retention: Option<int>, now: int) returns (kept: State)
    ensures kept == Retained(state, retention, now)
  {
    if retention.None? {
      return state;
    }
    kept := map[];
    var orgs := state.Keys;
    while orgs != {}
      invariant orgs <= state.Keys && kept.Keys == state.Keys - orgs
      invariant forall org :: org in kept ==> kept[org] == Unexpired(state[org], retention.value, now)
      decreases |orgs|
    {
      var org :| org in orgs;
      var orgKept := KeepUnexpired(state[org], retention.value, now);
      kept := kept[org := orgKept];
      orgs := orgs - {org};
    }
  }

  function Unexpired(rows: OrgState, retention: int, now: int): OrgState
  {
    map id | id in rows && !Expired(rows[id], retention, now) :: rows[id]
  }

  method KeepUnexpired(rows: OrgState, retention: int, now: int) returns (kept: OrgState)
    ensures kept == Unexpired(rows, retention, now)
  {
    hide Expired;
    kept := map[];
    var ids := rows.Keys;
    while ids != {}
      invariant ids <= rows.Keys
      invariant forall id :: id in kept <==> id in rows && id !in ids && !Expired(rows[id], retention, now)
      invariant forall id :: id in kept ==> kept[id] == rows[id]
      decreases |ids|
    {
      var id :| id in ids;
      if !Expired(rows[id], retention, now) {
        kept := kept[id := rows[id]];
      }
      ids := ids - {id};
    }
  }

  // ---------- replay of a list with one op slipped in ----------

  lemma PutAt(state: State, op: FuzzOp, org: string, id: string)
    ensures Lookup(Put(state, op), org, id) ==
            if org == op.org && id == op.recordId then Some(RowOf(op)) else Lookup(state, org, id)
  {
  }

  ghost predicate NoneFor(ops: seq<FuzzOp>, id: string)
  {
    forall i :: 0 <= i < |ops| ==> ops[i].recordId != id
  }

  /** What the last op of a list does. */
  lemma ReplayLast(a: seq<FuzzOp>, op: FuzzOp, cap: int)
    ensures ReplayState(a + [op], cap) ==
            if Replayed(op, cap) then Put(ReplayState(a, cap), op) else ReplayState(a, cap)
  {
    hide Put, Replayed;
    assert (a + [op])[..|a|] == a;
  }

  /** Slipping in an op that no later op of the list touches updates exactly its own record. */
  lemma {:induction false} SlipIn(a: seq<FuzzOp>, op: FuzzOp, b: seq<FuzzOp>, cap: int, org: string, id: string)
    requires Replayed(op, cap) && NoneFor(b, op.recordId)
    ensures Lookup(ReplayState(a + [op] + b, cap), org, id) ==
            if org == op.org && id == op.recordId then Some(RowOf(op)) else Lookup(ReplayState(a + b, cap), org, id)
    decreases |b|
  {
    hide Lookup, Put, RowOf, Replayed, ReplayState;
    if b == [] {
      assert a + [op] + b == a + [op] && a + b == a;
      ReplayLast(a, op, cap);
      PutAt(ReplayState(a, cap), op, org, id);
    } else {
      var front, last := b[..|b| - 1], b[|b| - 1];
      assert last.recordId != op.recordId;
      SlipIn(a, op, front, cap, org, id);
      assert a + [op] + b == (a + [op] + front) + [last] && a + b == (a + front) + [last];
      ReplayLast(a + [op] + front, last, cap);
      ReplayLast(a + front, last, cap);
      PutAt(ReplayState(a + [op] + front, cap), last, org, id);
      PutAt(ReplayState(a + front, cap), last, org, id);
    }
  }

  /** Ops the replay skips leave no trace. */
  lemma {:induction false} SkipIn(a: seq<FuzzOp>, op: FuzzOp, b: seq<FuzzOp>, cap: int)
    requires !Replayed(op, cap)
    ensures ReplayState(a + [op] + b, cap) == ReplayState(a + b, cap)
    decreases |b|
  {
    hide Put, Replayed, ReplayState;
    if b == [] {
      assert a + [op] + b == a + [op] && a + b == a;
      ReplayLast(a, op, cap);
    } else {
      var front, last := b[..|b| - 1], b[|b| - 1];
      SkipIn(a, op, front, cap);
      assert a + [op] + b == (a + [op] + front) + [last] && a + b == (a + front) + [last];
      ReplayLast(a + [op] + front, last, cap);
      ReplayLast(a + front, last, cap);
    }
  }

  // ---------- the operation vocabulary ----------

  predicate Plain(s: string)
  {
    s != "" && forall i :: 0 <= i < |s| ==> 'a' <= s[i] <= 'z'
  }

  lemma {:induction false} LowerKeeps(s: string)
    requires forall i :: 0 <= i < |s| ==> 'a' <= s[i] <= 'z'
    ensures Lower(s) == s
  {
    if s != "" {
      LowerKeeps(s[1..]);
      assert s == [s[0]] + s[1..];
    }
  }

  lemma PlainWordStays(s: string)
    requires Plain(s)
    ensures Lower(StripRight(StripLeft(s))) == s
  {
    LowerKeeps(s);
    assert !IsSpace(s[0]) && !IsSpace(s[|s| - 1]);
    hide Lower, IsSpace;
  }

  lemma UpsertSpelling(s: string)
    requires s in UPSERT_OPERATIONS
    ensures NormalizeOperation(s) == Success("upsert")
  {
    hide Lower, StripLeft, StripRight;
    assert Plain(s);
    PlainWordStays(s);
  }

  lemma DeleteSpelling(s: string)
    requires s in DELETE_OPERATIONS
    ensures NormalizeOperation(s) == Success("delete")
  {
    hide Lower, StripLeft, StripRight;
    assert Plain(s) && s[0] == 'd';
    PlainWordStays(s);
    assert s !in UPSERT_OPERATIONS;
  }

  /** Retention keeps a live row up to its window and a tombstone up to the longer of the window and
      thirty days, in microseconds, and with no window it keeps everything. */
  lemma KeptExactly(st: State, retention: Option<int>, now: int, org: string, id: string)
    ensures var was := Lookup(st, org, id);
            Lookup(Retained(st, retention, now), org, id) ==
              if was.None? || retention.None? then was
              else
                var age := now - was.value.ts;
                if was.value.deleted && age <= 2_592_000_000_000 then was
                else if age <= retention.value * 1_000_000 then was
                else None
  {
  }
}
