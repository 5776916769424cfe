/** The generator's bookkeeping as a value: what is emitted, reserved, alive and dead, and the
    invariant that ties it to the replay of everything emitted so far. */
module Ledger {
  import opened Naming
  import opened Workload
  import opened Mutation
  import opened Wrappers
  import opened Lists

  datatype Book = Book(
    ops: seq<seq<FuzzOp>>, reserved: seq<set<string>>, alive: set<string>, dead: set<string>,
    keyOrg: map<string, string>, version: map<string, nat>,
    nextOrdinal: nat, insertCount: nat, absentCount: nat)

  /** The clock and retention window the timestamps are anchored to. */
  datatype Clock = Clock(now: int, retention: int)

  function Emitted(p: seq<seq<FuzzOp>>, op: FuzzOp): (r: seq<seq<FuzzOp>>)
    requires op.snapshot < |p|
    ensures |r| == |p|
  {
    p[op.snapshot := p[op.snapshot] + [op]]
  }

  /** The state the in-order replay of everything emitted ends in. */
  function EndState(p: seq<seq<FuzzOp>>): State
  {
    ReplayState(Flatten(p), |p| - 1)
  }

  lemma FlattenEmitted(p: seq<seq<FuzzOp>>, op: FuzzOp)
    requires op.snapshot < |p|
    ensures var a, b := Flatten(p[..op.snapshot]) + p[op.snapshot], Flatten(p[op.snapshot + 1..]);
            Flatten(p) == a + b && Flatten(Emitted(p, op)) == a + [op] + b
  {
    hide Flatten;
    var s := op.snapshot;
    var head, tail := p[..s], p[s + 1..];
    ReplaceAt(p, s, p[s]);
    ReplaceAt(p, s, p[s] + [op]);
    FlattenAround(head, p[s], tail);
    FlattenAround(head, p[s] + [op], tail);
    assert Flatten(head) + (p[s] + [op]) == Flatten(head) + p[s] + [op];
  }

  lemma ReplaceAt<T>(p: seq<T>, s: nat, x: T)
    requires s < |p|
    ensures p[s := x] == p[..s] + [x] + p[s + 1..]
    ensures p[s := p[s]] == p
  {
  }

  ghost predicate NoneFrom(p: seq<seq<FuzzOp>>, s: nat, id: string)
  {
    forall t, op :: s <= t < |p| && op in p[t] ==> op.recordId != id
  }

  lemma {:induction false} NoneFlattened(p: seq<seq<FuzzOp>>, id: string)
    requires NoneFrom(p, 0, id)
    ensures NoneFor(Flatten(p), id)
    decreases |p|
  {
    if p != [] {
      var last := |p| - 1;
      assert forall t, op :: 0 <= t < last && op in p[..last][t] ==> op in p[t];
      NoneFlattened(p[..last], id);
      assert forall op :: op in p[last] ==> op.recordId != id;
    }
  }

  /** Emitting an op that nothing later touches updates exactly its own record. */
  lemma EmitOutcome(p: seq<seq<FuzzOp>>, op: FuzzOp, org: string, id: string)
    requires op.snapshot < |p| && !op.IsConflict() && NoneFrom(p, op.snapshot + 1, op.recordId)
    ensures Lookup(EndState(Emitted(p, op)), org, id) == Lookup(Put(EndState(p), op), org, id)
  {
    var s := op.snapshot;
    FlattenEmitted(p, op);
    var tail := p[s + 1..];
    forall t, o: FuzzOp | 0 <= t < |tail| && o in tail[t] ensures o.recordId != op.recordId {
      assert tail[t] == p[s + 1 + t];
    }
    NoneFlattened(tail, op.recordId);
    SlipIn(Flatten(p[..s]) + p[s], op, Flatten(p[s + 1..]), |p| - 1, org, id);
    PutAt(EndState(p), op, org, id);
  }

  // ---------- the claims about the replayed state ----------

  predicate Fresh(ts: int, clock: Clock)
  {
    clock.now - FRESH_BAND_SECONDS * SECOND <= ts <= clock.now
  }

  /** The three planted populations. */
  predicate BandRow(row: OracleRow, org: string, id: string, clock: Clock)
    requires IsBand(id)
  {
    && id[3..] == org
    && (id[..3] == "xl-" ==> !row.deleted && row.ts == clock.now - clock.retention * XL_LIVE_MULTIPLIER * SECOND)
    && (id[..3] == "st-" ==> row.deleted && row.ts == clock.now - clock.retention * ST_TOMBSTONE_MULTIPLIER * SECOND)
    && (id[..3] == "at-" ==> row.deleted && row.ts == clock.now - ANCIENT_TOMBSTONE_SECONDS * SECOND)
  }

  ghost predicate LiveAt(b: Book, st: State, k: string)
  {
    && k in b.keyOrg && k in b.version
    && var r := Lookup(st, b.keyOrg[k], k);
       r.Some? && !r.value.deleted && r.value.version == b.version[k]
  }

  ghost predicate TombAt(b: Book, st: State, k: string)
  {
    && k in b.keyOrg && k in b.version
    && var r := Lookup(st, b.keyOrg[k], k); r.Some? && r.value.deleted
  }

  ghost predicate TimesOk(st: State, clock: Clock)
  {
    forall org, id :: Lookup(st, org, id).Some? ==>
      if IsBand(id) then BandRow(Lookup(st, org, id).value, org, id, clock)
      else Fresh(Lookup(st, org, id).value.ts, clock)
  }

  ghost predicate PlantedOrg(st: State, org: string)
  {
    Lookup(st, org, "xl-" + org).Some? && Lookup(st, org, "st-" + org).Some? && Lookup(st, org, "at-" + org).Some?
  }

  /** Outside the bands, the replayed records belong to allotted keys and only alive keys are live. */
  ghost predicate Accounted(b: Book, st: State)
  {
    forall org, id :: Lookup(st, org, id).Some? && !IsBand(id) ==>
      && id in b.keyOrg && b.keyOrg[id] == org
      && (id in b.alive || Lookup(st, org, id).value.deleted)
  }

  ghost predicate Claims(b: Book, st: State, clock: Clock, planted: nat)
  {
    && Accounted(b, st)
    && (forall k :: k in b.alive ==> LiveAt(b, st, k))
    && (forall k :: k in b.dead ==> TombAt(b, st, k))
    && TimesOk(st, clock)
    && forall i :: 0 <= i < planted ==> PlantedOrg(st, OrgName(i))
  }

  lemma ClaimsCongruent(b: Book, x: State, y: State, clock: Clock, planted: nat)
    requires Claims(b, x, clock, planted) && forall org, id :: Lookup(x, org, id) == Lookup(y, org, id)
    ensures Claims(b, y, clock, planted)
  {
  }

  // ---------- names ----------

  ghost predicate Allotted(b: Book, k: string)
  {
    || (exists n :: 0 <= n < b.nextOrdinal && k == KeyName(n))
    || (exists n :: 0 <= n < b.absentCount && k == AbsentName(n))
  }

  ghost predicate NamesOk(b: Book)
  {
    && (forall k :: k in b.keyOrg ==> Allotted(b, k))
    && b.alive <= b.keyOrg.Keys && b.dead <= b.keyOrg.Keys
    && b.alive !! b.dead
  }

  lemma AllottedIsNoBand(b: Book, k: string)
    requires Allotted(b, k)
    ensures !IsBand(k)
  {
    if n :| 0 <= n < b.nextOrdinal && k == KeyName(n) {
      FamiliesDisjoint(n, 0);
    } else {
      var n :| 0 <= n < b.absentCount && k == AbsentName(n);
      FamiliesDisjoint(0, n);
    }
  }

  lemma NextKeyIsNew(b: Book)
    requires NamesOk(b)
    ensures KeyName(b.nextOrdinal) !in b.keyOrg && !IsBand(KeyName(b.nextOrdinal))
  {
    var k := KeyName(b.nextOrdinal);
    FamiliesDisjoint(b.nextOrdinal, 0);
    if Allotted(b, k) {
      if n :| 0 <= n < b.nextOrdinal && k == KeyName(n) {
        KeyNamesDistinct(n, b.nextOrdinal);
      } else {
        var n :| 0 <= n < b.absentCount && k == AbsentName(n);
        FamiliesDisjoint(b.nextOrdinal, n);
      }
    }
  }

  lemma NextAbsentIsNew(b: Book)
    requires NamesOk(b)
    ensures AbsentName(b.absentCount) !in b.keyOrg && !IsBand(AbsentName(b.absentCount))
  {
    var k := AbsentName(b.absentCount);
    FamiliesDisjoint(0, b.absentCount);
    if Allotted(b, k) {
      if n :| 0 <= n < b.absentCount && k == AbsentName(n) {
        AbsentNamesDistinct(n, b.absentCount);
      } else {
        var n :| 0 <= n < b.nextOrdinal && k == KeyName(n);
        FamiliesDisjoint(n, b.absentCount);
      }
    }
  }

  // ---------- the invariant while snapshot `c` is filled ----------

  ghost predicate DistinctIds(ops: seq<FuzzOp>)
  {
    forall i, j :: 0 <= i < j < |ops| ==> ops[i].recordId != ops[j].recordId
  }

  ghost predicate Shape(b: Book)
  {
    && |b.ops| == |b.reserved|
    && (forall s, op :: 0 <= s < |b.ops| && op in b.ops[s] ==>
          op.snapshot == s && !op.IsConflict() && (op.recordId in b.keyOrg || IsBand(op.recordId)))
    && forall s :: 0 <= s < |b.ops| ==> DistinctIds(b.ops[s])
  }

  /** Ops already scheduled beyond snapshot `c` belong to keys nobody may touch before they land. */
  ghost predicate Scheduled(b: Book, c: nat, used: set<string>)
    requires |b.ops| == |b.reserved|
  {
    && c < |b.ops|
    && (forall op :: op in b.ops[c] ==> op.recordId in used)
    && (forall s, op :: c < s < |b.ops| && op in b.ops[s] ==> op.recordId in used || op.recordId in b.reserved[c])
    && forall s, op, j :: c < j <= s < |b.ops| && op in b.ops[s] ==> op.recordId in b.reserved[j]
  }

  /** The key set aside for the injected conflict is out of reach after the first snapshot. */
  ghost predicate SetAside(b: Book, key: Option<string>, c: nat, used: set<string>)
    requires |b.ops| == |b.reserved|
  {
    key.Some? ==>
      && key.value in b.alive && key.value in b.version
      && key.value in b.keyOrg && b.keyOrg[key.value] == OrgName(0)
      && NoneFrom(b.ops, 1, key.value)
      && (forall s :: 1 <= s < |b.ops| ==> key.value in b.reserved[s])
      && (c == 0 ==> key.value in used)
  }

  ghost predicate FillInv(
    b: Book, c: nat, used: set<string>, key: Option<string>, clock: Clock, planted: nat)
  {
    && Shape(b) && NamesOk(b)
    && Scheduled(b, c, used)
    && SetAside(b, key, c, used)
    && Claims(b, EndState(b.ops), clock, planted)
  }

  /** The book only gained entries, and kept every key but `k` as alive as it was. */
  ghost predicate Keeps(b: Book, b': Book, k: string)
  {
    && b.version.Keys <= b'.version.Keys
    && b.alive - {k} <= b'.alive
    && forall x :: x in b.keyOrg ==> x in b'.keyOrg && b'.keyOrg[x] == b.keyOrg[x]
  }

  /** An op has been chosen and the book updated for it, but it is not emitted yet. */
  ghost predicate Pending(
    b: Book, b': Book, op: FuzzOp, c: nat, used: set<string>, clock: Clock, planted: nat)
  {
    && c < |b.ops| == |b.reserved|
    && b'.ops == b.ops && b'.reserved == b.reserved
    && op.snapshot == c && !op.IsConflict() && op.recordId !in used
    && NoneFrom(b.ops, c, op.recordId)
    && (op.recordId in b.keyOrg ==> op.recordId !in b.reserved[c])
    && NamesOk(b') && op.recordId in b'.keyOrg && Keeps(b, b', op.recordId)
    && Claims(b', Put(EndState(b.ops), op), clock, planted)
    && (op.scenario == Normal && !op.IsDelete() ==> op.recordId in b'.alive && b'.keyOrg[op.recordId] == op.org)
  }

  lemma UntouchedFrom(b: Book, c: nat, used: set<string>, k: string)
    requires Shape(b) && Scheduled(b, c, used) && k !in used && k !in b.reserved[c]
    ensures NoneFrom(b.ops, c, k)
  {
  }

  lemma NewIsUntouched(b: Book, k: string)
    requires Shape(b) && k !in b.keyOrg && !IsBand(k)
    ensures NoneFrom(b.ops, 0, k)
  {
  }

  lemma EmitShape(b: Book, op: FuzzOp)
    requires Shape(b) && op.snapshot < |b.ops| && !op.IsConflict()
    requires op.recordId in b.keyOrg || IsBand(op.recordId)
    requires NoneFrom(b.ops, op.snapshot, op.recordId)
    ensures Shape(b.(ops := Emitted(b.ops, op)))
  {
    var p := Emitted(b.ops, op);
    forall s, o: FuzzOp | 0 <= s < |p| && o in p[s]
      ensures o.snapshot == s && !o.IsConflict() && (o.recordId in b.keyOrg || IsBand(o.recordId))
    {
      assert o in b.ops[s] || (s == op.snapshot && o == op);
    }
    forall s | 0 <= s < |p| ensures DistinctIds(p[s]) {
      assert DistinctIds(b.ops[s]);
      assert s == op.snapshot ==> forall o :: o in b.ops[s] ==> o.recordId != op.recordId;
    }
  }

  lemma EmitClaims(b: Book, op: FuzzOp, clock: Clock, planted: nat)
    requires op.snapshot < |b.ops| && !op.IsConflict() && NoneFrom(b.ops, op.snapshot + 1, op.recordId)
    requires Claims(b, Put(EndState(b.ops), op), clock, planted)
    ensures Claims(b.(ops := Emitted(b.ops, op)), EndState(Emitted(b.ops, op)), clock, planted)
  {
    hide Claims;
    forall org, id ensures Lookup(Put(EndState(b.ops), op), org, id) == Lookup(EndState(Emitted(b.ops, op)), org, id) {
      EmitOutcome(b.ops, op, org, id);
    }
    ClaimsCongruent(b, Put(EndState(b.ops), op), EndState(Emitted(b.ops, op)), clock, planted);
    SameBookClaims(b, b.(ops := Emitted(b.ops, op)), EndState(Emitted(b.ops, op)), clock, planted);
  }

  lemma SameBookClaims(b: Book, b': Book, st: State, clock: Clock, planted: nat)
    requires b.alive == b'.alive && b.dead == b'.dead && b.keyOrg == b'.keyOrg && b.version == b'.version
    requires Claims(b, st, clock, planted)
    ensures Claims(b', st, clock, planted)
  {
    forall k | k in b'.alive ensures LiveAt(b', st, k) {
      assert LiveAt(b, st, k);
    }
    forall k | k in b'.dead ensures TombAt(b', st, k) {
      assert TombAt(b, st, k);
    }
  }

  /** Emitting the pending op at the current snapshot restores the invariant. */
  lemma EmitPending(
    b: Book, b': Book, op: FuzzOp, c: nat, used: set<string>, key: Option<string>, clock: Clock, planted: nat)
    requires FillInv(b, c, used, key, clock, planted) && Pending(b, b', op, c, used, clock, planted)
    ensures FillInv(b'.(ops := Emitted(b'.ops, op)), c, used + {op.recordId}, key, clock, planted)
    ensures NoneFrom(Emitted(b'.ops, op), c + 1, op.recordId)
    ensures Lookup(EndState(Emitted(b'.ops, op)), op.org, op.recordId) == Some(RowOf(op))
    ensures key.Some? ==> op.recordId != key.value
  {
    PendingShape(b, b', op, c, used, key);
    EmitShape(b', op);
    EmitClaims(b', op, clock, planted);
    EmitOutcome(b'.ops, op, op.org, op.recordId);
    PutAt(EndState(b'.ops), op, op.org, op.recordId);
    EmitNowKeepsSchedule(b', op, c, used, key);
  }

  lemma PendingShape(b: Book, b': Book, op: FuzzOp, c: nat, used: set<string>, key: Option<string>)
    requires Shape(b) && Scheduled(b, c, used) && SetAside(b, key, c, used)
    requires b'.ops == b.ops && b'.reserved == b.reserved && Keeps(b, b', op.recordId)
    requires op.recordId !in used && (op.recordId in b.keyOrg ==> op.recordId !in b.reserved[c])
    ensures Shape(b') && Scheduled(b', c, used) && SetAside(b', key, c, used)
    ensures key.Some? ==> op.recordId != key.value
  {
    hide DistinctIds;
  }

  lemma EmitNowKeepsSchedule(b: Book, op: FuzzOp, c: nat, used: set<string>, key: Option<string>)
    requires |b.ops| == |b.reserved| && Scheduled(b, c, used) && SetAside(b, key, c, used) && op.snapshot == c
    requires key.Some? ==> op.recordId != key.value
    ensures Scheduled(b.(ops := Emitted(b.ops, op)), c, used + {op.recordId})
    ensures SetAside(b.(ops := Emitted(b.ops, op)), key, c, used + {op.recordId})
    ensures NoneFrom(b.ops, c, op.recordId) ==> NoneFrom(Emitted(b.ops, op), c + 1, op.recordId)
  {
    var e := Emitted(b.ops, op);
    assert forall s, o :: 0 <= s < |e| && s != c && o in e[s] ==> o in b.ops[s];
    assert forall o :: o in e[c] ==> o in b.ops[c] || o == op;
  }

  lemma EmitLaterKeepsSchedule(
    b: Book, reserved: seq<set<string>>, dup: FuzzOp, c: nat, used: set<string>, key: Option<string>)
    requires |b.ops| == |b.reserved| == |reserved| && Scheduled(b, c, used) && SetAside(b, key, c, used)
    requires c < dup.snapshot < |b.ops| && dup.recordId in used
    requires key.Some? ==> dup.recordId != key.value
    requires forall s :: 0 <= s < |reserved| ==> b.reserved[s] <= reserved[s]
    requires forall s :: c < s <= dup.snapshot ==> dup.recordId in reserved[s]
    ensures Scheduled(b.(ops := Emitted(b.ops, dup), reserved := reserved), c, used)
    ensures SetAside(b.(ops := Emitted(b.ops, dup), reserved := reserved), key, c, used)
  {
    var e := Emitted(b.ops, dup);
    assert forall s, o :: 0 <= s < |e| && s != dup.snapshot && o in e[s] ==> o in b.ops[s];
    assert forall o :: o in e[dup.snapshot] ==> o in b.ops[dup.snapshot] || o == dup;
  }

  /** Scheduling a verbatim redelivery later keeps the invariant: the key is reserved until then. */
  lemma EmitDuplicate(
    b: Book, op: FuzzOp, target: nat, c: nat, used: set<string>, key: Option<string>, clock: Clock, planted: nat)
    requires FillInv(b, c, used, key, clock, planted) && c < target < |b.ops|
    requires op.scenario == Normal && op.snapshot == c && op.recordId in used && !op.IsDelete()
    requires op.recordId in b.alive && b.keyOrg[op.recordId] == op.org
    requires key.Some? ==> op.recordId != key.value
    requires NoneFrom(b.ops, c + 1, op.recordId)
    requires Lookup(EndState(b.ops), op.org, op.recordId) == Some(RowOf(op))
    ensures var dup := op.(snapshot := target, scenario := Duplicate);
            FillInv(b.(ops := Emitted(b.ops, dup), reserved := ReserveUpTo(b.reserved, c + 1, target, op.recordId)),
                    c, used, key, clock, planted)
  {
    assert |b.ops| == |b.reserved| && op.recordId in b.keyOrg;
    hide Claims, EndState, Lookup, Scheduled, SetAside, NoneFrom, RowOf, Emitted, NormalizeOperation, Shape, NamesOk;
    var dup := op.(snapshot := target, scenario := Duplicate);
    var r := b.(reserved := ReserveUpTo(b.reserved, c + 1, target, op.recordId));
    NoneFromLater(b.ops, c + 1, target, op.recordId);
    NoneFromLater(b.ops, c + 1, target + 1, op.recordId);
    DuplicateKeepsClaims(b, r, op, dup, clock, planted);
    DuplicateShape(b, r, dup);
    EmitLaterKeepsSchedule(b, r.reserved, dup, c, used, key);
    NamesAlone(b, r.(ops := Emitted(r.ops, dup)));
  }

  lemma DuplicateKeepsClaims(b: Book, r: Book, op: FuzzOp, dup: FuzzOp, clock: Clock, planted: nat)
    requires Claims(b, EndState(b.ops), clock, planted) && NamesOk(b)
    requires op.recordId in b.alive && op.recordId in b.keyOrg && b.keyOrg[op.recordId] == op.org && !op.IsDelete()
    requires Lookup(EndState(b.ops), op.org, op.recordId) == Some(RowOf(op))
    requires dup == op.(snapshot := dup.snapshot, scenario := Duplicate) && dup.snapshot < |b.ops|
    requires NoneFrom(b.ops, dup.snapshot + 1, dup.recordId) && r == b.(reserved := r.reserved)
    ensures Claims(r.(ops := Emitted(r.ops, dup)), EndState(Emitted(r.ops, dup)), clock, planted)
  {
    hide Claims, EndState, Lookup, Put, NoneFrom, RowOf, Emitted, NormalizeOperation, NamesOk;
    DuplicateClaims(b, op, dup, clock, planted);
    SameBookClaims(b, r, Put(EndState(b.ops), dup), clock, planted);
    EmitClaims(r, dup, clock, planted);
  }

  lemma DuplicateShape(b: Book, r: Book, dup: FuzzOp)
    requires Shape(b) && NamesOk(b) && r == b.(reserved := r.reserved) && |r.reserved| == |b.reserved|
    requires dup.snapshot < |b.ops| && dup.scenario == Duplicate && dup.recordId in b.alive
    requires NoneFrom(b.ops, dup.snapshot, dup.recordId)
    ensures Shape(r.(ops := Emitted(r.ops, dup)))
  {
    hide Shape, NoneFrom;
    ReservedShape(b, r);
    EmitShape(r, dup);
  }

  lemma NoneFromLater(p: seq<seq<FuzzOp>>, s: nat, t: nat, id: string)
    requires NoneFrom(p, s, id) && s <= t
    ensures NoneFrom(p, t, id)
  {
  }

  lemma ReservedShape(b: Book, r: Book)
    requires Shape(b) && r.ops == b.ops && r.keyOrg == b.keyOrg && |r.reserved| == |b.reserved|
    ensures Shape(r)
  {
  }

  lemma NamesAlone(b: Book, r: Book)
    requires NamesOk(b) && r.keyOrg == b.keyOrg && r.alive == b.alive && r.dead == b.dead
    requires r.nextOrdinal == b.nextOrdinal && r.absentCount == b.absentCount
    ensures NamesOk(r)
  {
    forall k | k in r.keyOrg ensures Allotted(r, k) {
      assert Allotted(b, k);
    }
  }

  function ReserveUpTo(reserved: seq<set<string>>, lo: nat, hi: nat, id: string): (r: seq<set<string>>)
    requires hi < |reserved|
    ensures |r| == |reserved|
    ensures forall s :: 0 <= s < |r| ==> r[s] == if lo <= s <= hi then reserved[s] + {id} else reserved[s]
  {
    seq(|reserved|, s requires 0 <= s < |reserved| => if lo <= s <= hi then reserved[s] + {id} else reserved[s])
  }

  lemma DuplicateClaims(b: Book, op: FuzzOp, dup: FuzzOp, clock: Clock, planted: nat)
    requires Claims(b, EndState(b.ops), clock, planted) && NamesOk(b)
    requires op.recordId in b.alive && b.keyOrg[op.recordId] == op.org && !op.IsDelete()
    requires Lookup(EndState(b.ops), op.org, op.recordId) == Some(RowOf(op))
    requires dup.org == op.org && dup.recordId == op.recordId && dup.op == op.op && dup.ts == op.ts
    requires dup.version == op.version
    ensures Claims(b, Put(EndState(b.ops), dup), clock, planted)
  {
    AllottedIsNoBand(b, op.recordId);
    assert LiveAt(b, EndState(b.ops), op.recordId);
    PutClaims(b, b, EndState(b.ops), dup, clock, planted);
  }

  /** Recording one fresh op for a key, alive or dead as the op says, keeps every claim. */
  lemma PutClaims(b: Book, b': Book, st: State, op: FuzzOp, clock: Clock, planted: nat)
    requires Claims(b, st, clock, planted)
    requires !IsBand(op.recordId) && Fresh(op.ts, clock)
    requires b'.alive - {op.recordId} <= b.alive && b'.dead - {op.recordId} <= b.dead
    requires forall k :: k in b.keyOrg && k != op.recordId ==> k in b'.keyOrg && b'.keyOrg[k] == b.keyOrg[k]
    requires forall k :: k in b.version && k != op.recordId ==> k in b'.version && b'.version[k] == b.version[k]
    requires b.alive - {op.recordId} <= b'.alive
    requires op.recordId in b.keyOrg ==> b.keyOrg[op.recordId] == op.org
    requires op.recordId in b'.keyOrg && b'.keyOrg[op.recordId] == op.org
    requires op.IsDelete() || op.recordId in b'.alive
    requires op.recordId in b'.alive + b'.dead ==> op.recordId in b'.version
    requires op.recordId in b'.alive ==> !op.IsDelete() && op.version == b'.version[op.recordId]
    requires op.recordId in b'.dead ==> op.IsDelete()
    ensures Claims(b', Put(st, op), clock, planted)
  {
    var after := Put(st, op);
    forall org, id ensures Lookup(after, org, id)
        == if org == op.org && id == op.recordId then Some(RowOf(op)) else Lookup(st, org, id) {
      PutAt(st, op, org, id);
    }
    hide Put, Lookup;
    assert Accounted(b', after);
    forall k | k in b'.alive ensures LiveAt(b', after, k) {
      assert k != op.recordId ==> LiveAt(b, st, k);
    }
    forall k | k in b'.dead ensures TombAt(b', after, k) {
      assert k != op.recordId ==> TombAt(b, st, k);
    }
    forall i | 0 <= i < planted ensures PlantedOrg(after, OrgName(i)) {
      assert PlantedOrg(st, OrgName(i));
    }
  }

  /** Moving on to the next snapshot. */
  lemma NextSnapshot(
    b: Book, c: nat, used: set<string>, next: set<string>, key: Option<string>, clock: Clock, planted: nat)
    requires FillInv(b, c, used, key, clock, planted) && c + 1 < |b.ops|
    requires forall op :: op in b.ops[c + 1] ==> op.recordId in next
    ensures FillInv(b, c + 1, next, key, clock, planted)
  {
    hide Claims, DistinctIds, Allotted;
  }
}
