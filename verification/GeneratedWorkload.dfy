/** `generate_workload` as a whole: what every generated op program satisfies, for every seed. */
module GeneratedWorkload {
  import opened Naming
  import opened Mutation
  import opened Workload
  import opened Ledger
  import opened Generator
  import opened Wrappers
  import opened Lists

  // ---------- the op budget ----------

  function Sum(s: seq<nat>): nat
  {
    if s == [] then 0 else Sum(s[..|s| - 1]) + s[|s| - 1]
  }

  function SnapshotOpCounts(snapshots: nat, ops: nat): (counts: seq<nat>)
    requires snapshots > 0
    ensures |counts| == snapshots
  {
    var base, remainder := ops / snapshots, ops % snapshots;
    seq(snapshots, i => base + if i < remainder then 1 else 0)
  }

  lemma {:induction false} PrefixSum(counts: seq<nat>, base: nat, remainder: nat, k: nat)
    requires k <= |counts| && forall i :: 0 <= i < |counts| ==> counts[i] == base + if i < remainder then 1 else 0
    ensures Sum(counts[..k]) == k * base + if k < remainder then k else remainder
  {
    if k > 0 {
      PrefixSum(counts, base, remainder, k - 1);
      assert counts[..k][..k - 1] == counts[..k - 1];
      assert k * base == (k - 1) * base + base;
    }
  }

  /** The budget is spent exactly, and no two snapshots differ by more than one op, earlier ones first. */
  lemma CountsSplitEvenly(snapshots: nat, ops: nat)
    requires snapshots > 0
    ensures Sum(SnapshotOpCounts(snapshots, ops)) == ops
    ensures forall i, j :: 0 <= i < snapshots && 0 <= j < snapshots ==>
              SnapshotOpCounts(snapshots, ops)[i] <= SnapshotOpCounts(snapshots, ops)[j] + 1
    ensures forall i, j :: 0 <= i <= j < snapshots ==>
              SnapshotOpCounts(snapshots, ops)[j] <= SnapshotOpCounts(snapshots, ops)[i]
  {
    var counts := SnapshotOpCounts(snapshots, ops);
    PrefixSum(counts, ops / snapshots, ops % snapshots, snapshots);
    assert counts[..snapshots] == counts;
  }

  // ---------- the flat op program ----------

  predicate SameSlot(a: FuzzOp, b: FuzzOp)
  {
    a.snapshot == b.snapshot && a.recordId == b.recordId
  }

  ghost predicate InOrder(w: seq<FuzzOp>)
  {
    forall i, j :: 0 <= i < j < |w| ==> w[i].snapshot <= w[j].snapshot
  }

  ghost predicate OncePerSnapshot(w: seq<FuzzOp>)
  {
    forall i, j :: 0 <= i < j < |w| ==> !SameSlot(w[i], w[j])
  }

  ghost predicate Placed(p: seq<seq<FuzzOp>>)
  {
    && (forall s, op :: 0 <= s < |p| && op in p[s] ==> op.snapshot == s && !op.IsConflict())
    && forall s :: 0 <= s < |p| ==> DistinctIds(p[s])
  }

  lemma {:induction false} FlattenInOrder(p: seq<seq<FuzzOp>>)
    requires Placed(p)
    ensures InOrder(Flatten(p)) && OncePerSnapshot(Flatten(p))
    ensures forall op :: op in Flatten(p) ==> op.snapshot < |p| && !op.IsConflict()
    decreases |p|
  {
    if p != [] {
      var front, last := p[..|p| - 1], p[|p| - 1];
      assert forall s, op :: 0 <= s < |front| && op in front[s] ==> op in p[s];
      assert forall s :: 0 <= s < |front| ==> front[s] == p[s];
      FlattenInOrder(front);
      hide Flatten, Placed;
      assert forall op :: op in last ==> op.snapshot == |p| - 1 && !op.IsConflict() by {
        PlacedAt(p, |p| - 1);
      }
      assert DistinctIds(last) by {
        PlacedAt(p, |p| - 1);
      }
      FlattenLast(p);
      AppendInOrder(Flatten(front), last, |p| - 1);
    }
  }

  lemma PlacedAt(p: seq<seq<FuzzOp>>, s: nat)
    requires Placed(p) && s < |p|
    ensures DistinctIds(p[s]) && forall op :: op in p[s] ==> op.snapshot == s && !op.IsConflict()
  {
  }

  lemma AppendInOrder(a: seq<FuzzOp>, b: seq<FuzzOp>, s: nat)
    requires InOrder(a) && OncePerSnapshot(a) && DistinctIds(b)
    requires (forall op :: op in a ==> op.snapshot < s) && (forall op :: op in b ==> op.snapshot == s)
    ensures InOrder(a + b) && OncePerSnapshot(a + b)
  {
    var w := a + b;
    forall i, j | 0 <= i < j < |w| ensures w[i].snapshot <= w[j].snapshot && !SameSlot(w[i], w[j]) {
      if j < |a| {
        assert !SameSlot(a[i], a[j]);
      } else {
        assert w[j] in b;
        assert if i < |a| then w[i] in a else w[i] in b;
      }
    }
  }

  // ---------- what generation promises ----------

  ghost predicate ProgramOk(s: Settings, w: seq<FuzzOp>, b: Book, clock: Clock, planted: nat)
  {
    && NamesOk(b)
    && InOrder(w) && (forall op :: op in w ==> op.snapshot < s.snapshots)
    && Claims(b, ReplayState(w, s.snapshots - 1), clock, planted)
    && (!s.conflict ==> OncePerSnapshot(w) && forall op :: op in w ==> !op.IsConflict())
    && (s.conflict ==>
          && |w| >= 2 && OncePerSnapshot(w[..|w| - 1])
          && (forall op :: op in w[..|w| - 2] ==> !op.IsConflict() && !SameSlot(op, w[|w| - 1]))
          && w[|w| - 1].recordId in b.alive && w[|w| - 1].recordId in b.version
          && ConflictPair(w[|w| - 2], w[|w| - 1], w[|w| - 1].recordId, b.version[w[|w| - 1].recordId] + 1,
                          s.snapshots - 1, clock))
  }

  lemma CleanProgram(s: Settings, b: Book, clock: Clock, planted: nat)
    requires |b.ops| == s.snapshots >= 2 && !s.conflict
    requires Filled(b, s.snapshots - 1, None, clock, planted)
    ensures ProgramOk(s, Flatten(b.ops), b, clock, planted)
  {
    var used :| FillInv(b, s.snapshots - 1, used, None, clock, planted);
    FlattenInOrder(b.ops);
    hide Flatten, InOrder, OncePerSnapshot, Claims, DistinctIds, Allotted;
  }

  /** The pair goes last, and the replay skips it. */
  lemma PairIsSkipped(p: seq<seq<FuzzOp>>, up: FuzzOp, del: FuzzOp)
    requires p != [] && up.snapshot == del.snapshot == |p| - 1 && up.IsConflict() && del.IsConflict()
    ensures Flatten(Emitted(Emitted(p, up), del)) == Flatten(p) + [up, del]
    ensures ReplayState(Flatten(p) + [up, del], |p| - 1) == EndState(p)
  {
    assert !Replayed(up, |p| - 1) && !Replayed(del, |p| - 1);
    hide Flatten, ReplayState, Emitted, Replayed;
    EmitAtEnd(p, up);
    EmitAtEnd(Emitted(p, up), del);
    SkippedPair(Flatten(p), up, del, |p| - 1);
  }

  lemma SkippedPair(w: seq<FuzzOp>, up: FuzzOp, del: FuzzOp, cap: int)
    requires !Replayed(up, cap) && !Replayed(del, cap)
    ensures w + [up] + [del] == w + [up, del]
    ensures ReplayState(w + [up, del], cap) == ReplayState(w, cap)
  {
    hide ReplayState, Replayed, Put;
    assert w + [up] + [del] == w + [up, del];
    ReplayLast(w, up, cap);
    ReplayLast(w + [up], del, cap);
  }

  lemma ConflictProgram(
    s: Settings, b: Book, key: string, up: FuzzOp, del: FuzzOp, clock: Clock, planted: nat)
    requires |b.ops| == s.snapshots >= 2 && s.conflict
    requires Filled(b, s.snapshots - 1, Some(key), clock, planted)
    requires key in b.version && ConflictPair(up, del, key, b.version[key] + 1, s.snapshots - 1, clock)
    ensures Flatten(Emitted(Emitted(b.ops, up), del)) == Flatten(b.ops) + [up, del]
    ensures ProgramOk(s, Flatten(b.ops) + [up, del], b, clock, planted)
  {
    hide FillInv, NamesOk, Claims, NormalizeOperation, Fresh, OrgName, Shape, Flatten, ReplayState, Emitted, EndState,
         InOrder, OncePerSnapshot, Placed;
    var used :| FillInv(b, s.snapshots - 1, used, Some(key), clock, planted);
    FillFacts(b, s.snapshots - 1, used, key, clock, planted);
    FlattenInOrder(b.ops);
    PairIsSkipped(b.ops, up, del);
    var w0 := Flatten(b.ops);
    PairAppended(w0, up, del, s.snapshots - 1);
  }

  lemma FillFacts(b: Book, c: nat, used: set<string>, key: string, clock: Clock, planted: nat)
    requires FillInv(b, c, used, Some(key), clock, planted) && |b.ops| >= 2
    ensures NamesOk(b) && Claims(b, EndState(b.ops), clock, planted) && key in b.alive && Placed(b.ops)
    ensures forall op :: op in Flatten(b.ops) && op.recordId == key ==> op.snapshot == 0
  {
    hide Claims, NamesOk, DistinctIds, Allotted;
    forall op | op in Flatten(b.ops) && op.recordId == key ensures op.snapshot == 0 {
      var s := Located(b.ops, op);
    }
  }

  lemma EmitAtEnd(p: seq<seq<FuzzOp>>, op: FuzzOp)
    requires p != [] && op.snapshot == |p| - 1
    ensures Flatten(Emitted(p, op)) == Flatten(p) + [op]
  {
    var e, n := Emitted(p, op), |p| - 1;
    FlattenLast(p);
    FlattenLast(e);
    hide Flatten;
    assert e[..n] == p[..n] && e[n] == p[n] + [op];
    assert Flatten(p[..n]) + (p[n] + [op]) == Flatten(p[..n]) + p[n] + [op];
  }

  lemma PairAppended(w0: seq<FuzzOp>, up: FuzzOp, del: FuzzOp, last: nat)
    requires InOrder(w0) && OncePerSnapshot(w0) && last > 0 && forall op :: op in w0 ==> op.snapshot <= last
    requires forall op :: op in w0 && op.recordId == up.recordId ==> op.snapshot == 0
    requires up.snapshot == del.snapshot == last && up.recordId == del.recordId
    ensures InOrder(w0 + [up, del]) && OncePerSnapshot(w0 + [up])
    ensures (w0 + [up, del])[..|w0| + 1] == w0 + [up] && (w0 + [up, del])[..|w0|] == w0
    ensures forall op :: op in w0 ==> !SameSlot(op, del)
  {
    var w := w0 + [up, del];
    assert forall i :: 0 <= i < |w0| ==> w[i] in w0;
  }

  /** The steps before the random fill: bands, baseline keys, the key set aside. */
  method StartBuilder(settings: Settings, now: int) returns (builder: WorkloadBuilder, key: Option<string>)
    requires ValidSettings(settings)
    ensures fresh(builder) && builder.settings == settings && builder.clock == ClockOf(settings, now)
    ensures |builder.ops| == settings.snapshots && key.Some? == settings.conflict
    ensures Baselines(builder.ops, settings.tenants)
    ensures FillInv(builder.Model(), 0, IdsOf(builder.ops[0]), key, builder.clock, PlantedOrgs(settings))
  {
    builder := new WorkloadBuilder(settings, now);
    NothingEmitted(builder.Model(), builder.clock);
    hide PlantInv, SeedInv, FillInv, Baselines;
    if settings.retention.Some? {
      builder.PlantRetentionBands();
    }
    ReadyToSeed(builder.Model(), PlantedOrgs(settings), builder.clock);
    builder.SeedOrgs(PlantedOrgs(settings));
    key := builder.ReserveConflictKey(PlantedOrgs(settings));
  }

  /** `generate_workload`, with the builder it ran: the program is what the builder emitted, every
      organization has its baseline insert, and the replay ends as the builder's bookkeeping says. */
  method GenerateWorkload(settings: Settings, now: int) returns (w: seq<FuzzOp>, builder: WorkloadBuilder)
    requires ValidSettings(settings)
    ensures w == Flatten(builder.ops)
    ensures ProgramOk(settings, w, builder.Model(), ClockOf(settings, now), PlantedOrgs(settings))
    ensures forall i :: 0 <= i < settings.tenants ==> Baseline(w, i)
  {
    hide FillInv, Filled, Flatten, ProgramOk, Emitted, ConflictPair, IdsOf, SnapshotOpCounts, PlantedOrgs, Baselines,
         Baseline, Extends;
    var key;
    builder, key := StartBuilder(settings, now);
    ghost var planted, start := PlantedOrgs(settings), builder.ops;
    var counts := SnapshotOpCounts(settings.snapshots, settings.ops);
    builder.FillSnapshots(counts, key, planted);
    ghost var book := builder.Model();
    if key.Some? {
      AsideKnown(book, settings.snapshots - 1, key.value, builder.clock, planted);
      var up, del := builder.InjectConflict(key.value);
      ConflictProgram(settings, book, key.value, up, del, builder.clock, planted);
      EmitExtends(book.ops, up);
      EmitExtends(Emitted(book.ops, up), del);
      ExtendsTransitive(start, book.ops, Emitted(book.ops, up));
      ExtendsTransitive(start, Emitted(book.ops, up), builder.ops);
    } else {
      CleanProgram(settings, book, builder.clock, planted);
    }
    w := Flatten(builder.ops);
    ProgramOkAlone(settings, w, book, builder.Model(), builder.clock, planted);
    BaselinesStay(start, builder.ops, settings.tenants);
    forall i | 0 <= i < settings.tenants ensures Baseline(w, i) {
      BaselineFlattened(builder.ops, settings.tenants, i);
    }
  }

  lemma ProgramOkAlone(s: Settings, w: seq<FuzzOp>, b: Book, b': Book, clock: Clock, planted: nat)
    requires ProgramOk(s, w, b, clock, planted) && b' == b.(ops := b'.ops)
    ensures ProgramOk(s, w, b', clock, planted)
  {
    NamesAlone(b, b');
    SameBookClaims(b, b', ReplayState(w, s.snapshots - 1), clock, planted);
    hide NamesOk, Claims, ReplayState, InOrder, OncePerSnapshot, ConflictPair;
  }

  lemma BaselineFlattened(p: seq<seq<FuzzOp>>, n: nat, i: nat)
    requires Baselines(p, n) && i < n
    ensures Baseline(Flatten(p), i)
  {
    hide OrgName, KeyName, NormalizeOperation, Flatten;
    assert Baseline(p[0], i);
    var op :| op in p[0] && op.snapshot == 0 && op.org == OrgName(i) && op.recordId == KeyName(i) && !op.IsDelete();
    FlattenHas(p, 0, op);
  }

  /** How many organizations carry retention bands. */
  function PlantedOrgs(settings: Settings): nat
  {
    if settings.retention.Some? then settings.tenants else 0
  }

  function ClockOf(settings: Settings, now: int): Clock
  {
    Clock(now, if settings.retention.Some? then settings.retention.value else 0)
  }

  lemma AsideKnown(b: Book, c: nat, key: string, clock: Clock, planted: nat)
    requires Filled(b, c, Some(key), clock, planted)
    ensures key in b.version
  {
    var used :| FillInv(b, c, used, Some(key), clock, planted);
  }

  lemma {:induction false} NothingReplayed(p: seq<seq<FuzzOp>>)
    requires forall s :: 0 <= s < |p| ==> p[s] == []
    ensures Flatten(p) == []
    decreases |p|
  {
    if p != [] {
      NothingReplayed(p[..|p| - 1]);
    }
  }

  lemma NothingEmitted(b: Book, clock: Clock)
    requires |b.ops| == |b.reserved| >= 2 && b.alive == {} && b.dead == {} && b.keyOrg == map[] && b.nextOrdinal == 0
    requires forall s :: 0 <= s < |b.ops| ==> b.ops[s] == []
    ensures PlantInv(b, 0, clock)
  {
    NothingReplayed(b.ops);
  }

  lemma ReadyToSeed(b: Book, planted: nat, clock: Clock)
    requires PlantInv(b, planted, clock)
    ensures SeedInv(b, 0, clock, planted)
  {
    PlantedIsReady(b, planted, clock, IdsOf(b.ops[0]));
    hide Claims, DistinctIds, BandOf, FillInv;
  }

  // ---------- what the program promises, spelled out ----------

  /** Two ops share a snapshot and a key exactly when they are the injected pair. */
  lemma OnlyThePairShares(s: Settings, w: seq<FuzzOp>, b: Book, clock: Clock, planted: nat, i: nat, j: nat)
    requires ProgramOk(s, w, b, clock, planted) && i < j < |w|
    ensures SameSlot(w[i], w[j]) <==> s.conflict && i == |w| - 2 && j == |w| - 1
  {
    hide Claims, NamesOk, InOrder, NormalizeOperation, Fresh, OrgName;
    if s.conflict && j == |w| - 1 {
      if i < |w| - 2 {
        assert w[i] == w[..|w| - 2][i];
      }
    } else if s.conflict {
      assert !SameSlot(w[..|w| - 1][i], w[..|w| - 1][j]);
    }
  }

  /** The live records the replay ends with are exactly the alive keys at their current version,
      and every dead key is a tombstone. */
  lemma ReplayMatchesBook(s: Settings, w: seq<FuzzOp>, b: Book, clock: Clock, planted: nat, org: string, id: string)
    requires ProgramOk(s, w, b, clock, planted) && !IsBand(id)
    ensures var r := Lookup(ReplayState(w, s.snapshots - 1), org, id);
            && (r.Some? && !r.value.deleted <==> id in b.alive && id in b.keyOrg && b.keyOrg[id] == org)
            && (id in b.alive && r.Some? ==> id in b.version && r.value.version == b.version[id])
            && (id in b.dead && id in b.keyOrg && b.keyOrg[id] == org ==> r.Some? && r.value.deleted)
  {
    var st := ReplayState(w, s.snapshots - 1);
    hide ReplayState, Lookup, IsBand, InOrder, OncePerSnapshot, NamesOk, TimesOk, ConflictPair;
    assert id in b.alive ==> LiveAt(b, st, id);
    assert id in b.dead ==> TombAt(b, st, id);
  }

  // ---------- retention ----------

  predicate ExpiringBand(id: string)
  {
    |id| >= 3 && id[..3] in {"xl-", "at-"}
  }

  /** Retention dropped the expired-live and ancient-tombstone ids and nothing else. */
  ghost predicate DropsExactlyBands(before: State, after: State)
  {
    forall org, id :: Lookup(after, org, id) == if ExpiringBand(id) then None else Lookup(before, org, id)
  }

  lemma RetainedAt(st: State, retention: int, now: int, org: string, id: string)
    ensures var r := Lookup(st, org, id);
            Lookup(Retained(st, Some(retention), now), org, id)
              == if r.Some? && !Expired(r.value, retention, now) then r else None
  {
  }

  /** Rows in the three bands and in the fresh band, against the two cutoffs. */
  lemma BandExpiry(row: OracleRow, org: string, id: string, clock: Clock)
    requires clock.retention > 2 * FRESH_BAND_SECONDS
    ensures IsBand(id) && BandRow(row, org, id, clock) && id[..3] == "xl-" ==> Expired(row, clock.retention, clock.now)
    ensures IsBand(id) && BandRow(row, org, id, clock) && id[..3] == "at-" ==>
              (Expired(row, clock.retention, clock.now) <==> clock.retention < ANCIENT_TOMBSTONE_SECONDS)
    ensures IsBand(id) && BandRow(row, org, id, clock) && id[..3] == "st-" ==>
              (Expired(row, clock.retention, clock.now) <==> clock.retention > 518_400)
    ensures Fresh(row.ts, clock) ==> !Expired(row, clock.retention, clock.now)
  {
    assert "xl-"[0] == 'x' && "st-"[0] == 's' && "at-"[0] == 'a';
  }

  lemma WholeStateExpiry(st: State, clock: Clock)
    requires clock.retention > 2 * FRESH_BAND_SECONDS && TimesOk(st, clock) && PlantedOrg(st, OrgName(0))
    ensures DropsExactlyBands(st, Retained(st, Some(clock.retention), clock.now)) <==> clock.retention <= 518_400
  {
    var after := Retained(st, Some(clock.retention), clock.now);
    var org := OrgName(0);
    var id := "st-" + org;
    BandNames(org);
    RetainedAt(st, clock.retention, clock.now, org, id);
    BandExpiry(Lookup(st, org, id).value, org, id, clock);
    assert "st-"[0] == 's' && !ExpiringBand(id);
    if clock.retention <= 518_400 {
      forall o, x ensures Lookup(after, o, x) == if ExpiringBand(x) then None else Lookup(st, o, x) {
        RetainedAt(st, clock.retention, clock.now, o, x);
        if Lookup(st, o, x).Some? {
          BandExpiry(Lookup(st, o, x).value, o, x, clock);
          EachBand(x);
        }
      }
    }
  }

  lemma EachBand(id: string)
    ensures ExpiringBand(id) ==> IsBand(id) && (id[..3] == "xl-" || id[..3] == "at-")
    ensures IsBand(id) && !ExpiringBand(id) ==> id[..3] == "st-"
  {
  }

  /** The documented retention outcome holds for exactly the windows of at most six days. */
  lemma RetentionDropsExactlyBands(s: Settings, w: seq<FuzzOp>, b: Book, now: int)
    requires ValidSettings(s) && s.retention.Some? && ProgramOk(s, w, b, ClockOf(s, now), s.tenants)
    ensures var st := ReplayState(w, s.snapshots - 1);
            DropsExactlyBands(st, Retained(st, s.retention, now)) <==> s.retention.value <= 518_400
  {
    hide ReplayState, InOrder, OncePerSnapshot, NamesOk, TimesOk, ConflictPair, PlantedOrg, DropsExactlyBands, Retained;
    WholeStateExpiry(ReplayState(w, s.snapshots - 1), ClockOf(s, now));
  }

  /** The planted populations in numbers: a live row ten windows old, a tombstone five windows old and a
      tombstone forty days old for every organization, and everything else at most five minutes old. */
  lemma PlantedAges(s: Settings, w: seq<FuzzOp>, b: Book, now: int, i: nat, org: string, id: string)
    requires ValidSettings(s) && s.retention.Some? && ProgramOk(s, w, b, ClockOf(s, now), s.tenants) && i < s.tenants
    ensures var st, name := ReplayState(w, s.snapshots - 1), "org" + Decimal(i);
            var xl, sts := Lookup(st, name, "xl-" + name), Lookup(st, name, "st-" + name);
            var at := Lookup(st, name, "at-" + name);
            && xl.Some? && !xl.value.deleted && now - xl.value.ts == 10_000_000 * s.retention.value
            && sts.Some? && sts.value.deleted && now - sts.value.ts == 5_000_000 * s.retention.value
            && at.Some? && at.value.deleted && now - at.value.ts == 3_456_000_000_000
            && (Lookup(st, org, id).Some? && !IsBand(id) ==>
                  0 <= now - Lookup(st, org, id).value.ts <= 300_000_000)
  {
    hide ReplayState, InOrder, OncePerSnapshot, NamesOk, ConflictPair, Lookup, IsBand, Decimal;
    var st, name := ReplayState(w, s.snapshots - 1), OrgName(i);
    assert PlantedOrg(st, name);
    BandNames(name);
    assert "xl-"[0] == 'x' && "st-"[0] == 's' && "at-"[0] == 'a';
  }
}
