/** `WorkloadBuilder` and `generate_workload`. Every draw of the random generator is an arbitrary
    choice, so the contracts hold for all seeds. */
module Generator {
  import opened Naming
  import opened Mutation
  import opened Workload
  import opened Ledger
  import opened Wrappers
  import Texts
  import Orders

  datatype Settings = Settings(
    ops: nat, snapshots: nat, keyspace: nat, retention: Option<int>, conflict: bool, tenants: nat)

  /** `FuzzSettings.from_config` accepts exactly these. */
  predicate ValidSettings(s: Settings)
  {
    && s.snapshots >= 2 && s.ops >= s.snapshots && s.tenants >= 1 && s.keyspace >= s.tenants
    && (s.retention.Some? ==> s.retention.value > 2 * FRESH_BAND_SECONDS)
  }

  // ---------- one op of each kind, chosen but not emitted ----------

  ghost predicate Eligible(b: Book, c: nat, used: set<string>, k: string)
  {
    c < |b.reserved| && k !in used && k !in b.reserved[c]
  }

  lemma UpdatePending(
    b: Book, c: nat, used: set<string>, key: Option<string>, clock: Clock, planted: nat, k: string, op: FuzzOp)
    requires FillInv(b, c, used, key, clock, planted) && k in b.alive && Eligible(b, c, used, k)
    requires k in b.keyOrg && k in b.version
    requires op == FuzzOp(c, b.keyOrg[k], k, op.op, op.ts, b.version[k] + 1, Normal)
    requires !op.IsDelete() && Fresh(op.ts, clock)
    ensures Pending(b, b.(version := b.version[k := b.version[k] + 1]), op, c, used, clock, planted)
  {
    var b' := b.(version := b.version[k := b.version[k] + 1]);
    UntouchedFrom(b, c, used, k);
    AllottedIsNoBand(b, k);
    PutClaims(b, b', EndState(b.ops), op, clock, planted);
    NamesAlone(b, b');
  }

  lemma RevivePending(
    b: Book, c: nat, used: set<string>, key: Option<string>, clock: Clock, planted: nat, k: string, op: FuzzOp)
    requires FillInv(b, c, used, key, clock, planted) && k in b.dead && Eligible(b, c, used, k)
    requires k in b.keyOrg && k in b.version
    requires op == FuzzOp(c, b.keyOrg[k], k, op.op, op.ts, b.version[k] + 1, Revive)
    requires !op.IsDelete() && Fresh(op.ts, clock)
    ensures Pending(b, b.(dead := b.dead - {k}, alive := b.alive + {k}, version := b.version[k := b.version[k] + 1]),
                    op, c, used, clock, planted)
  {
    var b' := b.(dead := b.dead - {k}, alive := b.alive + {k}, version := b.version[k := b.version[k] + 1]);
    UntouchedFrom(b, c, used, k);
    AllottedIsNoBand(b, k);
    PutClaims(b, b', EndState(b.ops), op, clock, planted);
    NamesGrow(b, b');
  }

  lemma RedeletePending(
    b: Book, c: nat, used: set<string>, key: Option<string>, clock: Clock, planted: nat, k: string, op: FuzzOp)
    requires FillInv(b, c, used, key, clock, planted) && k in b.dead && Eligible(b, c, used, k) && k in b.keyOrg
    requires op == FuzzOp(c, b.keyOrg[k], k, op.op, op.ts, 1, Redelete)
    requires op.IsDelete() && Fresh(op.ts, clock)
    ensures Pending(b, b, op, c, used, clock, planted)
  {
    UntouchedFrom(b, c, used, k);
    AllottedIsNoBand(b, k);
    assert TombAt(b, EndState(b.ops), k);
    PutClaims(b, b, EndState(b.ops), op, clock, planted);
  }

  lemma DeletePending(
    b: Book, c: nat, used: set<string>, key: Option<string>, clock: Clock, planted: nat, k: string, op: FuzzOp)
    requires FillInv(b, c, used, key, clock, planted) && k in b.alive && Eligible(b, c, used, k) && k in b.keyOrg
    requires op == FuzzOp(c, b.keyOrg[k], k, op.op, op.ts, 1, Normal)
    requires op.IsDelete() && Fresh(op.ts, clock)
    ensures Pending(b, b.(alive := b.alive - {k}, dead := b.dead + {k}), op, c, used, clock, planted)
  {
    var b' := b.(alive := b.alive - {k}, dead := b.dead + {k});
    UntouchedFrom(b, c, used, k);
    AllottedIsNoBand(b, k);
    assert LiveAt(b, EndState(b.ops), k);
    PutClaims(b, b', EndState(b.ops), op, clock, planted);
    NamesGrow(b, b');
  }

  lemma NamesGrow(b: Book, b': Book)
    requires NamesOk(b) && b'.keyOrg == b.keyOrg && b'.alive !! b'.dead && b'.alive + b'.dead <= b.keyOrg.Keys
    requires b'.nextOrdinal == b.nextOrdinal && b'.absentCount == b.absentCount
    ensures NamesOk(b')
  {
    forall k | k in b'.keyOrg ensures Allotted(b', k) {
      assert Allotted(b, k);
    }
  }

  /** The book after `allocate_key` and the bookkeeping of an insert. */
  function Born(b: Book, org: string): Book
  {
    var k := KeyName(b.nextOrdinal);
    b.(nextOrdinal := b.nextOrdinal + 1, insertCount := b.insertCount + 1, keyOrg := b.keyOrg[k := org],
       alive := b.alive + {k}, version := b.version[k := 1])
  }

  /** A name outside the allotted ones was never used, so it is in no snapshot and in no `used` set
      built from them. */
  ghost predicate OnlyKnown(b: Book, used: set<string>)
  {
    forall k :: k in used ==> k in b.keyOrg || IsBand(k)
  }

  lemma InsertPending(
    b: Book, c: nat, used: set<string>, key: Option<string>, clock: Clock, planted: nat, org: string, op: FuzzOp)
    requires FillInv(b, c, used, key, clock, planted) && OnlyKnown(b, used)
    requires op == FuzzOp(c, org, KeyName(b.nextOrdinal), op.op, op.ts, 1, Normal)
    requires !op.IsDelete() && Fresh(op.ts, clock)
    ensures Pending(b, Born(b, org), op, c, used, clock, planted)
  {
    var b', k := Born(b, org), KeyName(b.nextOrdinal);
    NextKeyIsNew(b);
    NewIsUntouched(b, k);
    NoneFromLater(b.ops, 0, c, k);
    PutClaims(b, b', EndState(b.ops), op, clock, planted);
    NamesAllot(b, b', k);
  }

  lemma AbsentPending(
    b: Book, c: nat, used: set<string>, key: Option<string>, clock: Clock, planted: nat, org: string, op: FuzzOp)
    requires FillInv(b, c, used, key, clock, planted) && OnlyKnown(b, used)
    requires op == FuzzOp(c, org, AbsentName(b.absentCount), op.op, op.ts, 1, AbsentDelete)
    requires op.IsDelete() && Fresh(op.ts, clock)
    ensures Pending(b, b.(absentCount := b.absentCount + 1, keyOrg := b.keyOrg[op.recordId := org]), op, c, used,
                    clock, planted)
  {
    var b', k := b.(absentCount := b.absentCount + 1, keyOrg := b.keyOrg[op.recordId := org]), op.recordId;
    NextAbsentIsNew(b);
    NewIsUntouched(b, k);
    NoneFromLater(b.ops, 0, c, k);
    PutClaims(b, b', EndState(b.ops), op, clock, planted);
    NamesAllot(b, b', k);
  }

  lemma NamesAllot(b: Book, b': Book, k: string)
    requires NamesOk(b) && k !in b.keyOrg && b'.keyOrg.Keys == b.keyOrg.Keys + {k}
    requires b.nextOrdinal <= b'.nextOrdinal && b.absentCount <= b'.absentCount && Allotted(b', k)
    requires b'.dead == b.dead && (b'.alive == b.alive || b'.alive == b.alive + {k})
    ensures NamesOk(b')
  {
    forall x | x in b'.keyOrg ensures Allotted(b', x) {
      if x != k {
        assert Allotted(b, x);
        if n :| 0 <= n < b.nextOrdinal && x == KeyName(n) {
          assert n < b'.nextOrdinal;
        }
      }
    }
  }

  // ---------- planting the retention bands ----------

  /** Nothing but the bands of the first `n` organizations, each reserved everywhere. */
  ghost predicate PlantInv(b: Book, n: nat, clock: Clock)
  {
    && |b.ops| == |b.reserved| >= 2
    && b.alive == {} && b.dead == {} && b.keyOrg == map[] && b.nextOrdinal == 0
    && Shape(b)
    && (forall s, op :: 0 <= s < |b.ops| && op in b.ops[s] ==> BandOf(op.recordId, n))
    && (forall s, op, j :: 0 <= s < |b.ops| && op in b.ops[s] && 0 <= j < |b.reserved| ==> op.recordId in b.reserved[j])
    && Claims(b, EndState(b.ops), clock, n)
  }

  ghost predicate BandOf(id: string, n: nat)
  {
    |id| >= 3 && exists i :: 0 <= i < n && id[3..] == OrgName(i)
  }

  /** The four ops planted for one organization, in emission order. */
  predicate BandOps(xl: FuzzOp, up: FuzzOp, st: FuzzOp, at: FuzzOp, org: string, clock: Clock)
  {
    && xl == FuzzOp(0, org, "xl-" + org, xl.op, clock.now - clock.retention * XL_LIVE_MULTIPLIER * SECOND, 1, Xl)
    && up == FuzzOp(0, org, "st-" + org, up.op, up.ts, 1, St)
    && st == FuzzOp(1, org, "st-" + org, st.op, clock.now - clock.retention * ST_TOMBSTONE_MULTIPLIER * SECOND, 1, St)
    && at == FuzzOp(0, org, "at-" + org, at.op, clock.now - ANCIENT_TOMBSTONE_SECONDS * SECOND, 1, Scenario.At)
    && !xl.IsDelete() && !up.IsDelete() && st.IsDelete() && at.IsDelete()
  }

  function Planted(b: Book, xl: FuzzOp, up: FuzzOp, st: FuzzOp, at: FuzzOp): Book
    requires |b.ops| >= 2 && xl.snapshot == up.snapshot == at.snapshot == 0 && st.snapshot == 1
  {
    var p := Emitted(Emitted(Emitted(Emitted(b.ops, xl), up), st), at);
    b.(ops := p, reserved := ReserveBands(b.reserved, {xl.recordId, st.recordId, at.recordId}),
       version := b.version[xl.recordId := 1][st.recordId := 1])
  }

  function ReserveBands(reserved: seq<set<string>>, ids: set<string>): (r: seq<set<string>>)
    ensures |r| == |reserved| && forall s :: 0 <= s < |r| ==> r[s] == reserved[s] + ids
  {
    seq(|reserved|, s requires 0 <= s < |reserved| => reserved[s] + ids)
  }

  lemma BandNames(org: string)
    ensures IsBand("xl-" + org) && IsBand("st-" + org) && IsBand("at-" + org)
    ensures ("xl-" + org)[3..] == org && ("st-" + org)[3..] == org && ("at-" + org)[3..] == org
    ensures ("xl-" + org)[..3] == "xl-" && ("st-" + org)[..3] == "st-" && ("at-" + org)[..3] == "at-"
    ensures "xl-" + org != "st-" + org && "xl-" + org != "at-" + org && "st-" + org != "at-" + org
  {
    assert ("xl-" + org)[0] == 'x' && ("st-" + org)[0] == 's' && ("at-" + org)[0] == 'a';
  }

  lemma NewBandUntouched(b: Book, n: nat, clock: Clock, id: string)
    requires PlantInv(b, n, clock) && |id| >= 3 && id[3..] == OrgName(n)
    ensures NoneFrom(b.ops, 0, id)
  {
    forall t, op: FuzzOp | 0 <= t < |b.ops| && op in b.ops[t] ensures op.recordId != id {
      assert BandOf(op.recordId, n);
      var i :| 0 <= i < n && op.recordId[3..] == OrgName(i);
      if op.recordId == id {
        OrgNamesDistinct(i, n);
      }
    }
  }

  /** Emitting ops of other keys leaves a key untouched. */
  lemma EmitKeepsNone(p: seq<seq<FuzzOp>>, op: FuzzOp, s: nat, id: string)
    requires op.snapshot < |p| && NoneFrom(p, s, id) && (op.recordId != id || op.snapshot < s)
    ensures NoneFrom(Emitted(p, op), s, id)
  {
    var e := Emitted(p, op);
    assert forall t, o :: 0 <= t < |e| && o in e[t] ==> o in p[t] || (t == op.snapshot && o == op);
  }

  lemma PlantShape(b: Book, n: nat, clock: Clock, xl: FuzzOp, up: FuzzOp, st: FuzzOp, at: FuzzOp)
    requires PlantInv(b, n, clock) && BandOps(xl, up, st, at, OrgName(n), clock)
    ensures Shape(Planted(b, xl, up, st, at))
    ensures forall org, id :: Lookup(EndState(Planted(b, xl, up, st, at).ops), org, id)
              == Lookup(Put(Put(Put(Put(EndState(b.ops), xl), up), st), at), org, id)
  {
    hide PlantInv, EndState, Lookup, Put, Shape, IsBand;
    var org := OrgName(n);
    BandNames(org);
    PlantInvShape(b, n, clock);
    NewBandUntouched(b, n, clock, xl.recordId);
    NewBandUntouched(b, n, clock, up.recordId);
    NewBandUntouched(b, n, clock, at.recordId);
    var p1 := Emitted(b.ops, xl);
    EmitShape(b, xl);
    EmitKeepsNone(b.ops, xl, 0, up.recordId);
    EmitKeepsNone(b.ops, xl, 0, at.recordId);
    var p2 := Emitted(p1, up);
    EmitShape(b.(ops := p1), up);
    NoneFromLater(p1, 0, 1, up.recordId);
    EmitKeepsNone(p1, up, 1, st.recordId);
    EmitKeepsNone(p1, up, 0, at.recordId);
    var p3 := Emitted(p2, st);
    EmitShape(b.(ops := p2), st);
    EmitKeepsNone(p2, st, 0, at.recordId);
    EmitShape(b.(ops := p3), at);
    ReservedShape(b.(ops := Emitted(p3, at)), Planted(b, xl, up, st, at));
    NoneFromLater(b.ops, 0, 1, xl.recordId);
    NoneFromLater(p2, 1, 2, st.recordId);
    NoneFromLater(p3, 0, 1, at.recordId);
    PlantOutcome(b.ops, xl, up, st, at);
  }

  lemma PlantInvShape(b: Book, n: nat, clock: Clock)
    requires PlantInv(b, n, clock)
    ensures Shape(b) && |b.ops| == |b.reserved| >= 2
  {
  }

  lemma PlantOutcome(p: seq<seq<FuzzOp>>, xl: FuzzOp, up: FuzzOp, st: FuzzOp, at: FuzzOp)
    requires |p| >= 2 && xl.snapshot == up.snapshot == at.snapshot == 0 && st.snapshot == 1
    requires !xl.IsConflict() && !up.IsConflict() && !st.IsConflict() && !at.IsConflict()
    requires NoneFrom(p, 1, xl.recordId) && NoneFrom(Emitted(p, xl), 1, up.recordId)
    requires NoneFrom(Emitted(Emitted(p, xl), up), 2, st.recordId)
    requires NoneFrom(Emitted(Emitted(Emitted(p, xl), up), st), 1, at.recordId)
    ensures forall org, id :: Lookup(EndState(Emitted(Emitted(Emitted(Emitted(p, xl), up), st), at)), org, id)
              == Lookup(Put(Put(Put(Put(EndState(p), xl), up), st), at), org, id)
  {
    hide EndState, Lookup, Put, Emitted, NoneFrom;
    var p1 := Emitted(p, xl);
    var p2 := Emitted(p1, up);
    var p3 := Emitted(p2, st);
    var s0 := EndState(p);
    forall org, id
      ensures Lookup(EndState(Emitted(p3, at)), org, id) == Lookup(Put(Put(Put(Put(s0, xl), up), st), at), org, id)
    {
      EmitOutcome(p, xl, org, id);
      EmitOutcome(p1, up, org, id);
      EmitOutcome(p2, st, org, id);
      EmitOutcome(p3, at, org, id);
      PutAt(Put(s0, xl), up, org, id);
      PutAt(EndState(p1), up, org, id);
      PutAt(Put(Put(s0, xl), up), st, org, id);
      PutAt(EndState(p2), st, org, id);
      PutAt(Put(Put(Put(s0, xl), up), st), at, org, id);
      PutAt(EndState(p3), at, org, id);
    }
  }

  ghost predicate OnlyBands(st: State)
  {
    forall org, id :: Lookup(st, org, id).Some? ==> IsBand(id)
  }

  lemma PlantLookup(st0: State, xl: FuzzOp, up: FuzzOp, st: FuzzOp, at: FuzzOp, o: string, id: string)
    requires xl.org == up.org == st.org == at.org && up.recordId == st.recordId
    requires xl.recordId != st.recordId && xl.recordId != at.recordId && st.recordId != at.recordId
    ensures Lookup(Put(Put(Put(Put(st0, xl), up), st), at), o, id) ==
            if o == xl.org && id == xl.recordId then Some(RowOf(xl))
            else if o == xl.org && id == st.recordId then Some(RowOf(st))
            else if o == xl.org && id == at.recordId then Some(RowOf(at))
            else Lookup(st0, o, id)
  {
    hide Put, Lookup;
    PutAt(st0, xl, o, id);
    PutAt(Put(st0, xl), up, o, id);
    PutAt(Put(Put(st0, xl), up), st, o, id);
    PutAt(Put(Put(Put(st0, xl), up), st), at, o, id);
  }

  /** `s` is `st0` with the three planted rows laid over it. */
  ghost predicate Overlaid(st0: State, s: State, xl: FuzzOp, st: FuzzOp, at: FuzzOp, org: string)
  {
    forall o, id :: Lookup(s, o, id) ==
      if o == org && id == xl.recordId then Some(RowOf(xl))
      else if o == org && id == st.recordId then Some(RowOf(st))
      else if o == org && id == at.recordId then Some(RowOf(at))
      else Lookup(st0, o, id)
  }

  lemma OverlaidTimes(st0: State, s: State, clock: Clock, xl: FuzzOp, up: FuzzOp, st: FuzzOp, at: FuzzOp, org: string)
    requires TimesOk(st0, clock) && OnlyBands(st0) && Overlaid(st0, s, xl, st, at, org)
    requires BandOps(xl, up, st, at, org, clock)
    ensures TimesOk(s, clock) && OnlyBands(s)
  {
    BandNames(org);
    assert BandRow(RowOf(xl), org, xl.recordId, clock);
    assert BandRow(RowOf(st), org, st.recordId, clock);
    assert BandRow(RowOf(at), org, at.recordId, clock);
    hide Lookup, IsBand, BandRow, RowOf, Fresh;
  }

  lemma OverlaidPlanted(st0: State, s: State, n: nat, xl: FuzzOp, st: FuzzOp, at: FuzzOp)
    requires forall i :: 0 <= i < n ==> PlantedOrg(st0, OrgName(i))
    requires var org := OrgName(n);
             && Overlaid(st0, s, xl, st, at, org)
             && xl.recordId == "xl-" + org && st.recordId == "st-" + org && at.recordId == "at-" + org
    ensures forall i :: 0 <= i < n + 1 ==> PlantedOrg(s, OrgName(i))
  {
    hide Lookup, RowOf, OrgName;
    forall i | 0 <= i < n + 1 ensures PlantedOrg(s, OrgName(i)) {
      if i < n {
        assert PlantedOrg(st0, OrgName(i));
      }
    }
  }

  lemma PlantClaims(st0: State, n: nat, clock: Clock, xl: FuzzOp, up: FuzzOp, st: FuzzOp, at: FuzzOp)
    requires TimesOk(st0, clock) && OnlyBands(st0) && (forall i :: 0 <= i < n ==> PlantedOrg(st0, OrgName(i)))
    requires BandOps(xl, up, st, at, OrgName(n), clock)
    ensures var s := Put(Put(Put(Put(st0, xl), up), st), at);
            TimesOk(s, clock) && OnlyBands(s) && forall i :: 0 <= i < n + 1 ==> PlantedOrg(s, OrgName(i))
  {
    hide Put, Lookup, IsBand, TimesOk, OnlyBands, PlantedOrg, RowOf, OrgName, NormalizeOperation;
    var s := Put(Put(Put(Put(st0, xl), up), st), at);
    var org := OrgName(n);
    BandNames(org);
    assert Overlaid(st0, s, xl, st, at, org) by {
      forall o, id { PlantLookup(st0, xl, up, st, at, o, id); }
    }
    hide Overlaid;
    OverlaidTimes(st0, s, clock, xl, up, st, at, org);
    OverlaidPlanted(st0, s, n, xl, st, at);
  }

  /** What `PlantInv` says of one emitted op. */
  ghost predicate BandReserved(b: Book, o: FuzzOp, n: nat)
  {
    BandOf(o.recordId, n) && forall j :: 0 <= j < |b.reserved| ==> o.recordId in b.reserved[j]
  }

  lemma PlantReserves(b: Book, n: nat, xl: FuzzOp, up: FuzzOp, st: FuzzOp, at: FuzzOp, t: nat, o: FuzzOp)
    requires |b.ops| == |b.reserved| >= 2 && xl.snapshot == up.snapshot == at.snapshot == 0 && st.snapshot == 1
    requires t < |b.ops| && o in Planted(b, xl, up, st, at).ops[t]
    requires o in b.ops[t] ==> BandReserved(b, o, n)
    requires BandOf(xl.recordId, n + 1) && BandOf(st.recordId, n + 1) && BandOf(at.recordId, n + 1)
    requires up.recordId == st.recordId
    ensures BandReserved(Planted(b, xl, up, st, at), o, n + 1)
  {
    assert o in b.ops[t] || o == xl || o == up || o == st || o == at;
    if o in b.ops[t] {
      var i :| 0 <= i < n && o.recordId[3..] == OrgName(i);
      assert i < n + 1;
    }
  }

  lemma BandsAccounted(b: Book, st: State)
    requires OnlyBands(st)
    ensures Accounted(b, st)
  {
  }

  lemma NothingElse(b: Book, n: nat, clock: Clock)
    requires PlantInv(b, n, clock)
    ensures OnlyBands(EndState(b.ops)) && TimesOk(EndState(b.ops), clock) && b.alive == {} && b.dead == {}
    ensures forall i :: 0 <= i < n ==> PlantedOrg(EndState(b.ops), OrgName(i))
  {
    hide Lookup, IsBand;
  }

  lemma PlantOrgClaims(b: Book, n: nat, clock: Clock, xl: FuzzOp, up: FuzzOp, st: FuzzOp, at: FuzzOp)
    requires PlantInv(b, n, clock) && BandOps(xl, up, st, at, OrgName(n), clock)
    ensures var b' := Planted(b, xl, up, st, at); Claims(b', EndState(b'.ops), clock, n + 1) && Shape(b')
  {
    PlantInvShape(b, n, clock);
    var b' := Planted(b, xl, up, st, at);
    PlantShape(b, n, clock, xl, up, st, at);
    NothingElse(b, n, clock);
    hide PlantInv, EndState, Lookup, Put, Shape, Emitted, TimesOk, PlantedOrg, OnlyBands, Accounted;
    PlantClaims(EndState(b.ops), n, clock, xl, up, st, at);
    var s := Put(Put(Put(Put(EndState(b.ops), xl), up), st), at);
    BandsAccounted(b', s);
    assert Claims(b', s, clock, n + 1);
    hide Claims;
    ClaimsCongruent(b', s, EndState(b'.ops), clock, n + 1);
  }

  lemma PlantOrgKeeps(b: Book, n: nat, clock: Clock, xl: FuzzOp, up: FuzzOp, st: FuzzOp, at: FuzzOp)
    requires PlantInv(b, n, clock) && BandOps(xl, up, st, at, OrgName(n), clock)
    ensures PlantInv(Planted(b, xl, up, st, at), n + 1, clock)
  {
    hide Claims, Shape, EndState, IsBand, NormalizeOperation, PlantInv, Planted, BandReserved;
    PlantInvShape(b, n, clock);
    PlantOrgClaims(b, n, clock, xl, up, st, at);
    PlantAllReserved(b, n, clock, xl, up, st, at);
    AssemblePlantInv(Planted(b, xl, up, st, at), n + 1, clock);
  }

  lemma PlantAllReserved(b: Book, n: nat, clock: Clock, xl: FuzzOp, up: FuzzOp, st: FuzzOp, at: FuzzOp)
    requires PlantInv(b, n, clock) && BandOps(xl, up, st, at, OrgName(n), clock)
    ensures var b' := Planted(b, xl, up, st, at);
            && |b'.ops| == |b'.reserved| >= 2
            && b'.alive == {} && b'.dead == {} && b'.keyOrg == map[] && b'.nextOrdinal == 0
            && forall t, o :: 0 <= t < |b'.ops| && o in b'.ops[t] ==> BandReserved(b', o, n + 1)
  {
    var b' := Planted(b, xl, up, st, at);
    BandNames(OrgName(n));
    hide Claims, Shape, EndState, IsBand, NormalizeOperation, ReserveBands;
    assert BandOf(xl.recordId, n + 1) && BandOf(st.recordId, n + 1) && BandOf(at.recordId, n + 1);
    forall t, o: FuzzOp | 0 <= t < |b'.ops| && o in b'.ops[t] ensures BandReserved(b', o, n + 1) {
      assert o in b.ops[t] ==> BandReserved(b, o, n);
      PlantReserves(b, n, xl, up, st, at, t, o);
    }
  }

  lemma AssemblePlantInv(b: Book, n: nat, clock: Clock)
    requires |b.ops| == |b.reserved| >= 2 && Shape(b) && Claims(b, EndState(b.ops), clock, n)
    requires b.alive == {} && b.dead == {} && b.keyOrg == map[] && b.nextOrdinal == 0
    requires forall t, o :: 0 <= t < |b.ops| && o in b.ops[t] ==> BandReserved(b, o, n)
    ensures PlantInv(b, n, clock)
  {
    hide Claims, Shape, EndState, BandOf;
    forall s, op, j | 0 <= s < |b.ops| && op in b.ops[s] && 0 <= j < |b.reserved| ensures op.recordId in b.reserved[j] {
      assert BandReserved(b, op, n);
    }
    forall s, op | 0 <= s < |b.ops| && op in b.ops[s] ensures BandOf(op.recordId, n) {
      assert BandReserved(b, op, n);
    }
  }

  lemma PlantedIsReady(b: Book, n: nat, clock: Clock, used: set<string>)
    requires PlantInv(b, n, clock) && forall op :: op in b.ops[0] ==> op.recordId in used
    ensures FillInv(b, 0, used, None, clock, n)
  {
    hide Claims, DistinctIds, BandOf;
  }

  // ---------- seeding, and setting a key aside ----------

  /** The first `n` organizations have their baseline key, and snapshots after the first hold bands only. */
  ghost predicate SeedInv(b: Book, n: nat, clock: Clock, planted: nat)
  {
    && |b.ops| >= 2 && FillInv(b, 0, IdsOf(b.ops[0]), None, clock, planted)
    && b.nextOrdinal == n && b.alive <= IdsOf(b.ops[0]) && Baselines(b.ops, n)
    && (forall s, op :: 1 <= s < |b.ops| && op in b.ops[s] ==> IsBand(op.recordId))
    && forall j :: 0 <= j < n ==>
         KeyName(j) in b.alive && KeyName(j) in b.keyOrg && b.keyOrg[KeyName(j)] == OrgName(j)
  }

  lemma SeedRange(b: Book, n: nat, clock: Clock, planted: nat)
    requires SeedInv(b, n, clock, planted)
    ensures |b.ops| == |b.reserved| >= 2 && b.nextOrdinal == n
    ensures FillInv(b, 0, IdsOf(b.ops[0]), None, clock, planted) && OnlyKnown(b, IdsOf(b.ops[0]))
    ensures forall k :: k in b.alive ==> k in b.keyOrg && k in b.version
  {
    InRange(b, 0, IdsOf(b.ops[0]), None, clock, planted);
    IdsAreKnown(b, 0);
    forall k | k in b.alive ensures k in b.keyOrg && k in b.version {
      AliveIsKnown(b, 0, IdsOf(b.ops[0]), None, clock, planted, k);
    }
  }

  lemma SeedKeeps(b: Book, n: nat, clock: Clock, planted: nat, op: FuzzOp)
    requires SeedInv(b, n, clock, planted)
    requires op == FuzzOp(0, OrgName(n), KeyName(n), op.op, op.ts, 1, Normal) && !op.IsDelete() && Fresh(op.ts, clock)
    ensures SeedInv(Born(b, OrgName(n)).(ops := Emitted(b.ops, op)), n + 1, clock, planted)
  {
    hide FillInv, Pending, OnlyKnown, Fresh, KeyName, OrgName, NormalizeOperation;
    var used := IdsOf(b.ops[0]);
    SeedRange(b, n, clock, planted);
    SeedNew(b, n, clock, planted);
    InsertPending(b, 0, used, None, clock, planted, OrgName(n), op);
    EmitPending(b, Born(b, OrgName(n)), op, 0, used, None, clock, planted);
    IdsOfMore(b.ops[0], op);
    BaselineAdded(b.ops, n, op);
    hide Baselines;
    assert Emitted(b.ops, op)[0] == b.ops[0] + [op];
  }

  lemma SeedNew(b: Book, n: nat, clock: Clock, planted: nat)
    requires SeedInv(b, n, clock, planted)
    ensures KeyName(n) !in b.keyOrg
  {
    NextKeyIsNew(b);
  }

  lemma IdsOfMore(ops: seq<FuzzOp>, op: FuzzOp)
    ensures IdsOf(ops + [op]) == IdsOf(ops) + {op.recordId}
  {
    forall id | id in IdsOf(ops) + {op.recordId} ensures id in IdsOf(ops + [op]) {
      if id in IdsOf(ops) {
        var o :| o in ops && o.recordId == id;
        assert o in ops + [op];
      } else {
        assert op in ops + [op];
      }
    }
  }

  lemma AsideKeeps(b: Book, n: nat, clock: Clock, planted: nat, k: string)
    requires SeedInv(b, n, clock, planted) && k in b.alive && k in b.keyOrg && b.keyOrg[k] == OrgName(0)
    requires |b.ops| == |b.reserved| >= 2
    ensures FillInv(b.(reserved := ReserveUpTo(b.reserved, 1, |b.reserved| - 1, k)), 0, IdsOf(b.ops[0]), Some(k),
                    clock, planted)
  {
    var r := b.(reserved := ReserveUpTo(b.reserved, 1, |b.reserved| - 1, k));
    AliveIsKnown(b, 0, IdsOf(b.ops[0]), None, clock, planted, k);
    assert Allotted(b, k);
    AllottedIsNoBand(b, k);
    hide Claims, DistinctIds, Allotted, IsBand, EndState, KeyName, OrgName;
    SameBookClaims(b, r, EndState(b.ops), clock, planted);
    ReservedShape(b, r);
    NamesAlone(b, r);
    assert Scheduled(r, 0, IdsOf(b.ops[0]));
    assert SetAside(r, Some(k), 0, IdsOf(b.ops[0]));
  }

  /** An update and a delete of one key, marked as the injected conflict. */
  predicate ConflictPair(up: FuzzOp, del: FuzzOp, key: string, version: nat, snapshot: nat, clock: Clock)
  {
    && up == FuzzOp(snapshot, OrgName(0), key, up.op, up.ts, version, ConflictUpdate)
    && del == FuzzOp(snapshot, OrgName(0), key, del.op, del.ts, version, ConflictDelete)
    && NormalizeOperation(up.op) == Success("upsert") && NormalizeOperation(del.op) == Success("delete")
    && Fresh(up.ts, clock) && Fresh(del.ts, clock)
  }

  // ---------- the builder ----------

  lemma InRange(b: Book, c: nat, used: set<string>, key: Option<string>, clock: Clock, planted: nat)
    requires FillInv(b, c, used, key, clock, planted)
    ensures c < |b.reserved| == |b.ops|
  {
  }

  lemma AliveIsKnown(
    b: Book, c: nat, used: set<string>, key: Option<string>, clock: Clock, planted: nat, k: string)
    requires FillInv(b, c, used, key, clock, planted) && k in b.alive
    ensures k in b.keyOrg && k in b.version
  {
    assert LiveAt(b, EndState(b.ops), k);
  }

  lemma DeadIsKnown(
    b: Book, c: nat, used: set<string>, key: Option<string>, clock: Clock, planted: nat, k: string)
    requires FillInv(b, c, used, key, clock, planted) && k in b.dead
    ensures k in b.keyOrg && k in b.version
  {
    assert TombAt(b, EndState(b.ops), k);
  }

  /** What every op runner promises: nothing changed, or one op chosen and recorded as pending. */
  ghost predicate Chose(
    b: Book, b': Book, op: Option<FuzzOp>, used: set<string>, used': set<string>, c: nat, clock: Clock, planted: nat)
  {
    if op.None? then b' == b && used' == used
    else Pending(b, b', op.value, c, used, clock, planted) && used' == used + {op.value.recordId}
  }

  /** Nothing emitted is ever taken back. */
  ghost predicate Extends(p: seq<seq<FuzzOp>>, q: seq<seq<FuzzOp>>)
  {
    |p| == |q| && forall s :: 0 <= s < |p| ==> p[s] <= q[s]
  }

  lemma ExtendsTransitive(p: seq<seq<FuzzOp>>, q: seq<seq<FuzzOp>>, r: seq<seq<FuzzOp>>)
    requires Extends(p, q) && Extends(q, r)
    ensures Extends(p, r)
  {
  }

  lemma ExtendsItself(p: seq<seq<FuzzOp>>)
    ensures Extends(p, p)
  {
  }

  lemma EmitExtends(p: seq<seq<FuzzOp>>, op: FuzzOp)
    requires op.snapshot < |p|
    ensures Extends(p, Emitted(p, op))
  {
  }

  /** Organization `i` has its baseline insert among these ops. */
  ghost predicate Baseline(ops: seq<FuzzOp>, i: nat)
  {
    exists op :: op in ops && op.snapshot == 0 && op.org == OrgName(i) && op.recordId == KeyName(i) && !op.IsDelete()
  }

  ghost predicate Baselines(p: seq<seq<FuzzOp>>, n: nat)
  {
    p != [] && forall i :: 0 <= i < n ==> Baseline(p[0], i)
  }

  lemma BaselinesStay(p: seq<seq<FuzzOp>>, q: seq<seq<FuzzOp>>, n: nat)
    requires Baselines(p, n) && Extends(p, q)
    ensures Baselines(q, n)
  {
    hide OrgName, KeyName, NormalizeOperation;
    forall i | 0 <= i < n ensures Baseline(q[0], i) {
      assert Baseline(p[0], i);
      var op :| op in p[0] && op.snapshot == 0 && op.org == OrgName(i) && op.recordId == KeyName(i) && !op.IsDelete();
      assert op in q[0];
    }
  }

  lemma BaselineAdded(p: seq<seq<FuzzOp>>, n: nat, op: FuzzOp)
    requires Baselines(p, n) && op.snapshot == 0 && op.org == OrgName(n) && op.recordId == KeyName(n) && !op.IsDelete()
    ensures Baselines(Emitted(p, op), n + 1)
  {
    EmitExtends(p, op);
    BaselinesStay(p, Emitted(p, op), n);
    hide OrgName, KeyName, NormalizeOperation;
    assert op in Emitted(p, op)[0];
    assert Baseline(Emitted(p, op)[0], n);
  }

  /** A redelivery of `op`: the same record, spelling, time and version in a later snapshot, and the
      key reserved in every snapshot up to it. */
  ghost predicate Redelivered(b: Book, b': Book, op: FuzzOp)
  {
    && op.scenario == Normal && !op.IsDelete()
    && exists target: nat :: IsRedelivery(b, b', op, target)
  }

  ghost predicate IsRedelivery(b: Book, b': Book, op: FuzzOp, target: nat)
  {
    && op.snapshot < target < |b.ops| && target < |b.reserved|
    && b' == b.(ops := Emitted(b.ops, op.(snapshot := target, scenario := Duplicate)),
                reserved := ReserveUpTo(b.reserved, op.snapshot + 1, target, op.recordId))
  }

  ghost predicate Filled(b: Book, c: nat, key: Option<string>, clock: Clock, planted: nat)
  {
    exists used :: FillInv(b, c, used, key, clock, planted)
  }

  function IdsOf(ops: seq<FuzzOp>): (ids: set<string>)
    ensures forall op :: op in ops ==> op.recordId in ids
  {
    set op | op in ops :: op.recordId
  }

  /** Only allotted and band ids are ever emitted, so an unallotted name is free to use. */
  lemma IdsAreKnown(b: Book, c: nat)
    requires Shape(b) && c < |b.ops|
    ensures OnlyKnown(b, IdsOf(b.ops[c]))
  {
  }

  lemma PendingIsKnown(
    b: Book, b': Book, op: FuzzOp, c: nat, used: set<string>, clock: Clock, planted: nat)
    requires Pending(b, b', op, c, used, clock, planted) && OnlyKnown(b, used)
    ensures OnlyKnown(b', used + {op.recordId}) && b'.ops == b.ops
    ensures op.snapshot == c < |b.ops|
    ensures op.scenario == Normal && !op.IsDelete() ==>
              op.recordId in b'.alive && op.recordId in b'.keyOrg && b'.keyOrg[op.recordId] == op.org
  {
  }

  class WorkloadBuilder {
    const settings: Settings
    const clock: Clock
    var ops: seq<seq<FuzzOp>>
    var reserved: seq<set<string>>
    var alive: set<string>
    var dead: set<string>
    var keyOrg: map<string, string>
    var version: map<string, nat>
    var nextOrdinal: nat
    var insertCount: nat
    var absentCount: nat

    function Model(): Book
      reads this
    {
      Book(ops, reserved, alive, dead, keyOrg, version, nextOrdinal, insertCount, absentCount)
    }

    constructor (settings: Settings, now: int)
      ensures this.settings == settings
      ensures clock == Clock(now, if settings.retention.Some? then settings.retention.value else 0)
      ensures Model() == Book(seq(settings.snapshots, _ => []), seq(settings.snapshots, _ => {}), {}, {}, map[],
                              map[], 0, 0, 0)
    {
      this.settings := settings;
      clock := Clock(now, if settings.retention.Some? then settings.retention.value else 0);
      ops, reserved := seq(settings.snapshots, _ => []), seq(settings.snapshots, _ => {});
      alive, dead, keyOrg, version := {}, {}, map[], map[];
      nextOrdinal, insertCount, absentCount := 0, 0, 0;
    }

    method FreshTs() returns (ts: int)
      ensures Fresh(ts, clock)
    {
      var age: int :| 0 <= age <= FRESH_BAND_SECONDS;
      ts := clock.now - age * SECOND;
    }

    method UpsertWord() returns (s: string)
      ensures NormalizeOperation(s) == Success("upsert")
    {
      assert "i" in UPSERT_OPERATIONS;
      s :| s in UPSERT_OPERATIONS;
      UpsertSpelling(s);
    }

    method DeleteWord() returns (s: string)
      ensures NormalizeOperation(s) == Success("delete")
    {
      assert "d" in DELETE_OPERATIONS;
      s :| s in DELETE_OPERATIONS;
      DeleteSpelling(s);
    }

    method Emit(op: FuzzOp)
      requires op.snapshot < |ops|
      modifies this`ops
      ensures ops == Emitted(old(ops), op)
    {
      ops := ops[op.snapshot := ops[op.snapshot] + [op]];
    }

    method AllocateKey(org: string) returns (id: string)
      modifies this`nextOrdinal, this`insertCount, this`keyOrg
      ensures id == KeyName(old(nextOrdinal)) && keyOrg == old(keyOrg)[id := org]
      ensures nextOrdinal == old(nextOrdinal) + 1 && insertCount == old(insertCount) + 1
    {
      id := KeyName(nextOrdinal);
      nextOrdinal := nextOrdinal + 1;
      insertCount := insertCount + 1;
      keyOrg := keyOrg[id := org];
    }

    method MaybeRevive(c: nat, used: set<string>, ghost key: Option<string>, ghost planted: nat)
      returns (op: Option<FuzzOp>, used': set<string>)
      requires FillInv(Model(), c, used, key, clock, planted)
      modifies this
      ensures Chose(old(Model()), Model(), op, used, used', c, clock, planted)
      ensures op.Some? ==> op.value.scenario == Revive && !op.value.IsDelete() && op.value.recordId in old(dead)
    {
      hide FillInv, Pending, Fresh, NormalizeOperation;
      ghost var b := Model();
      InRange(b, c, used, key, clock, planted);
      op, used' := None, used;
      var rolled: bool := *;
      var candidates := dead - used - reserved[c];
      if !rolled || candidates == {} {
        return;
      }
      var k :| k in candidates;
      DeadIsKnown(b, c, used, key, clock, planted, k);
      dead := dead - {k};
      alive := alive + {k};
      version := version[k := version[k] + 1];
      var word := UpsertWord();
      var ts := FreshTs();
      var chosen := FuzzOp(c, keyOrg[k], k, word, ts, version[k], Revive);
      RevivePending(b, c, used, key, clock, planted, k, chosen);
      op, used' := Some(chosen), used + {k};
    }

    method DoInsert(c: nat, used: set<string>, ghost key: Option<string>, ghost planted: nat)
      returns (op: Option<FuzzOp>, used': set<string>)
      requires FillInv(Model(), c, used, key, clock, planted) && OnlyKnown(Model(), used) && settings.tenants >= 1
      modifies this
      ensures Chose(old(Model()), Model(), op, used, used', c, clock, planted)
      ensures op.None? ==> nextOrdinal >= settings.keyspace
      ensures op.Some? ==> !op.value.IsDelete() && (op.value.scenario == Revive || op.value.scenario == Normal)
      ensures op.Some? && op.value.scenario == Revive ==> op.value.recordId in old(dead)
      ensures op.Some? && op.value.scenario == Normal ==>
                && op.value.recordId == KeyName(old(nextOrdinal))
                && op.value.org == OrgName(old(insertCount) % settings.tenants)
    {
      hide FillInv, Pending, Fresh, OnlyKnown, NormalizeOperation;
      op, used' := MaybeRevive(c, used, key, planted);
      if op.Some? {
        return;
      }
      if nextOrdinal >= settings.keyspace {
        return;
      }
      ghost var b := Model();
      var org := OrgName(insertCount % settings.tenants);
      var k := AllocateKey(org);
      alive := alive + {k};
      version := version[k := 1];
      var word := UpsertWord();
      var ts := FreshTs();
      var chosen := FuzzOp(c, org, k, word, ts, 1, Normal);
      InsertPending(b, c, used, key, clock, planted, org, chosen);
      op, used' := Some(chosen), used + {k};
    }

    method DoUpdate(c: nat, used: set<string>, ghost key: Option<string>, ghost planted: nat)
      returns (op: Option<FuzzOp>, used': set<string>)
      requires FillInv(Model(), c, used, key, clock, planted)
      modifies this
      ensures Chose(old(Model()), Model(), op, used, used', c, clock, planted)
      ensures op.None? <==> old(alive - used - (if c < |reserved| then reserved[c] else {})) == {}
      ensures op.Some? ==> !op.value.IsDelete() && op.value.recordId in old(alive)
    {
      hide FillInv, Pending, Fresh, NormalizeOperation;
      ghost var b := Model();
      InRange(b, c, used, key, clock, planted);
      op, used' := None, used;
      var candidates := alive - used - reserved[c];
      if candidates == {} {
        return;
      }
      var k :| k in candidates;
      AliveIsKnown(b, c, used, key, clock, planted, k);
      version := version[k := version[k] + 1];
      var word := UpsertWord();
      var ts := FreshTs();
      var chosen := FuzzOp(c, keyOrg[k], k, word, ts, version[k], Normal);
      UpdatePending(b, c, used, key, clock, planted, k, chosen);
      op, used' := Some(chosen), used + {k};
    }

    method MaybeRedelete(c: nat, used: set<string>, ghost key: Option<string>, ghost planted: nat)
      returns (op: Option<FuzzOp>, used': set<string>)
      requires FillInv(Model(), c, used, key, clock, planted)
      modifies this
      ensures Chose(old(Model()), Model(), op, used, used', c, clock, planted)
      ensures op.Some? ==> op.value.IsDelete() && op.value.recordId in old(dead)
    {
      hide FillInv, Pending, Fresh, NormalizeOperation;
      InRange(Model(), c, used, key, clock, planted);
      op, used' := None, used;
      var rolled: bool := *;
      var candidates := dead - used - reserved[c];
      if !rolled || candidates == {} {
        return;
      }
      var k :| k in candidates;
      DeadIsKnown(Model(), c, used, key, clock, planted, k);
      var word := DeleteWord();
      var ts := FreshTs();
      var chosen := FuzzOp(c, keyOrg[k], k, word, ts, 1, Redelete);
      RedeletePending(Model(), c, used, key, clock, planted, k, chosen);
      op, used' := Some(chosen), used + {k};
    }

    method DoDelete(c: nat, used: set<string>, ghost key: Option<string>, ghost planted: nat)
      returns (op: Option<FuzzOp>, used': set<string>)
      requires FillInv(Model(), c, used, key, clock, planted) && OnlyKnown(Model(), used) && settings.tenants >= 1
      modifies this
      ensures Chose(old(Model()), Model(), op, used, used', c, clock, planted)
      ensures op.None? ==> alive - used - (if c < |reserved| then reserved[c] else {}) == {}
      ensures op.Some? ==> op.value.IsDelete()
    {
      hide FillInv, Pending, Fresh, OnlyKnown, NormalizeOperation;
      op, used' := MaybeRedelete(c, used, key, planted);
      if op.Some? {
        return;
      }
      ghost var b := Model();
      InRange(b, c, used, key, clock, planted);
      var absent: bool := *;
      if absent {
        var tenant :| 0 <= tenant < settings.tenants;
        var org, id := OrgName(tenant), AbsentName(absentCount);
        absentCount := absentCount + 1;
        keyOrg := keyOrg[id := org];
        var word := DeleteWord();
        var ts := FreshTs();
        var chosen := FuzzOp(c, org, id, word, ts, 1, AbsentDelete);
        AbsentPending(b, c, used, key, clock, planted, org, chosen);
        return Some(chosen), used + {id};
      }
      var candidates := alive - used - reserved[c];
      if candidates == {} {
        return;
      }
      var k :| k in candidates;
      AliveIsKnown(b, c, used, key, clock, planted, k);
      alive := alive - {k};
      dead := dead + {k};
      var word := DeleteWord();
      var ts := FreshTs();
      var chosen := FuzzOp(c, keyOrg[k], k, word, ts, 1, Normal);
      DeletePending(b, c, used, key, clock, planted, k, chosen);
      op, used' := Some(chosen), used + {k};
    }

    /** Try the drawn kind of op, then the other two in the fixed fallback order. */
    method AttemptOp(c: nat, used: set<string>, ghost key: Option<string>, ghost planted: nat)
      returns (op: Option<FuzzOp>, used': set<string>)
      requires FillInv(Model(), c, used, key, clock, planted) && OnlyKnown(Model(), used) && settings.tenants >= 1
      modifies this
      ensures Chose(old(Model()), Model(), op, used, used', c, clock, planted)
      ensures op.None? ==>
                nextOrdinal >= settings.keyspace && alive - used - (if c < |reserved| then reserved[c] else {}) == {}
    {
      hide FillInv, Pending, OnlyKnown;
      var kind :| 0 <= kind < 3;
      if kind == 0 {
        op, used' := DoInsert(c, used, key, planted);
        if op.None? {
          op, used' := DoUpdate(c, used, key, planted);
        }
        if op.None? {
          op, used' := DoDelete(c, used, key, planted);
        }
      } else if kind == 1 {
        op, used' := DoUpdate(c, used, key, planted);
        if op.None? {
          op, used' := DoInsert(c, used, key, planted);
        }
        if op.None? {
          op, used' := DoDelete(c, used, key, planted);
        }
      } else {
        op, used' := DoDelete(c, used, key, planted);
        if op.None? {
          op, used' := DoUpdate(c, used, key, planted);
        }
        if op.None? {
          op, used' := DoInsert(c, used, key, planted);
        }
      }
    }

    /** Reserve the key through the chosen later snapshot and schedule the op there again. */
    method MaybeDuplicate(op: FuzzOp, c: nat, used: set<string>, ghost key: Option<string>, ghost planted: nat)
      requires FillInv(Model(), c, used, key, clock, planted) && settings.snapshots == |ops|
      requires op.snapshot == c && op.recordId in used && (key.Some? ==> op.recordId != key.value)
      requires op.scenario == Normal && !op.IsDelete() ==>
                 op.recordId in alive && op.recordId in keyOrg && keyOrg[op.recordId] == op.org
      requires NoneFrom(ops, c + 1, op.recordId)
      requires Lookup(EndState(ops), op.org, op.recordId) == Some(RowOf(op))
      modifies this
      ensures FillInv(Model(), c, used, key, clock, planted)
      ensures Model() == old(Model()) || Redelivered(old(Model()), Model(), op)
      ensures Extends(old(ops), ops) && keyOrg == old(keyOrg)
    {
      hide FillInv, NoneFrom, EndState, Lookup, RowOf, NormalizeOperation, Emitted, ReserveUpTo, Extends;
      ExtendsItself(ops);
      var rolled: bool := *;
      if op.scenario != Normal || op.IsDelete() || op.snapshot >= settings.snapshots - 1 || !rolled {
        return;
      }
      var target: nat :| op.snapshot + 1 <= target <= settings.snapshots - 1;
      ghost var b := Model();
      InRange(b, c, used, key, clock, planted);
      EmitDuplicate(b, op, target, c, used, key, clock, planted);
      var dup := FuzzOp(target, op.org, op.recordId, op.op, op.ts, op.version, Duplicate);
      EmitExtends(ops, dup);
      ReserveThrough(c + 1, target, op.recordId);
      Emit(dup);
      assert IsRedelivery(b, Model(), op, target);
    }

    /** One attempt: choose an op, emit it, and perhaps schedule its redelivery. */
    method FillOnce(c: nat, used: set<string>, ghost key: Option<string>, ghost planted: nat)
      returns (used': set<string>)
      requires c < |ops| == settings.snapshots && settings.tenants >= 1
      requires FillInv(Model(), c, used, key, clock, planted) && OnlyKnown(Model(), used)
      modifies this
      ensures |ops| == settings.snapshots && Extends(old(ops), ops)
      ensures FillInv(Model(), c, used', key, clock, planted) && OnlyKnown(Model(), used')
    {
      hide FillInv, Pending, OnlyKnown, NoneFrom, EndState, Lookup, Redelivered, Extends, Emitted, NormalizeOperation,
           RowOf;
      ghost var b := Model();
      ExtendsItself(ops);
      var op;
      op, used' := AttemptOp(c, used, key, planted);
      if op.None? {
        return;
      }
      EmitPending(b, Model(), op.value, c, used, key, clock, planted);
      PendingIsKnown(b, Model(), op.value, c, used, clock, planted);
      OnlyKnownAlone(Model(), Model().(ops := Emitted(ops, op.value)), used');
      EmitExtends(ops, op.value);
      Emit(op.value);
      ghost var e := Model();
      MaybeDuplicate(op.value, c, used', key, planted);
      ExtendsTransitive(old(ops), e.ops, ops);
      OnlyKnownAlone(e, Model(), used');
    }

    method FillSnapshot(c: nat, count: nat, ghost key: Option<string>, ghost planted: nat)
      requires c < |ops| == settings.snapshots && settings.tenants >= 1
      requires FillInv(Model(), c, IdsOf(ops[c]), key, clock, planted)
      modifies this
      ensures |ops| == settings.snapshots && Extends(old(ops), ops)
      ensures Filled(Model(), c, key, clock, planted)
    {
      var used := IdsOf(ops[c]);
      IdsAreKnown(Model(), c);
      hide FillInv, OnlyKnown, Extends;
      ExtendsItself(ops);
      for n := 0 to count
        invariant |ops| == settings.snapshots && Extends(old(ops), ops)
        invariant FillInv(Model(), c, used, key, clock, planted) && OnlyKnown(Model(), used)
      {
        ghost var before := ops;
        used := FillOnce(c, used, key, planted);
        ExtendsTransitive(old(ops), before, ops);
      }
    }

    method FillSnapshots(counts: seq<nat>, ghost key: Option<string>, ghost planted: nat)
      requires |counts| == |ops| == settings.snapshots >= 2 && settings.tenants >= 1
      requires FillInv(Model(), 0, IdsOf(ops[0]), key, clock, planted)
      modifies this
      ensures |ops| == settings.snapshots && Extends(old(ops), ops)
      ensures Filled(Model(), settings.snapshots - 1, key, clock, planted)
    {
      hide FillInv, IdsOf;
      ghost var used := IdsOf(ops[0]);
      for c := 0 to settings.snapshots
        invariant |ops| == settings.snapshots && Extends(old(ops), ops)
        invariant c < settings.snapshots ==> FillInv(Model(), c, IdsOf(ops[c]), key, clock, planted)
        invariant c > 0 ==> FillInv(Model(), c - 1, used, key, clock, planted)
      {
        FillSnapshot(c, counts[c], key, planted);
        used :| FillInv(Model(), c, used, key, clock, planted);
        if c + 1 < settings.snapshots {
          NextSnapshot(Model(), c, used, IdsOf(ops[c + 1]), key, clock, planted);
        }
      }
    }

    /** Plant the expired-live, stale-tombstone and ancient-tombstone ids of every organization. */
    method PlantRetentionBands()
      requires PlantInv(Model(), 0, clock) && |ops| == settings.snapshots
      modifies this
      ensures PlantInv(Model(), settings.tenants, clock) && |ops| == settings.snapshots
    {
      hide PlantInv, NormalizeOperation, Fresh, OrgName, IsBand, Emitted, ReserveBands;
      for i := 0 to settings.tenants
        invariant |ops| == settings.snapshots && PlantInv(Model(), i, clock)
      {
        PlantInvShape(Model(), i, clock);
        ghost var b := Model();
        var org := OrgName(i);
        BandNames(org);
        var xlKey, stKey, atKey := "xl-" + org, "st-" + org, "at-" + org;
        version := version[xlKey := 1];
        var xlWord := UpsertWord();
        var xl := FuzzOp(0, org, xlKey, xlWord, clock.now - clock.retention * XL_LIVE_MULTIPLIER * SECOND, 1, Xl);
        Emit(xl);
        version := version[stKey := 1];
        var upWord := UpsertWord();
        var upTs := FreshTs();
        var up := FuzzOp(0, org, stKey, upWord, upTs, 1, St);
        Emit(up);
        var stWord := DeleteWord();
        var st := FuzzOp(1, org, stKey, stWord, clock.now - clock.retention * ST_TOMBSTONE_MULTIPLIER * SECOND, 1, St);
        Emit(st);
        var atWord := DeleteWord();
        var at := FuzzOp(0, org, atKey, atWord, clock.now - ANCIENT_TOMBSTONE_SECONDS * SECOND, 1, Scenario.At);
        Emit(at);
        ReserveEverywhere({xlKey, stKey, atKey});
        assert Model() == Planted(b, xl, up, st, at);
        PlantOrgKeeps(b, i, clock, xl, up, st, at);
      }
    }

    /** Reserve one key in snapshots `lo` through `hi`. */
    method ReserveThrough(lo: nat, hi: nat, id: string)
      requires lo <= hi < |reserved|
      modifies this`reserved
      ensures reserved == ReserveUpTo(old(reserved), lo, hi, id)
    {
      for s := lo to hi + 1
        invariant |reserved| == |old(reserved)|
        invariant forall t :: 0 <= t < |reserved| ==>
                    reserved[t] == if lo <= t < s then old(reserved)[t] + {id} else old(reserved)[t]
      {
        reserved := reserved[s := reserved[s] + {id}];
      }
    }

    method ReserveEverywhere(ids: set<string>)
      modifies this`reserved
      ensures reserved == ReserveBands(old(reserved), ids)
    {
      for s := 0 to |reserved|
        invariant |reserved| == |old(reserved)|
        invariant forall t :: 0 <= t < |reserved| ==>
                    reserved[t] == if t < s then old(reserved)[t] + ids else old(reserved)[t]
      {
        reserved := reserved[s := reserved[s] + ids];
      }
    }

    /** One baseline key per organization in the first snapshot. */
    method SeedOrgs(ghost planted: nat)
      requires SeedInv(Model(), 0, clock, planted) && |ops| == settings.snapshots
      modifies this
      ensures SeedInv(Model(), settings.tenants, clock, planted) && |ops| == settings.snapshots
    {
      hide SeedInv, FillInv, OnlyKnown, NormalizeOperation, Fresh, OrgName, KeyName, IdsOf, Emitted;
      for i := 0 to settings.tenants
        invariant SeedInv(Model(), i, clock, planted) && |ops| == settings.snapshots
      {
        ghost var b := Model();
        SeedRange(b, i, clock, planted);
        var org := OrgName(i);
        var k := AllocateKey(org);
        alive := alive + {k};
        version := version[k := 1];
        var word := UpsertWord();
        var ts := FreshTs();
        var op := FuzzOp(0, org, k, word, ts, 1, Normal);
        Emit(op);
        assert Model() == Born(b, org).(ops := Emitted(b.ops, op));
        SeedKeeps(b, i, clock, planted, op);
      }
    }

    /** Set one live key of the first organization aside for the conflict pair. */
    method ReserveConflictKey(ghost planted: nat) returns (key: Option<string>)
      requires SeedInv(Model(), settings.tenants, clock, planted) && |ops| == settings.snapshots
      requires settings.tenants >= 1
      modifies this`reserved
      ensures |ops| == settings.snapshots >= 2 && key.Some? == settings.conflict && Baselines(ops, settings.tenants)
      ensures FillInv(Model(), 0, IdsOf(ops[0]), key, clock, planted)
      ensures key.Some? ==> forall x :: x in alive && x in keyOrg && keyOrg[x] == OrgName(0) && x != key.value ==>
                TextLess(key.value, x)
    {
      hide FillInv;
      SeedRange(Model(), settings.tenants, clock, planted);
      if !settings.conflict {
        return None;
      }
      var candidates := set k | k in alive && k in keyOrg && keyOrg[k] == OrgName(0);
      assert KeyName(0) in candidates;
      var ordered := Texts.SortTexts(candidates);
      assert KeyName(0) in ordered;
      var k := ordered[0];
      assert k in ordered;
      assert forall x :: x in candidates && x != k ==> TextLess(k, x) by {
        SmallestFirst(ordered);
      }
      ghost var b := Model();
      ReserveThrough(1, settings.snapshots - 1, k);
      key := Some(k);
      AsideKeeps(b, settings.tenants, clock, planted, k);
    }

    /** A distinct update and delete of the set-aside key, both in the final snapshot. */
    method InjectConflict(key: string) returns (up: FuzzOp, del: FuzzOp)
      requires |ops| == settings.snapshots >= 2 && key in version
      modifies this`ops
      ensures up.snapshot == del.snapshot == settings.snapshots - 1
      ensures ConflictPair(up, del, key, version[key] + 1, settings.snapshots - 1, clock)
      ensures ops == Emitted(Emitted(old(ops), up), del)
    {
      hide NormalizeOperation, Fresh, OrgName;
      var upWord := UpsertWord();
      var upTs := FreshTs();
      up := FuzzOp(settings.snapshots - 1, OrgName(0), key, upWord, upTs, version[key] + 1, ConflictUpdate);
      Emit(up);
      var delWord := DeleteWord();
      var delTs := FreshTs();
      del := FuzzOp(settings.snapshots - 1, OrgName(0), key, delWord, delTs, version[key] + 1, ConflictDelete);
      Emit(del);
    }
  }

  lemma SmallestFirst(s: seq<string>)
    requires s != [] && Orders.StrictlySorted(s, TextLess)
    ensures forall x :: x in s && x != s[0] ==> TextLess(s[0], x)
  {
    hide TextLess;
  }

  lemma OnlyKnownAlone(b: Book, b': Book, used: set<string>)
    requires OnlyKnown(b, used) && b'.keyOrg == b.keyOrg
    ensures OnlyKnown(b', used)
  {
  }
}
