/** When overlapping transactions lose a default: no lock covers the deferred check that every source's
    default specification has an ACTIVE revision, and this is exactly when that shows. */
module Crossing {
  import opened Wrappers
  import opened Lifecycle
  import opened Overlap

  // ---------- two sets of writes ----------

  predicate WritesSource(d: Delta, spec: Id)
  {
    exists k :: k in d.sources && d.sources[k].Some? && d.sources[k].value.defaultSpec == spec
  }

  predicate WritesActive(d: Delta, spec: Id)
  {
    exists k :: k in d.revisions && d.revisions[k].Some? && ActiveOf(d.revisions[k].value, spec)
  }

  predicate ActiveOf(r: Revision, spec: Id)
  {
    r.spec == spec && r.state == Active
  }

  /** The writes replace or delete the revision that was ACTIVE for the specification. */
  predicate TakesActive(db: DB, d: Delta, spec: Id)
  {
    exists k :: k in d.revisions && k in db.revisions && ActiveOf(db.revisions[k], spec)
  }

  /** `x` puts a source on the specification, `y` takes its ACTIVE revision away, and neither provides
      another. */
  predicate Crossed(db: DB, x: Delta, y: Delta, spec: Id)
  {
    WritesSource(x, spec) && TakesActive(db, y, spec) && !WritesActive(x, spec) && !WritesActive(y, spec)
  }

  /** One of the two crosses the other over some specification. */
  ghost predicate Cross(db: DB, a: Delta, b: Delta)
  {
    exists spec :: Crossed(db, a, b, spec) || Crossed(db, b, a, spec)
  }

  /** The ACTIVE revision of the specification is among the rows not written. */
  predicate Spares(db: DB, d: Delta, spec: Id)
  {
    exists k :: k in db.revisions && k !in d.revisions && ActiveOf(db.revisions[k], spec)
  }

  predicate BothSpare(db: DB, a: Delta, b: Delta, spec: Id)
  {
    exists k :: k in db.revisions && k !in a.revisions && k !in b.revisions && ActiveOf(db.revisions[k], spec)
  }

  /** The specification is served in a view by a written revision or by one that was not written. */
  lemma ServedBy(db: DB, d: Delta, spec: Id)
    ensures HasActive(View(db, d).revisions, spec) <==> WritesActive(d, spec) || Spares(db, d, spec)
  {
    var v := View(db, d).revisions;
    if WritesActive(d, spec) {
      var k :| k in d.revisions && d.revisions[k].Some? && ActiveOf(d.revisions[k].value, spec);
      assert k in v && v[k].spec == spec && v[k].state == Active;
    }
    if Spares(db, d, spec) {
      var k :| k in db.revisions && k !in d.revisions && ActiveOf(db.revisions[k], spec);
      assert k in v && v[k].spec == spec && v[k].state == Active;
    }
    if HasActive(v, spec) {
      var k :| k in v && v[k].spec == spec && v[k].state == Active;
      assert ActiveOf(v[k], spec);
    }
  }

  /** Both sets of writes together, seen from the rows below them. */
  lemma ServedByBoth(db: DB, a: Delta, b: Delta, spec: Id)
    requires a.revisions.Keys !! b.revisions.Keys
    ensures HasActive(View(View(db, b), a).revisions, spec) <==>
              WritesActive(a, spec) || WritesActive(b, spec) || BothSpare(db, a, b, spec)
  {
    var mid := View(db, b);
    ServedBy(mid, a, spec);
    hide HasActive;
    if WritesActive(b, spec) {
      var k :| k in b.revisions && b.revisions[k].Some? && ActiveOf(b.revisions[k].value, spec);
      assert k in mid.revisions && k !in a.revisions && ActiveOf(mid.revisions[k], spec);
    }
    if BothSpare(db, a, b, spec) {
      var k :| k in db.revisions && k !in a.revisions && k !in b.revisions && ActiveOf(db.revisions[k], spec);
      assert k in mid.revisions && k !in a.revisions && ActiveOf(mid.revisions[k], spec);
    }
    if Spares(mid, a, spec) {
      var k :| k in mid.revisions && k !in a.revisions && ActiveOf(mid.revisions[k], spec);
      assert k in b.revisions ==> WritesActive(b, spec);
    }
  }

  lemma OneActiveOf(revisions: map<Id, Revision>, x: Id, y: Id, spec: Id)
    requires Separated(revisions) && x in revisions && y in revisions
    requires ActiveOf(revisions[x], spec) && ActiveOf(revisions[y], spec)
    ensures x == y
  {
    assert Clashes(revisions[x], revisions[y]);
  }

  /** What only one side spares, the other took. */
  lemma SparedOrTaken(db: DB, a: Delta, b: Delta, spec: Id)
    requires Separated(db.revisions)
    ensures Spares(db, a, spec) && !BothSpare(db, a, b, spec) ==> TakesActive(db, b, spec)
    ensures Spares(db, b, spec) && !BothSpare(db, a, b, spec) ==> TakesActive(db, a, spec)
    ensures Spares(db, a, spec) && Spares(db, b, spec) ==> BothSpare(db, a, b, spec)
  {
    hide ActiveOf;
    if Spares(db, a, spec) && Spares(db, b, spec) {
      var x :| x in db.revisions && x !in a.revisions && ActiveOf(db.revisions[x], spec);
      var y :| y in db.revisions && y !in b.revisions && ActiveOf(db.revisions[y], spec);
      OneActiveOf(db.revisions, x, y, spec);
    }
  }

  /** Where a source row of both together comes from, and who had to serve it. */
  lemma SourceOrigin(db: DB, a: Delta, b: Delta, k: Id)
    requires a.sources.Keys !! b.sources.Keys && k in View(View(db, b), a).sources
    requires DefaultsActive(View(db, a)) && DefaultsActive(View(db, b))
    ensures var spec := View(View(db, b), a).sources[k].defaultSpec;
            && (k in a.sources ==> WritesSource(a, spec)) && (k in b.sources ==> WritesSource(b, spec))
            && (k !in b.sources ==> HasActive(View(db, a).revisions, spec))
            && (k !in a.sources ==> HasActive(View(db, b).revisions, spec))
  {
    hide HasActive;
    var va, vb, v := View(db, a), View(db, b), View(View(db, b), a);
    assert k !in b.sources ==> k in va.sources && va.sources[k] == v.sources[k];
    assert k !in a.sources ==> k in vb.sources && vb.sources[k] == v.sources[k];
  }

  /** A source nobody serves any more was written by one side while the other took its revision away. */
  lemma UnservedIsCrossed(db: DB, a: Delta, b: Delta, k: Id)
    requires a.revisions.Keys !! b.revisions.Keys && a.sources.Keys !! b.sources.Keys && Separated(db.revisions)
    requires DefaultsActive(View(db, a)) && DefaultsActive(View(db, b))
    requires k in View(View(db, b), a).sources
    requires !HasActive(View(View(db, b), a).revisions, View(View(db, b), a).sources[k].defaultSpec)
    ensures var spec := View(View(db, b), a).sources[k].defaultSpec;
            Crossed(db, a, b, spec) || Crossed(db, b, a, spec)
  {
    hide View, HasActive, DefaultsActive, Separated, Spares, BothSpare, WritesActive, WritesSource, TakesActive;
    var spec := View(View(db, b), a).sources[k].defaultSpec;
    SourceOrigin(db, a, b, k);
    ServedByBoth(db, a, b, spec);
    ServedBy(db, a, spec);
    ServedBy(db, b, spec);
    SparedOrTaken(db, a, b, spec);
  }

  /** What one side took, the two together do not spare. */
  lemma TakenIsNotSpared(db: DB, a: Delta, b: Delta, spec: Id)
    requires Separated(db.revisions) && (TakesActive(db, a, spec) || TakesActive(db, b, spec))
    ensures !BothSpare(db, a, b, spec)
  {
    hide ActiveOf, Separated;
    var r :| (r in a.revisions || r in b.revisions) && r in db.revisions && ActiveOf(db.revisions[r], spec);
    forall q | q in db.revisions && ActiveOf(db.revisions[q], spec) ensures q == r {
      OneActiveOf(db.revisions, q, r, spec);
    }
  }

  /** A source either side wrote is there when both are. */
  lemma WrittenIsThere(db: DB, a: Delta, b: Delta, spec: Id) returns (k: Id)
    requires a.sources.Keys !! b.sources.Keys && (WritesSource(a, spec) || WritesSource(b, spec))
    ensures var v := View(View(db, b), a); k in v.sources && v.sources[k].defaultSpec == spec
  {
    if WritesSource(a, spec) {
      k :| k in a.sources && a.sources[k].Some? && a.sources[k].value.defaultSpec == spec;
    } else {
      k :| k in b.sources && b.sources[k].Some? && b.sources[k].value.defaultSpec == spec;
    }
  }

  lemma CrossedIsUnserved(db: DB, a: Delta, b: Delta, spec: Id)
    requires a.revisions.Keys !! b.revisions.Keys && a.sources.Keys !! b.sources.Keys && Separated(db.revisions)
    requires Crossed(db, a, b, spec) || Crossed(db, b, a, spec)
    ensures !DefaultsActive(View(View(db, b), a))
  {
    hide View, HasActive, Separated, Spares, BothSpare, WritesActive, WritesSource, TakesActive;
    ServedByBoth(db, a, b, spec);
    TakenIsNotSpared(db, a, b, spec);
    var k := WrittenIsThere(db, a, b, spec);
  }

  /** Two sets of writes that each leave every default served lose one together if and only if they
      cross: one puts a source on a specification whose ACTIVE revision the other takes away. */
  lemma LostExactlyWhenCrossed(db: DB, a: Delta, b: Delta)
    requires a.revisions.Keys !! b.revisions.Keys && a.sources.Keys !! b.sources.Keys && Separated(db.revisions)
    requires DefaultsActive(View(db, a)) && DefaultsActive(View(db, b))
    ensures !DefaultsActive(View(View(db, b), a)) <==> Cross(db, a, b)
  {
    var v := View(View(db, b), a);
    hide Crossed, View, Separated;
    if !DefaultsActive(v) {
      var k :| k in v.sources && !HasActive(v.revisions, v.sources[k].defaultSpec);
      UnservedIsCrossed(db, a, b, k);
    }
    if Cross(db, a, b) {
      var spec :| Crossed(db, a, b, spec) || Crossed(db, b, a, spec);
      CrossedIsUnserved(db, a, b, spec);
    }
  }

  // ---------- lifted to runs ----------

  /** A passed check saw good rows, which the commits since have turned into the present ones without
      touching a row this transaction wrote. */
  ghost predicate CheckHolds(db: DB, tx: Tx)
  {
    tx.seen.Some? ==>
      var rows, since := tx.seen.value.rows, tx.seen.value.since;
      && View(rows, since) == db && Separated(rows.revisions) && DefaultsActive(View(rows, tx.delta))
      && tx.delta.revisions.Keys !! since.revisions.Keys && tx.delta.sources.Keys !! since.sources.Keys
  }

  ghost predicate ChecksHold(s: State)
  {
    forall i :: i in s.open ==> CheckHolds(s.db, s.open[i])
  }

  lemma LaidOver<T(!new)>(m: map<Id, T>, d: Writes<T>, e: Writes<T>)
    ensures Laid(m, d + e) == Laid(Laid(m, d), e)
  {
  }

  lemma ViewOver(db: DB, d: Delta, e: Delta)
    ensures View(db, Over(d, e)) == View(View(db, d), e)
  {
    hide Laid;
    LaidOver(db.revisions, d.revisions, e.revisions);
    LaidOver(db.fields, d.fields, e.fields);
    LaidOver(db.indexes, d.indexes, e.indexes);
    LaidOver(db.sources, d.sources, e.sources);
    LaidOver(db.datasets, d.datasets, e.datasets);
  }

  lemma CommitKeepsCheck(db: DB, a: Tx, b: Tx)
    requires CheckHolds(db, a) && Respects(db, a, b)
    ensures CheckHolds(View(db, b.delta), Overtaken(a, b.delta))
  {
    hide View, DefaultsActive, Separated, PendingClash, KeepsKey, KeepsFieldKey;
    if a.seen.Some? {
      ViewOver(a.seen.value.rows, a.seen.value.since, b.delta);
    }
  }

  lemma CheckIsFresh(db: DB, tx: Tx)
    requires Consistent(db) && DefaultsActive(View(db, tx.delta))
    ensures CheckHolds(db, tx.(seen := Some(Snapshot(db, NOTHING))))
  {
    NothingWritten(db);
    hide View;
  }

  lemma StepKeepsChecks(s: State, step: Step)
    requires Inv(s) && ChecksHold(s) && Enabled(s, step)
    ensures ChecksHold(Next(s, step))
  {
    hide TxInv, Respects, Consistent, View, DefaultsActive, CheckHolds, Allowed, LocksFree;
    var t := Next(s, step);
    match step
    case Begin(i) => NoCheck(s.db, FRESH);
    case Run(i, stmt) => NoCheck(s.db, t.open[i]);
    case Check(i) => CheckIsFresh(s.db, s.open[i]);
    case Publish(i) =>
      forall j | j in t.open ensures CheckHolds(t.db, t.open[j]) {
        CommitKeepsCheck(s.db, s.open[j], s.open[i]);
      }
    case Abort(i) =>
  }

  lemma NoCheck(db: DB, tx: Tx)
    requires tx.seen.None?
    ensures CheckHolds(db, tx)
  {
  }

  lemma HarmlessKeepsDefaults(db: DB, tx: Tx)
    requires Harmless(db, tx) && !tx.queued && DefaultsActive(db)
    ensures DefaultsActive(View(db, tx.delta))
  {
    var v := View(db, tx.delta);
    assert v.revisions == db.revisions;
    forall k | k in v.sources ensures HasActive(v.revisions, v.sources[k].defaultSpec) {
      if k in tx.delta.sources {
        assert OldDefault(db, tx.delta.sources, v.sources[k].defaultSpec);
        var x :| x in tx.delta.sources && x in db.sources && db.sources[x].defaultSpec == v.sources[k].defaultSpec;
        assert HasActive(db.revisions, db.sources[x].defaultSpec);
      }
    }
  }

  /** The commit crosses what others have committed since its check. */
  ghost predicate Crosses(s: State, step: Step)
  {
    && step.Publish? && step.i in s.open && s.open[step.i].queued && s.open[step.i].seen.Some?
    && Cross(s.open[step.i].seen.value.rows, s.open[step.i].delta, s.open[step.i].seen.value.since)
  }

  /** A step leaves some default unserved if and only if it is a commit that crosses. */
  lemma StepLosesExactly(s: State, step: Step)
    requires Inv(s) && ChecksHold(s) && DefaultsActive(s.db) && Enabled(s, step)
    ensures DefaultsActive(Next(s, step).db) <==> !Crosses(s, step)
  {
    hide View, DefaultsActive, Allowed, LocksFree, Consistent, Frozen, Locked, Respects, Separated, Cross;
    if step.Publish? {
      var tx := s.open[step.i];
      assert TxInv(s.db, tx) && CheckHolds(s.db, tx);
      if tx.queued {
        LostExactlyWhenCrossed(tx.seen.value.rows, tx.delta, tx.seen.value.since);
      } else {
        HarmlessKeepsDefaults(s.db, tx);
      }
    }
  }

  /** Every default is served after every step of the run. */
  ghost predicate AlwaysServed(s: State, run: seq<Step>)
    requires ValidRun(s, run)
    decreases |run|
  {
    DefaultsActive(s.db) && (run == [] || AlwaysServed(Next(s, run[0]), run[1..]))
  }

  /** No commit of the run crosses what was committed since its check. */
  ghost predicate NeverCrosses(s: State, run: seq<Step>)
    requires ValidRun(s, run)
    decreases |run|
  {
    run == [] || (!Crosses(s, run[0]) && NeverCrosses(Next(s, run[0]), run[1..]))
  }

  /** Over every interleaving: each source's default specification is served at every commit if and
      only if no commit crosses another. */
  lemma {:induction false} ServedExactlyUnlessCrossed(s: State, run: seq<Step>)
    requires Inv(s) && ChecksHold(s) && DefaultsActive(s.db) && ValidRun(s, run)
    ensures AlwaysServed(s, run) <==> NeverCrosses(s, run)
    decreases |run|
  {
    hide Inv, ChecksHold, DefaultsActive, Next, Enabled, Crosses;
    if run != [] {
      StepLosesExactly(s, run[0]);
      StepKeepsInv(s, run[0]);
      StepKeepsChecks(s, run[0]);
      var t := Next(s, run[0]);
      if !Crosses(s, run[0]) {
        ServedExactlyUnlessCrossed(t, run[1..]);
      } else {
        NotServed(t, run[1..]);
      }
    }
  }

  lemma NotServed(s: State, run: seq<Step>)
    requires ValidRun(s, run) && !DefaultsActive(s.db)
    ensures !AlwaysServed(s, run)
  {
  }

  /** A good start: no transaction is open. */
  lemma StartIsFine(db: DB)
    requires Consistent(db)
    ensures Inv(State(db, map[])) && ChecksHold(State(db, map[]))
  {
  }

  // ---------- the overlap that loses a default ----------

  /** One specification with its ACTIVE revision `id`, and nothing else. */
  function Lone(id: Id, r: Revision): DB
  {
    DB(map[id := r], map[], map[], map[], map[])
  }

  function Adding(k: Id, source: Source): Tx
  {
    Tx(NOTHING.(sources := map[k := Some(source)]), {}, {}, {}, true, None)
  }

  function Retiring(id: Id, r: Revision): Tx
  {
    Tx(NOTHING.(revisions := map[id := Some(r.(state := Retired))]), {}, {}, {}, true, None)
  }

  lemma NotedNothing<T(!new)>(after: map<Id, T>)
    ensures Noted(map[], {}, after) == map[]
  {
  }

  lemma NotedOne<T(!new)>(k: Id, after: map<Id, T>)
    requires k in after
    ensures Noted(map[], {k}, after) == map[k := Some(after[k])]
  {
  }

  lemma AddingRuns(db: DB, k: Id, source: Source)
    requires k !in db.sources
    ensures Allowed(View(db, NOTHING), InsertSource(k, source))
    ensures AfterStatement(db, FRESH, InsertSource(k, source)) == Adding(k, source)
  {
    hide Noted, View;
    NothingWritten(db);
    NotedNothing(db.revisions);
    NotedNothing(db.fields);
    NotedNothing(db.indexes);
    NotedNothing(db.datasets);
    NotedOne(k, db.sources[k := source]);
  }

  lemma RetiringRuns(id: Id, r: Revision)
    requires r.state == Active && r.activatedAt.Some? && r.supersedes.None?
    ensures var stmt := UpdateRevision(id, id, r.(state := Retired));
            Allowed(View(Lone(id, r), NOTHING), stmt) && AfterStatement(Lone(id, r), FRESH, stmt) == Retiring(id, r)
  {
    var db := Lone(id, r);
    hide Noted, View;
    NothingWritten(db);
    NotedNothing(db.fields);
    NotedNothing(db.indexes);
    NotedNothing(db.sources);
    NotedNothing(db.datasets);
    assert {id, id} == {id};
    NotedOne(id, Rekey(db.revisions, id, id, r.(state := Retired)));
    assert db.revisions - {id} == map[];
  }

  lemma StrangersRespect(db: DB, id: Id, r: Revision, k: Id, source: Source)
    ensures Respects(db, Adding(k, source), Retiring(id, r)) && Respects(db, Retiring(id, r), Adding(k, source))
  {
  }

  /** One transaction adds a source on the specification while another retires its only ACTIVE
      revision; each check passes before either commit is visible, and the default ends up unserved. */
  function Colliding(id: Id, r: Revision, k: Id, source: Source): seq<Step>
  {
    [Begin(1), Begin(2), Run(1, InsertSource(k, source)), Run(2, UpdateRevision(id, id, r.(state := Retired))),
     Check(1), Check(2), Publish(1), Publish(2)]
  }

  lemma CollidingChecks(id: Id, r: Revision, k: Id, source: Source)
    requires r.state == Active && source.defaultSpec == r.spec
    ensures var db := Lone(id, r);
            && DefaultsActive(View(db, Adding(k, source).delta)) && DefaultsActive(View(db, Retiring(id, r).delta))
            && View(db, Adding(k, source).delta) == db.(sources := map[k := source])
            && View(db.(sources := map[k := source]), Retiring(id, r).delta)
                 == DB(map[id := r.(state := Retired)], map[], map[], map[k := source], map[])
            && !DefaultsActive(DB(map[id := r.(state := Retired)], map[], map[], map[k := source], map[]))
  {
    var db := Lone(id, r);
    var v := View(db, Adding(k, source).delta);
    assert v.sources == map[k := source] && v.revisions == map[id := r];
    assert v.revisions[id].spec == source.defaultSpec;
    assert View(db, Retiring(id, r).delta).sources == map[];
    var end := DB(map[id := r.(state := Retired)], map[], map[], map[k := source], map[]);
    assert k in end.sources && !HasActive(end.revisions, end.sources[k].defaultSpec);
    assert Laid(map[id := r], map[id := Some(r.(state := Retired))]) == map[id := r.(state := Retired)];
  }

  ghost predicate Goes(s: State, step: Step, t: State)
  {
    Enabled(s, step) && Next(s, step) == t
  }

  ghost predicate Reaches(s: State, run: seq<Step>, t: State)
  {
    ValidRun(s, run) && After(s, run) == t
  }

  lemma Prepended(s: State, step: Step, t: State, rest: seq<Step>, u: State)
    requires Goes(s, step, t) && Reaches(t, rest, u)
    ensures Reaches(s, [step] + rest, u)
  {
    hide Next, Enabled;
    assert ([step] + rest)[1..] == rest;
  }

  lemma CollidingOpens(db: DB)
    ensures Goes(State(db, map[]), Begin(1), State(db, map[1 := FRESH]))
    ensures Goes(State(db, map[1 := FRESH]), Begin(2), State(db, map[1 := FRESH, 2 := FRESH]))
  {
    assert map[1 := FRESH][2 := FRESH] == map[1 := FRESH, 2 := FRESH];
  }

  lemma CollidingAdds(db: DB, k: Id, source: Source)
    requires k !in db.sources && Consistent(db)
    ensures Goes(State(db, map[1 := FRESH, 2 := FRESH]), Run(1, InsertSource(k, source)),
                 State(db, map[1 := Adding(k, source), 2 := FRESH]))
  {
    hide Respects, Allowed, AfterStatement, View, Adding, Consistent, TxInv, DefaultsActive;
    AddingRuns(db, k, source);
    FreshIsFine(db, Adding(k, source));
    var open := map[1 := FRESH, 2 := FRESH];
    assert open[1 := Adding(k, source)] == map[1 := Adding(k, source), 2 := FRESH];
  }

  lemma CollidingRetires(id: Id, r: Revision, k: Id, source: Source)
    requires r.state == Active && r.activatedAt.Some? && r.supersedes.None?
    ensures Goes(State(Lone(id, r), map[1 := Adding(k, source), 2 := FRESH]),
                 Run(2, UpdateRevision(id, id, r.(state := Retired))),
                 State(Lone(id, r), map[1 := Adding(k, source), 2 := Retiring(id, r)]))
  {
    hide Respects, Allowed, AfterStatement, View, Lone, DefaultsActive;
    RetiringRuns(id, r);
    StrangersRespect(Lone(id, r), id, r, k, source);
    hide Adding, Retiring;
    var open := map[1 := Adding(k, source), 2 := FRESH];
    assert open[2 := Retiring(id, r)] == map[1 := Adding(k, source), 2 := Retiring(id, r)];
  }

  function Checked(db: DB, tx: Tx): Tx
  {
    tx.(seen := Some(Snapshot(db, NOTHING)))
  }

  lemma ChecksGo(db: DB, a: Tx, b: Tx)
    requires DefaultsActive(View(db, a.delta)) && DefaultsActive(View(db, b.delta))
    ensures Goes(State(db, map[1 := a, 2 := b]), Check(1), State(db, map[1 := Checked(db, a), 2 := b]))
    ensures Goes(State(db, map[1 := Checked(db, a), 2 := b]), Check(2),
                 State(db, map[1 := Checked(db, a), 2 := Checked(db, b)]))
  {
    hide View, DefaultsActive;
    var ca, cb := Checked(db, a), Checked(db, b);
    assert map[1 := a, 2 := b][1 := ca] == map[1 := ca, 2 := b];
    assert map[1 := ca, 2 := b][2 := cb] == map[1 := ca, 2 := cb];
  }

  lemma PublishesGo(db: DB, a: Tx, b: Tx)
    requires a.queued && b.queued
    ensures var mid, ca, cb := View(db, a.delta), Checked(db, a), Checked(db, b);
            && Goes(State(db, map[1 := ca, 2 := cb]), Publish(1), State(mid, map[2 := Overtaken(cb, a.delta)]))
            && Goes(State(mid, map[2 := Overtaken(cb, a.delta)]), Publish(2), State(View(mid, b.delta), map[]))
  {
    hide View, DefaultsActive;
    var ca, cb := Checked(db, a), Checked(db, b);
    var late := Overtaken(cb, a.delta);
    assert late.delta == b.delta && late.queued && late.seen.Some?;
    hide Overtaken;
    assert Informed(map[1 := ca, 2 := cb], 1) == map[2 := late];
    assert Informed(map[2 := late], 2) == map[];
  }

  lemma LastStep(s: State, step: Step, t: State)
    requires Goes(s, step, t)
    ensures Reaches(s, [step], t)
  {
    hide Next, Enabled;
    assert [step][1..] == [];
    assert ValidRun(t, []) && After(t, []) == t;
  }

  lemma LoneIsFine(id: Id, r: Revision)
    requires r.state == Active && r.activatedAt.Some? && r.supersedes.None?
    ensures Consistent(Lone(id, r)) && DefaultsActive(Lone(id, r)) && Lone(id, r).sources == map[]
  {
    SeedIsConsistent(id, r, map[], map[]);
  }

  lemma CollidingRun(id: Id, r: Revision, k: Id, source: Source)
    requires r.state == Active && r.activatedAt.Some? && r.supersedes.None? && source.defaultSpec == r.spec
    ensures var end := State(DB(map[id := r.(state := Retired)], map[], map[], map[k := source], map[]), map[]);
            Reaches(State(Lone(id, r), map[]), Colliding(id, r, k, source), end) && !DefaultsActive(end.db)
  {
    hide Goes, Reaches, Lone, Checked, Overtaken, Consistent, DefaultsActive, View;
    var db, a, b := Lone(id, r), Adding(k, source), Retiring(id, r);
    LoneIsFine(id, r);
    CollidingOpens(db);
    CollidingAdds(db, k, source);
    CollidingRetires(id, r, k, source);
    CollidingChecks(id, r, k, source);
    ChecksGo(db, a, b);
    PublishesGo(db, a, b);
    hide Adding, Retiring;
    var ca, cb := Checked(db, a), Checked(db, b);
    var mid, late := View(db, a.delta), Overtaken(cb, a.delta);
    var end := State(View(mid, b.delta), map[]);
    var add, retire := Run(1, InsertSource(k, source)), Run(2, UpdateRevision(id, id, r.(state := Retired)));
    var r7 := [Publish(2)];
    LastStep(State(mid, map[2 := late]), Publish(2), end);
    var r6 := [Publish(1)] + r7;
    Prepended(State(db, map[1 := ca, 2 := cb]), Publish(1), State(mid, map[2 := late]), r7, end);
    var r5 := [Check(2)] + r6;
    Prepended(State(db, map[1 := ca, 2 := b]), Check(2), State(db, map[1 := ca, 2 := cb]), r6, end);
    var r4 := [Check(1)] + r5;
    Prepended(State(db, map[1 := a, 2 := b]), Check(1), State(db, map[1 := ca, 2 := b]), r5, end);
    var r3 := [retire] + r4;
    Prepended(State(db, map[1 := a, 2 := FRESH]), retire, State(db, map[1 := a, 2 := b]), r4, end);
    var r2 := [add] + r3;
    Prepended(State(db, map[1 := FRESH, 2 := FRESH]), add, State(db, map[1 := a, 2 := FRESH]), r3, end);
    var r1 := [Begin(2)] + r2;
    Prepended(State(db, map[1 := FRESH]), Begin(2), State(db, map[1 := FRESH, 2 := FRESH]), r2, end);
    Prepended(State(db, map[]), Begin(1), State(db, map[1 := FRESH]), r1, end);
    assert [Begin(1)] + r1 == Colliding(id, r, k, source);
  }

  /** Crossing is possible: this run loses the default of the added source. */
  lemma CollisionLosesDefault(id: Id, r: Revision, k: Id, source: Source)
    requires r.state == Active && r.activatedAt.Some? && r.supersedes.None? && source.defaultSpec == r.spec
    ensures var start, run := State(Lone(id, r), map[]), Colliding(id, r, k, source);
            && Inv(start) && ChecksHold(start) && DefaultsActive(start.db)
            && ValidRun(start, run) && !DefaultsActive(After(start, run).db)
  {
    hide Inv, ChecksHold, DefaultsActive, Consistent, ValidRun, After, Lone, Colliding;
    LoneIsFine(id, r);
    StartIsFine(Lone(id, r));
    CollidingRun(id, r, k, source);
  }
}
