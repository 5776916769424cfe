/** Overlapping transactions under READ COMMITTED, with the row locks the triggers and foreign keys
    take. A statement sees the committed rows and its own transaction's writes. It runs only when the
    locks it needs are free; otherwise it waits, which here means it is not enabled yet. */
module Overlap {
  import opened Wrappers
  import opened Lifecycle

  // ---------- uncommitted writes ----------

  /** The rows a transaction wrote, by primary key; `None` is a deleted row. */
  type Writes<T> = map<Id, Option<T>>

  function Laid<T>(m: map<Id, T>, w: Writes<T>): (r: map<Id, T>)
    ensures forall k :: k in r <==> if k in w then w[k].Some? else k in m
    ensures forall k :: k in r ==> r[k] == if k in w then w[k].value else m[k]
  {
    map k | k in m.Keys + w.Keys && (if k in w then w[k].Some? else true) :: if k in w then w[k].value else m[k]
  }

  function Noted<T>(w: Writes<T>, touched: set<Id>, after: map<Id, T>): (r: Writes<T>)
    ensures r.Keys == w.Keys + touched
    ensures forall k :: k in r ==>
              r[k] == if k in touched then (if k in after then Some(after[k]) else None) else w[k]
  {
    map k | k in w.Keys + touched :: if k in touched then (if k in after then Some(after[k]) else None) else w[k]
  }

  /** Noting the touched rows of the new view turns the old view into the new one. */
  lemma NotedLays<T(!new)>(m: map<Id, T>, w: Writes<T>, touched: set<Id>, after: map<Id, T>)
    requires Alike(Laid(m, w), after, touched)
    ensures Laid(m, Noted(w, touched, after)) == after
  {
  }

  datatype Delta = Delta(
    revisions: Writes<Revision>, fields: Writes<Field>, indexes: Writes<IndexDefinition>,
    sources: Writes<Source>, datasets: Writes<Dataset>)

  const NOTHING := Delta(map[], map[], map[], map[], map[])

  /** What the transaction sees: the committed rows under its own writes. */
  function View(db: DB, d: Delta): DB
  {
    DB(Laid(db.revisions, d.revisions), Laid(db.fields, d.fields), Laid(db.indexes, d.indexes),
       Laid(db.sources, d.sources), Laid(db.datasets, d.datasets))
  }

  function Moved(present: bool, id: Id, newId: Id): set<Id>
  {
    if present then {id, newId} else {}
  }

  // The primary keys the statement writes, table by table.

  function TouchedRevisions(view: DB, s: Statement): set<Id>
  {
    match s
    case InsertRevision(id, _) => {id}
    case UpdateRevision(id, n, _) => Moved(id in view.revisions, id, n)
    case DeleteRevision(id) => Moved(id in view.revisions, id, id)
    case _ => {}
  }

  function TouchedFields(view: DB, s: Statement): set<Id>
  {
    match s
    case InsertField(id, _) => {id}
    case UpdateField(id, n, _) => Moved(id in view.fields, id, n)
    case DeleteField(id) => Moved(id in view.fields, id, id)
    case _ => {}
  }

  function TouchedIndexes(view: DB, s: Statement): set<Id>
  {
    match s
    case InsertIndex(id, _) => {id}
    case UpdateIndex(id, n, _) => Moved(id in view.indexes, id, n)
    case DeleteIndex(id) => Moved(id in view.indexes, id, id)
    case _ => {}
  }

  function TouchedSources(view: DB, s: Statement): set<Id>
  {
    match s
    case InsertSource(id, _) => {id}
    case UpdateSource(id, n, _, _) => Moved(id in view.sources, id, n)
    case DeleteSource(id) => Moved(id in view.sources, id, id)
    case _ => {}
  }

  function TouchedDatasets(view: DB, s: Statement): set<Id>
  {
    match s
    case InsertDataset(id, _) => {id}
    case UpdateDataset(id, n, _, _) => Moved(id in view.datasets, id, n)
    case DeleteDataset(id) => Moved(id in view.datasets, id, id)
    case _ => {}
  }

  /** The delta once the transaction that sees `view` has run the statement. */
  function Grown(view: DB, d: Delta, s: Statement): Delta
  {
    var after := Applied(view, s);
    Delta(Noted(d.revisions, TouchedRevisions(view, s), after.revisions),
          Noted(d.fields, TouchedFields(view, s), after.fields),
          Noted(d.indexes, TouchedIndexes(view, s), after.indexes),
          Noted(d.sources, TouchedSources(view, s), after.sources),
          Noted(d.datasets, TouchedDatasets(view, s), after.datasets))
  }

  /** The two tables agree outside these keys. */
  ghost predicate Alike<T(!new)>(m: map<Id, T>, n: map<Id, T>, touched: set<Id>)
  {
    forall k :: k !in touched ==> (k in m <==> k in n) && (k in m ==> m[k] == n[k])
  }

  lemma AppliedRevisions(view: DB, s: Statement)
    ensures Alike(view.revisions, Applied(view, s).revisions, TouchedRevisions(view, s))
  {
  }

  lemma AppliedFields(view: DB, s: Statement)
    ensures Alike(view.fields, Applied(view, s).fields, TouchedFields(view, s))
  {
  }

  lemma AppliedIndexes(view: DB, s: Statement)
    ensures Alike(view.indexes, Applied(view, s).indexes, TouchedIndexes(view, s))
  {
  }

  lemma AppliedSources(view: DB, s: Statement)
    ensures Alike(view.sources, Applied(view, s).sources, TouchedSources(view, s))
  {
  }

  lemma AppliedDatasets(view: DB, s: Statement)
    ensures Alike(view.datasets, Applied(view, s).datasets, TouchedDatasets(view, s))
  {
  }

  lemma GrownViews(db: DB, d: Delta, s: Statement)
    ensures View(db, Grown(View(db, d), d, s)) == Applied(View(db, d), s)
  {
    hide Laid, Noted, Applied, TouchedRevisions, TouchedFields, TouchedIndexes, TouchedSources, TouchedDatasets, Alike;
    var v := View(db, d);
    var after := Applied(v, s);
    AppliedRevisions(v, s);
    AppliedFields(v, s);
    AppliedIndexes(v, s);
    AppliedSources(v, s);
    AppliedDatasets(v, s);
    NotedLays(db.revisions, d.revisions, TouchedRevisions(v, s), after.revisions);
    NotedLays(db.fields, d.fields, TouchedFields(v, s), after.fields);
    NotedLays(db.indexes, d.indexes, TouchedIndexes(v, s), after.indexes);
    NotedLays(db.sources, d.sources, TouchedSources(v, s), after.sources);
    NotedLays(db.datasets, d.datasets, TouchedDatasets(v, s), after.datasets);
  }

  // ---------- locks ----------

  /** Revisions the statement's triggers read `FOR SHARE`. */
  function SharedBy(view: DB, s: Statement): set<Id>
  {
    match s
    case InsertField(_, f) => {f.revision}
    case UpdateField(id, _, f) => if id in view.fields then {view.fields[id].revision, f.revision} else {}
    case DeleteField(id) => if id in view.fields then {view.fields[id].revision} else {}
    case InsertIndex(_, x) => {x.revision}
    case UpdateIndex(id, _, x) => if id in view.indexes then {view.indexes[id].revision, x.revision} else {}
    case DeleteIndex(id) => if id in view.indexes then {view.indexes[id].revision} else {}
    case InsertDataset(_, d) => {d.desired}
    case UpdateDataset(id, _, d, setsDesired) => if id in view.datasets && setsDesired then {d.desired} else {}
    case _ => {}
  }

  /** Revisions whose key a foreign key of the written row holds. */
  function KeptBy(view: DB, s: Statement): set<Id>
  {
    match s
    case InsertRevision(_, r) => if r.supersedes.Some? then {r.supersedes.value} else {}
    case UpdateRevision(id, _, r) => if id in view.revisions && r.supersedes.Some? then {r.supersedes.value} else {}
    case _ => {}
  }

  /** Fields whose key a foreign key of the written index holds. */
  function FieldsKeptBy(view: DB, s: Statement): set<Id>
  {
    match s
    case InsertIndex(_, x) => {x.field}
    case UpdateIndex(id, _, x) => if id in view.indexes then {x.field} else {}
    case _ => {}
  }

  /** The committed rows when a deferred check passed, and what others have committed since. */
  datatype Snapshot = Snapshot(rows: DB, since: Delta)

  /** An open transaction; `seen` is what its deferred check saw, once it has passed. */
  datatype Tx = Tx(
    delta: Delta, shared: set<Id>, kept: set<Id>, fieldsKept: set<Id>, queued: bool, seen: Option<Snapshot>)

  const FRESH := Tx(NOTHING, {}, {}, {}, false, None)

  function AfterStatement(db: DB, tx: Tx, s: Statement): Tx
  {
    var v := View(db, tx.delta);
    Tx(Grown(v, tx.delta, s), tx.shared + SharedBy(v, s), tx.kept + KeptBy(v, s),
       tx.fieldsKept + FieldsKeptBy(v, s), tx.queued || Queues(v, s), None)
  }

  /** The writes leave the key of this revision alone: still there, same specification. */
  predicate KeepsKey(db: DB, d: Delta, t: Id)
  {
    t in d.revisions ==>
      t in db.revisions && d.revisions[t].Some? && d.revisions[t].value.spec == db.revisions[t].spec
  }

  predicate KeepsFieldKey(db: DB, d: Delta, f: Id)
  {
    f in d.fields ==>
      f in db.fields && d.fields[f].Some? && d.fields[f].value.revision == db.fields[f].revision
  }

  predicate PendingClash(a: Delta, b: Delta)
  {
    exists x, y :: x in a.revisions && y in b.revisions && a.revisions[x].Some? && b.revisions[y].Some?
                   && Clashes(a.revisions[x].value, b.revisions[y].value)
  }

  /** No row is written by both, and each leaves alone what the other has locked. */
  ghost predicate Respects(db: DB, a: Tx, b: Tx)
  {
    && a.delta.revisions.Keys !! b.delta.revisions.Keys
    && a.delta.fields.Keys !! b.delta.fields.Keys
    && a.delta.indexes.Keys !! b.delta.indexes.Keys
    && a.delta.sources.Keys !! b.delta.sources.Keys
    && a.delta.datasets.Keys !! b.delta.datasets.Keys
    && a.shared !! b.delta.revisions.Keys
    && (forall t :: t in a.kept ==> KeepsKey(db, b.delta, t))
    && (forall f :: f in a.fieldsKept ==> KeepsFieldKey(db, b.delta, f))
    && !PendingClash(a.delta, b.delta)
  }

  // ---------- the interleaved system ----------

  datatype State = State(db: DB, open: map<Id, Tx>)

  datatype Step =
    | Begin(i: Id)
    | Run(i: Id, statement: Statement)
    | Check(i: Id)
    | Publish(i: Id)
    | Abort(i: Id)

  ghost predicate LocksFree(s: State, i: Id, tx: Tx)
  {
    forall j :: j in s.open && j != i ==> Respects(s.db, tx, s.open[j]) && Respects(s.db, s.open[j], tx)
  }

  /** The deferred triggers run before the commit becomes visible, and only if something queued them. */
  ghost predicate Enabled(s: State, step: Step)
  {
    match step
    case Begin(i) => i !in s.open
    case Run(i, stmt) =>
      && i in s.open && s.open[i].seen.None?
      && Allowed(View(s.db, s.open[i].delta), stmt)
      && LocksFree(s, i, AfterStatement(s.db, s.open[i], stmt))
    case Check(i) => i in s.open && DefaultsActive(View(s.db, s.open[i].delta))
    case Publish(i) => i in s.open && (s.open[i].queued ==> s.open[i].seen.Some?)
    case Abort(i) => i in s.open
  }

  /** One delta over another. */
  function Over(d: Delta, e: Delta): Delta
  {
    Delta(d.revisions + e.revisions, d.fields + e.fields, d.indexes + e.indexes, d.sources + e.sources,
          d.datasets + e.datasets)
  }

  /** A commit is added to what has happened since the check, if there was one. */
  function Overtaken(tx: Tx, d: Delta): Tx
  {
    if tx.seen.None? then tx
    else tx.(seen := Some(Snapshot(tx.seen.value.rows, Over(tx.seen.value.since, d))))
  }

  /** The other open transactions once `i` has committed. */
  function Informed(open: map<Id, Tx>, i: Id): map<Id, Tx>
    requires i in open
  {
    map j | j in open && j != i :: Overtaken(open[j], open[i].delta)
  }

  ghost function Next(s: State, step: Step): State
    requires Enabled(s, step)
  {
    match step
    case Begin(i) => s.(open := s.open[i := FRESH])
    case Run(i, stmt) => s.(open := s.open[i := AfterStatement(s.db, s.open[i], stmt)])
    case Check(i) => s.(open := s.open[i := s.open[i].(seen := Some(Snapshot(s.db, NOTHING)))])
    case Publish(i) => State(View(s.db, s.open[i].delta), Informed(s.open, i))
    case Abort(i) => s.(open := s.open - {i})
  }

  ghost predicate ValidRun(s: State, run: seq<Step>)
    decreases |run|
  {
    run == [] || (Enabled(s, run[0]) && ValidRun(Next(s, run[0]), run[1..]))
  }

  ghost function After(s: State, run: seq<Step>): State
    requires ValidRun(s, run)
    decreases |run|
  {
    if run == [] then s else After(Next(s, run[0]), run[1..])
  }

  // ---------- the invariant ----------

  /** The old and the new owner of every written field are read-locked. */
  ghost predicate FieldOwners(m: map<Id, Field>, w: Writes<Field>, shared: set<Id>)
  {
    forall k :: k in w ==>
      (k in m ==> m[k].revision in shared) && (w[k].Some? ==> w[k].value.revision in shared)
  }

  /** The same for indexes, and the key of the field an index is on is locked. */
  ghost predicate IndexOwners(m: map<Id, IndexDefinition>, w: Writes<IndexDefinition>, shared: set<Id>, fields: set<Id>)
  {
    forall k :: k in w ==>
      && (k in m ==> m[k].revision in shared)
      && (w[k].Some? ==> w[k].value.revision in shared && w[k].value.field in fields)
  }

  /** The key of every superseded revision is locked. */
  ghost predicate TargetsKept(w: Writes<Revision>, kept: set<Id>)
  {
    forall k :: k in w && w[k].Some? && w[k].value.supersedes.Some? ==> w[k].value.supersedes.value in kept
  }

  ghost predicate Locked(db: DB, tx: Tx)
  {
    && FieldOwners(db.fields, tx.delta.fields, tx.shared)
    && IndexOwners(db.indexes, tx.delta.indexes, tx.shared, tx.fieldsKept)
    && TargetsKept(tx.delta.revisions, tx.kept)
  }

  /** A transaction that queued no deferred check wrote no revision and no new default. */
  ghost predicate Harmless(db: DB, tx: Tx)
  {
    !tx.queued ==>
      && tx.delta.revisions == map[]
      && forall k :: k in tx.delta.sources && tx.delta.sources[k].Some? ==>
                OldDefault(db, tx.delta.sources, tx.delta.sources[k].value.defaultSpec)
  }

  /** Some source the transaction wrote had this default before. */
  ghost predicate OldDefault(db: DB, w: Writes<Source>, spec: Id)
  {
    exists k :: k in w && k in db.sources && db.sources[k].defaultSpec == spec
  }

  ghost predicate TxInv(db: DB, tx: Tx)
  {
    && Consistent(View(db, tx.delta)) && Frozen(db, View(db, tx.delta))
    && Locked(db, tx) && Harmless(db, tx)
  }

  ghost predicate Inv(s: State)
  {
    && Consistent(s.db)
    && (forall i :: i in s.open ==> TxInv(s.db, s.open[i]))
    && forall i, j :: i in s.open && j in s.open && i != j ==> Respects(s.db, s.open[i], s.open[j])
  }

  // ---------- a transaction's own statements ----------

  lemma NotedFieldOwners(m: map<Id, Field>, w: Writes<Field>, touched: set<Id>, after: map<Id, Field>, was: set<Id>,
                         now: set<Id>)
    requires FieldOwners(m, w, was) && was <= now
    requires forall k :: k in touched && k in Laid(m, w) ==> Laid(m, w)[k].revision in now
    requires forall k :: k in touched && k in after ==> after[k].revision in now
    ensures FieldOwners(m, Noted(w, touched, after), now)
  {
  }

  /** A field statement reads the owners of the rows it replaces and of those it writes `FOR SHARE`. */
  lemma FieldStatementShares(v: DB, s: Statement)
    requires Allowed(v, s)
    ensures forall k :: k in TouchedFields(v, s) && k in v.fields ==> v.fields[k].revision in SharedBy(v, s)
    ensures forall k :: k in TouchedFields(v, s) && k in Applied(v, s).fields ==>
              Applied(v, s).fields[k].revision in SharedBy(v, s)
  {
    hide Unique, RowOk, SupersedesOk, Superseded, Referenced, Transition, FieldReferenced, FieldRefOk, IsDraft,
         IsActive;
  }

  lemma StatementKeepsFieldsLocked(db: DB, tx: Tx, s: Statement)
    requires FieldOwners(db.fields, tx.delta.fields, tx.shared) && Allowed(View(db, tx.delta), s)
    ensures var next := AfterStatement(db, tx, s); FieldOwners(db.fields, next.delta.fields, next.shared)
  {
    hide Allowed, Applied, Queues, Noted, Laid, FieldOwners, SharedBy, KeptBy, FieldsKeptBy, TouchedFields;
    var v := View(db, tx.delta);
    FieldStatementShares(v, s);
    NotedFieldOwners(db.fields, tx.delta.fields, TouchedFields(v, s), Applied(v, s).fields, tx.shared,
                     tx.shared + SharedBy(v, s));
  }

  lemma NotedIndexOwners(
    m: map<Id, IndexDefinition>, w: Writes<IndexDefinition>, touched: set<Id>, after: map<Id, IndexDefinition>,
    was: set<Id>, now: set<Id>, wasFields: set<Id>, nowFields: set<Id>)
    requires IndexOwners(m, w, was, wasFields) && was <= now && wasFields <= nowFields
    requires forall k :: k in touched && k in Laid(m, w) ==> Laid(m, w)[k].revision in now
    requires forall k :: k in touched && k in after ==> after[k].revision in now && after[k].field in nowFields
    ensures IndexOwners(m, Noted(w, touched, after), now, nowFields)
  {
  }

  lemma IndexStatementShares(v: DB, s: Statement)
    requires Allowed(v, s)
    ensures forall k :: k in TouchedIndexes(v, s) && k in v.indexes ==> v.indexes[k].revision in SharedBy(v, s)
    ensures forall k :: k in TouchedIndexes(v, s) && k in Applied(v, s).indexes ==>
              && Applied(v, s).indexes[k].revision in SharedBy(v, s)
              && Applied(v, s).indexes[k].field in FieldsKeptBy(v, s)
  {
    hide Unique, RowOk, SupersedesOk, Superseded, Referenced, Transition, FieldReferenced, FieldRefOk, IsDraft,
         IsActive;
  }

  lemma StatementKeepsIndexesLocked(db: DB, tx: Tx, s: Statement)
    requires IndexOwners(db.indexes, tx.delta.indexes, tx.shared, tx.fieldsKept) && Allowed(View(db, tx.delta), s)
    ensures var next := AfterStatement(db, tx, s);
            IndexOwners(db.indexes, next.delta.indexes, next.shared, next.fieldsKept)
  {
    hide Allowed, Applied, Queues, Noted, Laid, IndexOwners, SharedBy, KeptBy, FieldsKeptBy, TouchedIndexes;
    var v := View(db, tx.delta);
    IndexStatementShares(v, s);
    NotedIndexOwners(db.indexes, tx.delta.indexes, TouchedIndexes(v, s), Applied(v, s).indexes,
                     tx.shared, tx.shared + SharedBy(v, s), tx.fieldsKept, tx.fieldsKept + FieldsKeptBy(v, s));
  }

  lemma NotedTargets(w: Writes<Revision>, touched: set<Id>, after: map<Id, Revision>, was: set<Id>, now: set<Id>)
    requires TargetsKept(w, was) && was <= now
    requires forall k :: k in touched && k in after && after[k].supersedes.Some? ==> after[k].supersedes.value in now
    ensures TargetsKept(Noted(w, touched, after), now)
  {
  }

  lemma RevisionStatementKeeps(v: DB, s: Statement)
    ensures var after := Applied(v, s).revisions;
            forall k :: k in TouchedRevisions(v, s) && k in after && after[k].supersedes.Some? ==>
              after[k].supersedes.value in KeptBy(v, s)
  {
  }

  lemma StatementKeepsRevisionsLocked(db: DB, tx: Tx, s: Statement)
    requires TargetsKept(tx.delta.revisions, tx.kept)
    ensures var next := AfterStatement(db, tx, s); TargetsKept(next.delta.revisions, next.kept)
  {
    hide Applied, Queues, Noted, Laid, TargetsKept, SharedBy, KeptBy, FieldsKeptBy, TouchedRevisions;
    var v := View(db, tx.delta);
    RevisionStatementKeeps(v, s);
    NotedTargets(tx.delta.revisions, TouchedRevisions(v, s), Applied(v, s).revisions, tx.kept, tx.kept + KeptBy(v, s));
  }

  /** A statement that queues no check writes no revision, and its sources keep defaults they had. */
  lemma UnqueuedWrites(v: DB, s: Statement)
    requires !Queues(v, s)
    ensures TouchedRevisions(v, s) == {}
    ensures var touched, after := TouchedSources(v, s), Applied(v, s).sources;
            forall k :: k in touched && k in after ==>
              exists x :: x in touched && x in v.sources && v.sources[x].defaultSpec == after[k].defaultSpec
  {
    if s.UpdateSource? && s.id in v.sources {
      assert s.id in TouchedSources(v, s);
    }
  }

  lemma NotedDefaults(db: DB, w: Writes<Source>, touched: set<Id>, after: map<Id, Source>)
    requires forall k :: k in w && w[k].Some? ==> OldDefault(db, w, w[k].value.defaultSpec)
    requires var before := Laid(db.sources, w);
             forall k :: k in touched && k in after ==>
               exists x :: x in touched && x in before && before[x].defaultSpec == after[k].defaultSpec
    ensures var n := Noted(w, touched, after);
            forall k :: k in n && n[k].Some? ==> OldDefault(db, n, n[k].value.defaultSpec)
  {
    var n := Noted(w, touched, after);
    forall k | k in n && n[k].Some? ensures OldDefault(db, n, n[k].value.defaultSpec) {
      var spec := n[k].value.defaultSpec;
      var x := k;
      if k in touched {
        x :| x in touched && x in Laid(db.sources, w) && Laid(db.sources, w)[x].defaultSpec == spec;
      }
      if x in w {
        assert OldDefault(db, w, spec);
        var y :| y in w && y in db.sources && db.sources[y].defaultSpec == spec;
        assert y in n;
      } else {
        assert x in n && x in db.sources;
      }
    }
  }

  lemma ViewSources(db: DB, d: Delta)
    ensures View(db, d).sources == Laid(db.sources, d.sources)
  {
  }

  lemma StatementKeepsHarmless(db: DB, tx: Tx, s: Statement)
    requires Harmless(db, tx)
    ensures Harmless(db, AfterStatement(db, tx, s))
  {
    hide View;
    var v := View(db, tx.delta);
    assert v.sources == Laid(db.sources, tx.delta.sources) by { ViewSources(db, tx.delta); }
    if !tx.queued && !Queues(v, s) {
      UnqueuedWrites(v, s);
      hide Applied, Noted, Laid, SharedBy, KeptBy, FieldsKeptBy, TouchedRevisions, TouchedSources, OldDefault, Queues;
      NotedDefaults(db, tx.delta.sources, TouchedSources(v, s), Applied(v, s).sources);
      assert Noted(tx.delta.revisions, {}, Applied(v, s).revisions) == map[];
    }
  }

  lemma StatementKeepsTx(db: DB, tx: Tx, s: Statement)
    requires TxInv(db, tx) && Allowed(View(db, tx.delta), s)
    ensures TxInv(db, AfterStatement(db, tx, s))
  {
    hide Consistent, Frozen, FieldOwners, IndexOwners, TargetsKept, Harmless, Allowed, Applied, View, Grown, SharedBy,
         KeptBy, FieldsKeptBy, Queues;
    var v := View(db, tx.delta);
    GrownViews(db, tx.delta, s);
    StatementKeepsConsistent(v, s);
    StatementKeepsFrozen(v, s);
    FrozenTransitive(db, v, Applied(v, s));
    StatementKeepsFieldsLocked(db, tx, s);
    StatementKeepsIndexesLocked(db, tx, s);
    StatementKeepsRevisionsLocked(db, tx, s);
    StatementKeepsHarmless(db, tx, s);
  }

  /** Inside an open transaction too, what a statement activates is what the transaction saw drafted. */
  lemma OpenActivationKeepsContent(s: State, i: Id, stmt: Statement, r: Id)
    requires Enabled(s, Run(i, stmt))
    requires var v := View(s.db, s.open[i].delta); r in v.revisions && v.revisions[r].state == Draft
    requires var v := View(s.db, Next(s, Run(i, stmt)).open[i].delta);
             r in v.revisions && v.revisions[r].state == Active
    ensures var v, w := View(s.db, s.open[i].delta), View(s.db, Next(s, Run(i, stmt)).open[i].delta);
            && v.revisions[r].spec == w.revisions[r].spec && v.revisions[r].number == w.revisions[r].number
            && v.revisions[r].digest == w.revisions[r].digest && v.revisions[r].body == w.revisions[r].body
            && v.revisions[r].supersedes == w.revisions[r].supersedes
            && FieldsOf(v, r) == FieldsOf(w, r) && IndexesOf(v, r) == IndexesOf(w, r)
  {
    hide View, Grown, Allowed, Applied, LocksFree;
    GrownViews(s.db, s.open[i].delta, stmt);
    ActivationKeepsContent(View(s.db, s.open[i].delta), stmt, r);
  }

  /** Nobody waits without a reason: alone, a transaction may run exactly what its view allows. */
  lemma AloneIsFree(s: State, i: Id, stmt: Statement)
    requires s.open.Keys == {i} && s.open[i].seen.None?
    ensures Enabled(s, Run(i, stmt)) <==> Allowed(View(s.db, s.open[i].delta), stmt)
  {
  }

  // ---------- another transaction's commit ----------

  /** Two uncommitted transactions side by side: each is consistent on the committed rows, and they
      respect each other's locks. */
  ghost predicate Beside(db: DB, a: Tx, b: Tx)
  {
    && Consistent(db) && TxInv(db, a) && TxInv(db, b)
    && Respects(db, a, b) && Respects(db, b, a)
  }

  lemma CommitKeepsSeparated(m: map<Id, Revision>, a: Writes<Revision>, b: Writes<Revision>)
    requires Separated(Laid(m, a)) && Separated(Laid(m, b)) && a.Keys !! b.Keys
    requires forall x, y :: x in a && y in b && a[x].Some? && b[y].Some? ==> !Clashes(a[x].value, b[y].value)
    ensures Separated(Laid(Laid(m, b), a))
  {
    var v := Laid(Laid(m, b), a);
    forall x, y | x in v && y in v && x != y ensures !Clashes(v[x], v[y]) {
      if x in a && y in b {
        assert !Clashes(a[x].value, b[y].value);
      } else if x in b && y in a {
        assert !Clashes(a[y].value, b[x].value);
      } else if x in b || y in b {
        assert !Clashes(Laid(m, b)[x], Laid(m, b)[y]);
      } else {
        assert !Clashes(Laid(m, a)[x], Laid(m, a)[y]);
      }
    }
  }

  predicate KeyStays(m: map<Id, Revision>, w: Writes<Revision>, t: Id)
  {
    t in w ==> t in m && w[t].Some? && w[t].value.spec == m[t].spec
  }

  lemma SupersedesStays(m: map<Id, Revision>, a: Writes<Revision>, b: Writes<Revision>, r: Revision)
    requires a.Keys !! b.Keys && r.supersedes.Some?
    requires var t := r.supersedes.value;
             || (SupersedesOk(Laid(m, a), r) && (KeyStays(m, b, t) || SupersedesOk(Laid(m, b), r)))
             || (SupersedesOk(Laid(m, b), r) && KeyStays(m, a, t))
    ensures SupersedesOk(Laid(Laid(m, b), a), r)
  {
  }

  lemma CommitKeepsRevisions(db: DB, a: Tx, b: Tx)
    requires Beside(db, a, b)
    ensures RevisionsOk(View(View(db, b.delta), a.delta).revisions)
  {
    var m, wa, wb := db.revisions, a.delta.revisions, b.delta.revisions;
    var va, vb, v := Laid(m, wa), Laid(m, wb), Laid(Laid(m, wb), wa);
    forall x, y | x in wa && y in wb && wa[x].Some? && wb[y].Some? ensures !Clashes(wa[x].value, wb[y].value) {
      assert !PendingClash(a.delta, b.delta);
    }
    BesideRevisions(db, a, b);
    hide Beside, PendingClash, Clashes, Laid, KeyStays, SupersedesOk, RowOk;
    CommitKeepsSeparated(m, wa, wb);
    hide Separated;
    forall k | k in v ensures RowOk(k, v[k]) && SupersedesOk(v, v[k]) {
      CommitKeepsRow(m, wa, wb, k);
    }
  }

  ghost predicate TargetsStay(m: map<Id, Revision>, w: Writes<Revision>, other: Writes<Revision>)
  {
    forall k :: k in w && w[k].Some? && w[k].value.supersedes.Some? ==> KeyStays(m, other, w[k].value.supersedes.value)
  }

  lemma CommitKeepsRow(m: map<Id, Revision>, a: Writes<Revision>, b: Writes<Revision>, k: Id)
    requires RevisionsOk(Laid(m, a)) && RevisionsOk(Laid(m, b)) && a.Keys !! b.Keys
    requires TargetsStay(m, a, b) && TargetsStay(m, b, a) && k in Laid(Laid(m, b), a)
    ensures var v := Laid(Laid(m, b), a); RowOk(k, v[k]) && SupersedesOk(v, v[k])
  {
    hide Separated, KeyStays, SupersedesOk, RowOk;
    var va, vb, v := Laid(m, a), Laid(m, b), Laid(Laid(m, b), a);
    var r := v[k];
    assert k in a ==> va[k] == r;
    assert k !in a ==> vb[k] == r;
    assert k !in a && k !in b ==> va[k] == r;
    if r.supersedes.Some? {
      hide Laid, RevisionsOk;
      SupersedesStays(m, a, b, r);
    } else {
      NoTarget(v, r);
    }
  }

  lemma NoTarget(m: map<Id, Revision>, r: Revision)
    requires r.supersedes.None?
    ensures SupersedesOk(m, r)
  {
  }

  /** What `Beside` says of revisions alone. */
  lemma BesideRevisions(db: DB, a: Tx, b: Tx)
    requires Beside(db, a, b)
    ensures RevisionsOk(Laid(db.revisions, a.delta.revisions)) && RevisionsOk(Laid(db.revisions, b.delta.revisions))
    ensures a.delta.revisions.Keys !! b.delta.revisions.Keys
    ensures TargetsStay(db.revisions, a.delta.revisions, b.delta.revisions)
    ensures TargetsStay(db.revisions, b.delta.revisions, a.delta.revisions)
  {
    hide Frozen, IndexOwners, FieldOwners, Harmless, FieldRefs, IndexRefs, DatasetRefs, PendingClash, RevisionsOk,
         KeepsFieldKey, Laid;
    forall t | t in a.kept ensures KeyStays(db.revisions, b.delta.revisions, t) {
      assert KeepsKey(db, b.delta, t);
    }
    forall t | t in b.kept ensures KeyStays(db.revisions, a.delta.revisions, t) {
      assert KeepsKey(db, a.delta, t);
    }
  }

  lemma CommitKeepsFieldRefs(db: DB, a: Tx, b: Tx)
    requires Beside(db, a, b)
    ensures FieldRefs(View(View(db, b.delta), a.delta))
  {
    hide Frozen, IndexOwners, TargetsKept, Harmless, RevisionsOk, IndexRefs, DatasetRefs, PendingClash, KeepsKey,
         KeepsFieldKey;
    var va, vb, v := View(db, a.delta), View(db, b.delta), View(View(db, b.delta), a.delta);
    forall k | k in v.fields ensures v.fields[k].revision in v.revisions {
      if k in a.delta.fields {
        assert va.fields[k].revision in va.revisions;
      } else {
        assert vb.fields[k].revision in vb.revisions;
        assert k !in b.delta.fields ==> va.fields[k].revision in va.revisions;
      }
    }
  }

  predicate FieldKeyStays(m: map<Id, Field>, w: Writes<Field>, f: Id)
  {
    f in w ==> f in m && w[f].Some? && w[f].value.revision == m[f].revision
  }

  lemma FieldRefStays(m: map<Id, Field>, a: Writes<Field>, b: Writes<Field>, x: IndexDefinition)
    requires a.Keys !! b.Keys
    requires || (FieldRefOk(Laid(m, a), x) && (FieldKeyStays(m, b, x.field) || FieldRefOk(Laid(m, b), x)))
             || (FieldRefOk(Laid(m, b), x) && FieldKeyStays(m, a, x.field))
    ensures FieldRefOk(Laid(Laid(m, b), a), x)
  {
  }

  lemma OwnerStays(m: map<Id, Revision>, a: Writes<Revision>, b: Writes<Revision>, r: Id)
    requires a.Keys !! b.Keys
    requires || (r in Laid(m, a) && (r !in b || r in Laid(m, b)))
             || (r in Laid(m, b) && r !in a)
    ensures r in Laid(Laid(m, b), a)
  {
  }

  lemma CommitKeepsIndexOwner(db: DB, a: Tx, b: Tx, k: Id)
    requires Beside(db, a, b) && k in View(View(db, b.delta), a.delta).indexes
    ensures var v := View(View(db, b.delta), a.delta); v.indexes[k].revision in v.revisions
  {
    hide Frozen, FieldOwners, TargetsKept, Harmless, RevisionsOk, FieldRefs, DatasetRefs, PendingClash, KeepsKey,
         KeepsFieldKey, FieldRefOk;
    var va, vb, v := View(db, a.delta), View(db, b.delta), View(View(db, b.delta), a.delta);
    var x := v.indexes[k];
    assert k in a.delta.indexes ==> va.indexes[k] == x && x.revision in a.shared;
    assert k in b.delta.indexes ==> vb.indexes[k] == x && x.revision in b.shared;
    assert k !in a.delta.indexes && k !in b.delta.indexes ==> va.indexes[k] == vb.indexes[k] == x;
    hide Laid;
    OwnerStays(db.revisions, a.delta.revisions, b.delta.revisions, x.revision);
  }

  lemma CommitKeepsIndexField(db: DB, a: Tx, b: Tx, k: Id)
    requires Beside(db, a, b) && k in View(View(db, b.delta), a.delta).indexes
    ensures var v := View(View(db, b.delta), a.delta); FieldRefOk(v.fields, v.indexes[k])
  {
    hide Frozen, FieldOwners, TargetsKept, Harmless, RevisionsOk, FieldRefs, DatasetRefs, PendingClash, KeepsKey,
         FieldRefOk;
    var va, vb, v := View(db, a.delta), View(db, b.delta), View(View(db, b.delta), a.delta);
    var x := v.indexes[k];
    assert k in a.delta.indexes ==> va.indexes[k] == x && x.field in a.fieldsKept;
    assert k in b.delta.indexes ==> vb.indexes[k] == x && x.field in b.fieldsKept;
    assert k !in a.delta.indexes && k !in b.delta.indexes ==> va.indexes[k] == vb.indexes[k] == x;
    assert x.field in a.fieldsKept ==> KeepsFieldKey(db, b.delta, x.field);
    assert x.field in b.fieldsKept ==> KeepsFieldKey(db, a.delta, x.field);
    hide Laid;
    FieldRefStays(db.fields, a.delta.fields, b.delta.fields, x);
  }

  lemma CommitKeepsIndexRefs(db: DB, a: Tx, b: Tx)
    requires Beside(db, a, b)
    ensures IndexRefs(View(View(db, b.delta), a.delta))
  {
    hide Beside, View, FieldRefOk;
    forall k | k in View(View(db, b.delta), a.delta).indexes
      ensures var v := View(View(db, b.delta), a.delta);
              v.indexes[k].revision in v.revisions && FieldRefOk(v.fields, v.indexes[k])
    {
      CommitKeepsIndexOwner(db, a, b, k);
      CommitKeepsIndexField(db, a, b, k);
    }
  }

  predicate NonDraft(m: map<Id, Revision>, r: Id)
  {
    r in m && m[r].state != Draft
  }

  lemma FrozenStaysNonDraft(before: DB, after: DB, r: Id)
    requires Frozen(before, after) && NonDraft(before.revisions, r)
    ensures NonDraft(after.revisions, r)
  {
    hide FieldsOf, IndexesOf;
    assert KeepsFrozen(before, after, r);
  }

  /** A revision that is not DRAFT in one of the two views is not DRAFT in both together. */
  lemma NonDraftStays(db: DB, a: Delta, b: Delta, r: Id)
    requires a.revisions.Keys !! b.revisions.Keys && Frozen(db, View(db, a)) && Frozen(db, View(db, b))
    requires NonDraft(View(db, a).revisions, r) || NonDraft(View(db, b).revisions, r)
    ensures NonDraft(View(View(db, b), a).revisions, r)
  {
    hide Frozen;
    if NonDraft(db.revisions, r) {
      FrozenStaysNonDraft(db, View(db, a), r);
      FrozenStaysNonDraft(db, View(db, b), r);
    }
  }

  lemma CommitKeepsDatasetRefs(db: DB, a: Tx, b: Tx)
    requires Beside(db, a, b)
    ensures DatasetRefs(View(View(db, b.delta), a.delta))
  {
    hide FieldOwners, TargetsKept, IndexOwners, Harmless, RevisionsOk, FieldRefs, IndexRefs, PendingClash, KeepsKey,
         KeepsFieldKey, Frozen;
    var va, vb, v := View(db, a.delta), View(db, b.delta), View(View(db, b.delta), a.delta);
    forall k | k in v.datasets ensures NonDraft(v.revisions, v.datasets[k].desired) {
      var r := v.datasets[k].desired;
      if k in a.delta.datasets {
        assert va.datasets[k].desired == r && NonDraft(va.revisions, r);
      } else {
        assert vb.datasets[k].desired == r && NonDraft(vb.revisions, r);
      }
      NonDraftStays(db, a.delta, b.delta, r);
    }
  }

  lemma CommitKeepsConsistent(db: DB, a: Tx, b: Tx)
    requires Beside(db, a, b)
    ensures Consistent(View(View(db, b.delta), a.delta))
  {
    hide Beside, View, RevisionsOk, FieldRefs, IndexRefs, DatasetRefs;
    CommitKeepsRevisions(db, a, b);
    CommitKeepsFieldRefs(db, a, b);
    CommitKeepsIndexRefs(db, a, b);
    CommitKeepsDatasetRefs(db, a, b);
  }

  function FieldAt(m: map<Id, Field>, k: Id, r: Id): Option<Field>
  {
    if k in m && m[k].revision == r then Some(m[k]) else None
  }

  lemma FieldsOfAt(x: DB, y: DB, r: Id)
    ensures FieldsOf(x, r) == FieldsOf(y, r) <==> forall k :: FieldAt(x.fields, k, r) == FieldAt(y.fields, k, r)
  {
    if FieldsOf(x, r) == FieldsOf(y, r) {
      forall k ensures FieldAt(x.fields, k, r) == FieldAt(y.fields, k, r) {
        assert k in FieldsOf(x, r) <==> k in FieldsOf(y, r);
        assert k in FieldsOf(x, r) ==> FieldsOf(x, r)[k] == FieldsOf(y, r)[k];
      }
    }
    if forall k :: FieldAt(x.fields, k, r) == FieldAt(y.fields, k, r) {
      forall k | k in FieldsOf(x, r) || k in FieldsOf(y, r)
        ensures k in FieldsOf(x, r) && k in FieldsOf(y, r) && FieldsOf(x, r)[k] == FieldsOf(y, r)[k]
      {
        assert FieldAt(x.fields, k, r) == FieldAt(y.fields, k, r);
      }
    }
  }

  lemma FieldAtStays(m: map<Id, Field>, a: Writes<Field>, b: Writes<Field>, shared: set<Id>, k: Id, r: Id)
    requires a.Keys !! b.Keys && FieldOwners(m, a, shared)
    requires r in shared ==> FieldAt(Laid(m, a), k, r) == FieldAt(m, k, r)
    ensures FieldAt(Laid(Laid(m, b), a), k, r) == FieldAt(Laid(m, b), k, r)
  {
  }

  lemma CommitKeepsFrozenFields(db: DB, a: Tx, b: Tx, r: Id)
    requires a.delta.fields.Keys !! b.delta.fields.Keys
    requires FieldOwners(db.fields, a.delta.fields, a.shared)
    requires r in a.shared ==> FieldsOf(View(db, a.delta), r) == FieldsOf(db, r)
    ensures FieldsOf(View(View(db, b.delta), a.delta), r) == FieldsOf(View(db, b.delta), r)
  {
    hide FieldsOf, Laid, FieldAt, FieldOwners;
    var va, vb, v := View(db, a.delta), View(db, b.delta), View(View(db, b.delta), a.delta);
    FieldsOfAt(va, db, r);
    FieldsOfAt(v, vb, r);
    forall k ensures FieldAt(v.fields, k, r) == FieldAt(vb.fields, k, r) {
      assert r in a.shared ==> FieldAt(va.fields, k, r) == FieldAt(db.fields, k, r);
      FieldAtStays(db.fields, a.delta.fields, b.delta.fields, a.shared, k, r);
    }
  }

  function IndexAt(m: map<Id, IndexDefinition>, k: Id, r: Id): Option<IndexDefinition>
  {
    if k in m && m[k].revision == r then Some(m[k]) else None
  }

  lemma IndexesOfAt(x: DB, y: DB, r: Id)
    ensures IndexesOf(x, r) == IndexesOf(y, r) <==> forall k :: IndexAt(x.indexes, k, r) == IndexAt(y.indexes, k, r)
  {
    if IndexesOf(x, r) == IndexesOf(y, r) {
      forall k ensures IndexAt(x.indexes, k, r) == IndexAt(y.indexes, k, r) {
        assert k in IndexesOf(x, r) <==> k in IndexesOf(y, r);
        assert k in IndexesOf(x, r) ==> IndexesOf(x, r)[k] == IndexesOf(y, r)[k];
      }
    }
    if forall k :: IndexAt(x.indexes, k, r) == IndexAt(y.indexes, k, r) {
      forall k | k in IndexesOf(x, r) || k in IndexesOf(y, r)
        ensures k in IndexesOf(x, r) && k in IndexesOf(y, r) && IndexesOf(x, r)[k] == IndexesOf(y, r)[k]
      {
        assert IndexAt(x.indexes, k, r) == IndexAt(y.indexes, k, r);
      }
    }
  }

  lemma IndexAtStays(
    m: map<Id, IndexDefinition>, a: Writes<IndexDefinition>, b: Writes<IndexDefinition>, shared: set<Id>,
    fields: set<Id>, k: Id, r: Id)
    requires a.Keys !! b.Keys && IndexOwners(m, a, shared, fields)
    requires r in shared ==> IndexAt(Laid(m, a), k, r) == IndexAt(m, k, r)
    ensures IndexAt(Laid(Laid(m, b), a), k, r) == IndexAt(Laid(m, b), k, r)
  {
  }

  lemma CommitKeepsFrozenIndexes(db: DB, a: Tx, b: Tx, r: Id)
    requires a.delta.indexes.Keys !! b.delta.indexes.Keys
    requires IndexOwners(db.indexes, a.delta.indexes, a.shared, a.fieldsKept)
    requires r in a.shared ==> IndexesOf(View(db, a.delta), r) == IndexesOf(db, r)
    ensures IndexesOf(View(View(db, b.delta), a.delta), r) == IndexesOf(View(db, b.delta), r)
  {
    hide IndexesOf, Laid, IndexAt, IndexOwners;
    var va, vb, v := View(db, a.delta), View(db, b.delta), View(View(db, b.delta), a.delta);
    IndexesOfAt(va, db, r);
    IndexesOfAt(v, vb, r);
    forall k ensures IndexAt(v.indexes, k, r) == IndexAt(vb.indexes, k, r) {
      assert r in a.shared ==> IndexAt(va.indexes, k, r) == IndexAt(db.indexes, k, r);
      IndexAtStays(db.indexes, a.delta.indexes, b.delta.indexes, a.shared, a.fieldsKept, k, r);
    }
  }

  lemma CommitKeepsFrozen(db: DB, a: Tx, b: Tx)
    requires Beside(db, a, b)
    ensures Frozen(View(db, b.delta), View(View(db, b.delta), a.delta))
  {
    hide Consistent, TargetsKept, Harmless, PendingClash, KeepsKey, KeepsFieldKey, FieldOwners, IndexOwners, FieldsOf,
         IndexesOf;
    var va, vb, v := View(db, a.delta), View(db, b.delta), View(View(db, b.delta), a.delta);
    forall r | r in vb.revisions && vb.revisions[r].state != Draft ensures KeepsFrozen(vb, v, r) {
      if r in a.shared || r in a.delta.revisions {
        assert vb.revisions[r] == db.revisions[r];
        assert KeepsFrozen(db, va, r);
      }
      CommitKeepsFrozenFields(db, a, b, r);
      CommitKeepsFrozenIndexes(db, a, b, r);
    }
  }

  lemma CommitKeepsLocked(db: DB, a: Tx, b: Tx)
    requires Locked(db, a) && a.delta.fields.Keys !! b.delta.fields.Keys && a.delta.indexes.Keys !! b.delta.indexes.Keys
    ensures Locked(View(db, b.delta), a)
  {
  }

  lemma CommitKeepsHarmless(db: DB, a: Tx, b: Tx)
    requires Harmless(db, a) && a.delta.sources.Keys !! b.delta.sources.Keys
    ensures Harmless(View(db, b.delta), a)
  {
    var db' := View(db, b.delta);
    if !a.queued {
      forall k | k in a.delta.sources && a.delta.sources[k].Some?
        ensures OldDefault(db', a.delta.sources, a.delta.sources[k].value.defaultSpec)
      {
        assert OldDefault(db, a.delta.sources, a.delta.sources[k].value.defaultSpec);
        var x :| x in a.delta.sources && x in db.sources
          && db.sources[x].defaultSpec == a.delta.sources[k].value.defaultSpec;
        assert x in db'.sources;
      }
    }
  }

  lemma CommitKeepsTx(db: DB, a: Tx, b: Tx)
    requires Beside(db, a, b)
    ensures TxInv(View(db, b.delta), a)
  {
    CommitKeepsConsistent(db, a, b);
    CommitKeepsFrozen(db, a, b);
    hide Consistent, Frozen, PendingClash, KeepsKey, KeepsFieldKey, Locked, Harmless, View;
    CommitKeepsLocked(db, a, b);
    CommitKeepsHarmless(db, a, b);
  }

  lemma CommitKeepsRespect(db: DB, a: Tx, c: Tx, b: Tx)
    requires Respects(db, a, c) && Respects(db, c, b)
    ensures Respects(View(db, b.delta), a, c)
  {
    hide PendingClash;
    var db' := View(db, b.delta);
    forall t | t in a.kept ensures KeepsKey(db', c.delta, t) {
      assert KeepsKey(db, c.delta, t);
    }
    forall f | f in a.fieldsKept ensures KeepsFieldKey(db', c.delta, f) {
      assert KeepsFieldKey(db, c.delta, f);
    }
  }

  // ---------- every interleaving ----------

  lemma LaidNothing<T(!new)>(m: map<Id, T>)
    ensures Laid(m, map[]) == m
  {
  }

  lemma NothingWritten(db: DB)
    ensures View(db, NOTHING) == db
  {
    hide Laid;
    LaidNothing(db.revisions);
    LaidNothing(db.fields);
    LaidNothing(db.indexes);
    LaidNothing(db.sources);
    LaidNothing(db.datasets);
  }

  lemma FreshIsFine(db: DB, tx: Tx)
    requires Consistent(db)
    ensures TxInv(db, FRESH) && Respects(db, FRESH, tx) && Respects(db, tx, FRESH)
  {
    NothingWritten(db);
    SelfFrozen(db);
    hide Consistent, Frozen, View;
  }

  lemma PublishKeepsInv(s: State, i: Id)
    requires Inv(s) && Enabled(s, Publish(i))
    ensures Inv(Next(s, Publish(i)))
  {
    hide TxInv, Respects, Consistent, View;
    var t, b := Next(s, Publish(i)), s.open[i];
    assert Consistent(t.db) by { TxIsConsistent(s.db, b); }
    forall j | j in t.open ensures TxInv(t.db, t.open[j]) {
      assert Beside(s.db, s.open[j], b);
      CommitKeepsTx(s.db, s.open[j], b);
      SeenIsSame(t.db, s.open[j], Overtaken(s.open[j], b.delta).seen, s.open[j], s.open[j].seen);
    }
    forall j, k | j in t.open && k in t.open && j != k ensures Respects(t.db, t.open[j], t.open[k]) {
      CommitKeepsRespect(s.db, s.open[j], s.open[k], b);
      SeenIsSame(t.db, s.open[j], Overtaken(s.open[j], b.delta).seen, s.open[k], Overtaken(s.open[k], b.delta).seen);
    }
  }

  lemma TxIsConsistent(db: DB, tx: Tx)
    requires TxInv(db, tx)
    ensures Consistent(View(db, tx.delta)) && Frozen(db, View(db, tx.delta))
  {
  }

  /** What a check saw plays no part in locks and views. */
  lemma SeenIsSame(db: DB, a: Tx, x: Option<Snapshot>, b: Tx, y: Option<Snapshot>)
    ensures TxInv(db, a) <==> TxInv(db, a.(seen := x))
    ensures Respects(db, a, b) <==> Respects(db, a.(seen := x), b.(seen := y))
  {
    hide Consistent, Frozen, View, KeepsKey, KeepsFieldKey, PendingClash;
  }

  lemma StepKeepsInv(s: State, step: Step)
    requires Inv(s) && Enabled(s, step)
    ensures Inv(Next(s, step)) && Frozen(s.db, Next(s, step).db)
  {
    hide TxInv, Respects, Consistent, View, Frozen, Allowed;
    match step
    case Begin(i) =>
      SelfFrozen(s.db);
      FreshIsFine(s.db, FRESH);
      forall j | j in s.open ensures Respects(s.db, FRESH, s.open[j]) && Respects(s.db, s.open[j], FRESH) {
        FreshIsFine(s.db, s.open[j]);
      }
    case Run(i, stmt) =>
      SelfFrozen(s.db);
      StatementKeepsTx(s.db, s.open[i], stmt);
    case Check(i) =>
      SelfFrozen(s.db);
      var x := Some(Snapshot(s.db, NOTHING));
      SeenIsSame(s.db, s.open[i], x, s.open[i], x);
      forall j | j in s.open && j != i
        ensures Respects(s.db, s.open[i].(seen := x), s.open[j]) && Respects(s.db, s.open[j], s.open[i].(seen := x))
      {
        SeenIsSame(s.db, s.open[i], x, s.open[j], s.open[j].seen);
        SeenIsSame(s.db, s.open[j], s.open[j].seen, s.open[i], x);
        assert s.open[j].(seen := s.open[j].seen) == s.open[j];
      }
    case Publish(i) =>
      PublishKeepsInv(s, i);
      TxIsConsistent(s.db, s.open[i]);
    case Abort(i) =>
      SelfFrozen(s.db);
  }

  /** However transactions overlap, what is committed stays consistent: at most one ACTIVE revision per
      specification, no dataset on a DRAFT revision, and frozen revisions with their exact children
      kept. The row locks of the triggers and foreign keys are what makes it so. */
  lemma {:induction false} OverlapIsSafe(s: State, run: seq<Step>)
    requires Inv(s) && ValidRun(s, run)
    ensures Inv(After(s, run)) && Frozen(s.db, After(s, run).db)
    decreases |run|
  {
    hide Inv, Frozen, Next, Enabled;
    if run == [] {
      SelfFrozen(s.db);
    } else {
      var t := Next(s, run[0]);
      StepKeepsInv(s, run[0]);
      OverlapIsSafe(t, run[1..]);
      FrozenTransitive(s.db, t.db, After(s, run).db);
    }
  }
}
