/** The specification lifecycle of the control plane: the triggers, the deferred check and the
    constraints they rely on, as a transition system over table rows.

    Transactions run one after another. A multi-row statement is its rows one at a time. Any other
    constraint of the schema may refuse a statement; `Refused` stands for that. */
module Lifecycle {
  import opened Wrappers

  type Id = nat

  datatype RevisionState = Draft | Active | Retired

  /** `body` holds every column not named here. */
  datatype Revision = Revision(
    spec: Id, number: int, digest: string, supersedes: Option<Id>, body: string,
    state: RevisionState, activatedAt: Option<int>)

  datatype Field = Field(revision: Id, body: string)
  datatype IndexDefinition = IndexDefinition(revision: Id, field: Id, body: string)
  datatype Source = Source(defaultSpec: Id, body: string)
  datatype Dataset = Dataset(desired: Id, body: string)

  datatype DB = DB(
    revisions: map<Id, Revision>, fields: map<Id, Field>, indexes: map<Id, IndexDefinition>,
    sources: map<Id, Source>, datasets: map<Id, Dataset>)

  /** Updates name the row, its new primary key and its new columns. */
  datatype Statement =
    | InsertRevision(id: Id, revision: Revision)
    | UpdateRevision(id: Id, newId: Id, revision: Revision)
    | DeleteRevision(id: Id)
    | InsertField(id: Id, field: Field)
    | UpdateField(id: Id, newId: Id, field: Field)
    | DeleteField(id: Id)
    | InsertIndex(id: Id, index: IndexDefinition)
    | UpdateIndex(id: Id, newId: Id, index: IndexDefinition)
    | DeleteIndex(id: Id)
    | InsertSource(id: Id, source: Source)
    | UpdateSource(id: Id, newId: Id, source: Source, setsDefault: bool)
    | DeleteSource(id: Id)
    | InsertDataset(id: Id, dataset: Dataset)
    | UpdateDataset(id: Id, newId: Id, dataset: Dataset, setsDesired: bool)
    | DeleteDataset(id: Id)
    | Refused

  // ---------- constraints and guards ----------

  function Rekey<T>(m: map<Id, T>, id: Id, newId: Id, row: T): (r: map<Id, T>)
    ensures r.Keys == m.Keys - {id} + {newId}
    ensures forall k :: k in r ==> r[k] == if k == newId then row else m[k]
  {
    (m - {id})[newId := row]
  }

  predicate IsDraft(revisions: map<Id, Revision>, id: Id)
  {
    id in revisions && revisions[id].state == Draft
  }

  /** Content equality of the trigger: every column but the state and, on activation, its time. */
  function Content(r: Revision): Revision
  {
    r.(state := Draft, activatedAt := None)
  }

  /** The updates `enforce_spec_revision_lifecycle` lets through. */
  predicate Transition(id: Id, before: Revision, newId: Id, after: Revision)
  {
    match (before.state, after.state)
    case (Draft, Draft) => true
    case (Draft, Active) => newId == id && Content(after) == Content(before)
    case (Active, Retired) => newId == id && after == before.(state := Retired)
    case _ => false
  }

  /** Check constraints of one row. */
  predicate RowOk(id: Id, r: Revision)
  {
    (r.state == Draft <==> r.activatedAt.None?) && r.supersedes != Some(id)
  }

  /** Two rows of one specification that a unique constraint or the partial unique index keeps apart. */
  predicate Clashes(a: Revision, b: Revision)
  {
    a.spec == b.spec && (a.number == b.number || a.digest == b.digest || (a.state == Active && b.state == Active))
  }

  predicate Unique(others: map<Id, Revision>, r: Revision)
  {
    forall k :: k in others ==> !Clashes(others[k], r)
  }

  /** The composite self-reference: the superseded revision exists and belongs to the same specification. */
  predicate SupersedesOk(revisions: map<Id, Revision>, r: Revision)
  {
    r.supersedes.Some? ==> r.supersedes.value in revisions && revisions[r.supersedes.value].spec == r.spec
  }

  predicate Superseded(revisions: map<Id, Revision>, id: Id)
  {
    exists k :: k in revisions && revisions[k].supersedes == Some(id)
  }

  predicate Referenced(db: DB, id: Id)
  {
    || (exists k :: k in db.fields && db.fields[k].revision == id)
    || (exists k :: k in db.indexes && db.indexes[k].revision == id)
    || (exists k :: k in db.datasets && db.datasets[k].desired == id)
  }

  predicate FieldReferenced(db: DB, id: Id)
  {
    exists k :: k in db.indexes && db.indexes[k].field == id
  }

  predicate FieldRefOk(fields: map<Id, Field>, x: IndexDefinition)
  {
    x.field in fields && fields[x.field].revision == x.revision
  }

  predicate IsActive(revisions: map<Id, Revision>, id: Id)
  {
    id in revisions && revisions[id].state == Active
  }

  /** The statement passes its row triggers and its immediate constraints. */
  predicate Allowed(db: DB, s: Statement)
  {
    match s
    case InsertRevision(id, r) =>
      && r.state == Draft && id !in db.revisions && RowOk(id, r)
      && Unique(db.revisions, r) && SupersedesOk(db.revisions, r)
    case UpdateRevision(id, newId, r) =>
      id in db.revisions ==>
        var others := db.revisions - {id};
        && Transition(id, db.revisions[id], newId, r) && newId !in others && RowOk(newId, r)
        && Unique(others, r) && SupersedesOk(others, r)
        && (newId != id || r.spec != db.revisions[id].spec ==> !Superseded(others, id))
        && (newId != id ==> !Referenced(db, id))
    case DeleteRevision(id) =>
      id in db.revisions ==>
        db.revisions[id].state == Draft && !Superseded(db.revisions - {id}, id) && !Referenced(db, id)
    case InsertField(id, f) => id !in db.fields && IsDraft(db.revisions, f.revision)
    case UpdateField(id, newId, f) =>
      id in db.fields ==>
        && IsDraft(db.revisions, db.fields[id].revision) && IsDraft(db.revisions, f.revision)
        && newId !in db.fields - {id}
        && (newId != id || f.revision != db.fields[id].revision ==> !FieldReferenced(db, id))
    case DeleteField(id) =>
      id in db.fields ==> IsDraft(db.revisions, db.fields[id].revision) && !FieldReferenced(db, id)
    case InsertIndex(id, x) =>
      id !in db.indexes && IsDraft(db.revisions, x.revision) && FieldRefOk(db.fields, x)
    case UpdateIndex(id, newId, x) =>
      id in db.indexes ==>
        && IsDraft(db.revisions, db.indexes[id].revision) && IsDraft(db.revisions, x.revision)
        && newId !in db.indexes - {id} && FieldRefOk(db.fields, x)
    case DeleteIndex(id) => id in db.indexes ==> IsDraft(db.revisions, db.indexes[id].revision)
    case InsertSource(id, _) => id !in db.sources
    case UpdateSource(id, newId, _, _) => id in db.sources ==> newId !in db.sources - {id}
    case DeleteSource(_) => true
    case InsertDataset(id, d) => id !in db.datasets && IsActive(db.revisions, d.desired)
    case UpdateDataset(id, newId, d, setsDesired) =>
      id in db.datasets ==> newId !in db.datasets - {id} && (setsDesired ==> IsActive(db.revisions, d.desired))
    case DeleteDataset(_) => true
    case Refused => false
  }

  function Applied(db: DB, s: Statement): DB
  {
    match s
    case InsertRevision(id, r) => db.(revisions := db.revisions[id := r])
    case UpdateRevision(id, newId, r) =>
      if id in db.revisions then db.(revisions := Rekey(db.revisions, id, newId, r)) else db
    case DeleteRevision(id) => db.(revisions := db.revisions - {id})
    case InsertField(id, f) => db.(fields := db.fields[id := f])
    case UpdateField(id, newId, f) => if id in db.fields then db.(fields := Rekey(db.fields, id, newId, f)) else db
    case DeleteField(id) => db.(fields := db.fields - {id})
    case InsertIndex(id, x) => db.(indexes := db.indexes[id := x])
    case UpdateIndex(id, newId, x) => if id in db.indexes then db.(indexes := Rekey(db.indexes, id, newId, x)) else db
    case DeleteIndex(id) => db.(indexes := db.indexes - {id})
    case InsertSource(id, r) => db.(sources := db.sources[id := r])
    case UpdateSource(id, newId, r, setsDefault) =>
      if id in db.sources then
        var row := if setsDefault then r else r.(defaultSpec := db.sources[id].defaultSpec);
        db.(sources := Rekey(db.sources, id, newId, row))
      else db
    case DeleteSource(id) => db.(sources := db.sources - {id})
    case InsertDataset(id, d) => db.(datasets := db.datasets[id := d])
    case UpdateDataset(id, newId, d, setsDesired) =>
      if id in db.datasets then
        var row := if setsDesired then d else d.(desired := db.datasets[id].desired);
        db.(datasets := Rekey(db.datasets, id, newId, row))
      else db
    case DeleteDataset(id) => db.(datasets := db.datasets - {id})
    case Refused => db
  }

  /** The statement changed a row whose deferred constraint trigger now waits for the commit. */
  predicate Queues(db: DB, s: Statement)
  {
    match s
    case InsertRevision(_, _) => true
    case UpdateRevision(id, _, _) => id in db.revisions
    case DeleteRevision(id) => id in db.revisions
    case InsertSource(_, _) => true
    case UpdateSource(id, _, _, setsDefault) => setsDefault && id in db.sources
    case _ => false
  }

  // ---------- what holds after every statement ----------

  /** No two rows clash; in particular no specification has two ACTIVE revisions. */
  ghost predicate Separated(revisions: map<Id, Revision>)
  {
    forall a, b :: a in revisions && b in revisions && a != b ==> !Clashes(revisions[a], revisions[b])
  }

  ghost predicate Consistent(db: DB)
  {
    && RevisionsOk(db.revisions)
    && FieldRefs(db) && IndexRefs(db) && DatasetRefs(db)
  }

  function FieldsOf(db: DB, r: Id): map<Id, Field>
  {
    map k | k in db.fields && db.fields[k].revision == r :: db.fields[k]
  }

  function IndexesOf(db: DB, r: Id): map<Id, IndexDefinition>
  {
    map k | k in db.indexes && db.indexes[k].revision == r :: db.indexes[k]
  }

  /** A revision that left DRAFT is still there with the same content, and at most retired since. */
  predicate KeptRevision(before: Revision, after: Revision)
  {
    after == before || (before.state == Active && after == before.(state := Retired))
  }

  ghost predicate KeepsFrozen(before: DB, after: DB, r: Id)
    requires r in before.revisions
  {
    && r in after.revisions && KeptRevision(before.revisions[r], after.revisions[r])
    && FieldsOf(after, r) == FieldsOf(before, r)
    && IndexesOf(after, r) == IndexesOf(before, r)
  }

  ghost predicate Frozen(before: DB, after: DB)
  {
    forall r :: r in before.revisions && before.revisions[r].state != Draft ==> KeepsFrozen(before, after, r)
  }

  lemma FrozenTransitive(a: DB, b: DB, c: DB)
    requires Frozen(a, b) && Frozen(b, c)
    ensures Frozen(a, c)
  {
    hide FieldsOf, IndexesOf;
    forall r | r in a.revisions && a.revisions[r].state != Draft ensures KeepsFrozen(a, c, r) {
      assert KeepsFrozen(a, b, r);
      assert KeepsFrozen(b, c, r);
    }
  }

  ghost predicate RevisionsOk(revisions: map<Id, Revision>)
  {
    && Separated(revisions)
    && forall k :: k in revisions ==> RowOk(k, revisions[k]) && SupersedesOk(revisions, revisions[k])
  }

  lemma PutKeepsSeparated(before: map<Id, Revision>, id: Id, newId: Id, r: Revision)
    requires Separated(before) && newId !in before - {id} && Unique(before - {id}, r)
    ensures Separated(Rekey(before, id, newId, r))
  {
    var after := Rekey(before, id, newId, r);
    forall a, b | a in after && b in after && a != b ensures !Clashes(after[a], after[b]) {
      if a == newId {
        assert !Clashes((before - {id})[b], r);
      } else if b == newId {
        assert !Clashes((before - {id})[a], r);
      } else {
        assert !Clashes(before[a], before[b]);
      }
    }
  }

  lemma PutKeepsSupersedes(before: map<Id, Revision>, id: Id, newId: Id, r: Revision)
    requires RevisionsOk(before) && newId !in before - {id} && SupersedesOk(before - {id}, r) && RowOk(newId, r)
    requires id in before && (newId != id || r.spec != before[id].spec) ==> !Superseded(before - {id}, id)
    ensures var after := Rekey(before, id, newId, r);
            forall k :: k in after ==> RowOk(k, after[k]) && SupersedesOk(after, after[k])
  {
    hide Separated, Clashes;
    var after, others := Rekey(before, id, newId, r), before - {id};
    forall k | k in after ensures RowOk(k, after[k]) && SupersedesOk(after, after[k]) {
      if k != newId {
        assert k in others && others[k] == before[k] && SupersedesOk(before, before[k]);
      }
    }
  }

  lemma PutKeepsRevisions(before: map<Id, Revision>, id: Id, newId: Id, r: Revision)
    requires RevisionsOk(before) && newId !in before - {id} && RowOk(newId, r)
    requires Unique(before - {id}, r) && SupersedesOk(before - {id}, r)
    requires id in before && (newId != id || r.spec != before[id].spec) ==> !Superseded(before - {id}, id)
    ensures RevisionsOk(Rekey(before, id, newId, r))
  {
    PutKeepsSeparated(before, id, newId, r);
    PutKeepsSupersedes(before, id, newId, r);
  }

  lemma DropKeepsRevisions(before: map<Id, Revision>, id: Id)
    requires RevisionsOk(before) && (id in before ==> !Superseded(before - {id}, id))
    ensures RevisionsOk(before - {id})
  {
    hide Clashes;
    var after := before - {id};
    assert id !in before ==> after == before;
    forall k | k in after ensures RowOk(k, after[k]) && SupersedesOk(after, after[k]) {
      assert after[k] == before[k] && SupersedesOk(before, before[k]);
    }
  }

  lemma StatementKeepsRevisions(db: DB, s: Statement)
    requires RevisionsOk(db.revisions) && Allowed(db, s)
    ensures RevisionsOk(Applied(db, s).revisions)
  {
    hide RevisionsOk, RowOk, Unique, SupersedesOk, Superseded, Referenced, FieldRefOk, FieldReferenced, IsDraft,
         IsActive, Transition;
    match s
    case InsertRevision(id, r) =>
      assert db.revisions - {id} == db.revisions;
      PutKeepsRevisions(db.revisions, id, id, r);
      assert Rekey(db.revisions, id, id, r) == db.revisions[id := r];
    case UpdateRevision(id, newId, r) =>
      if id in db.revisions {
        PutKeepsRevisions(db.revisions, id, newId, r);
      }
    case DeleteRevision(id) =>
      DropKeepsRevisions(db.revisions, id);
    case _ =>
  }

  ghost predicate FieldRefs(db: DB)
  {
    forall k :: k in db.fields ==> db.fields[k].revision in db.revisions
  }

  ghost predicate IndexRefs(db: DB)
  {
    forall k :: k in db.indexes ==> db.indexes[k].revision in db.revisions && FieldRefOk(db.fields, db.indexes[k])
  }

  /** No dataset is assigned a DRAFT revision. */
  ghost predicate DatasetRefs(db: DB)
  {
    forall k :: k in db.datasets ==>
      db.datasets[k].desired in db.revisions && db.revisions[db.datasets[k].desired].state != Draft
  }

  lemma StatementKeepsFieldRefs(db: DB, s: Statement)
    requires FieldRefs(db) && Allowed(db, s)
    ensures FieldRefs(Applied(db, s))
  {
    hide RowOk, Unique, SupersedesOk, Superseded, FieldRefOk, FieldReferenced, Transition;
  }

  lemma StatementKeepsIndexRefs(db: DB, s: Statement)
    requires IndexRefs(db) && Allowed(db, s)
    ensures IndexRefs(Applied(db, s))
  {
    hide RowOk, Unique, SupersedesOk, Superseded, Transition;
  }

  lemma StatementKeepsDatasetRefs(db: DB, s: Statement)
    requires DatasetRefs(db) && Allowed(db, s)
    ensures DatasetRefs(Applied(db, s))
  {
    hide RowOk, Unique, SupersedesOk, Superseded, FieldRefOk, FieldReferenced;
  }

  lemma StatementKeepsConsistent(db: DB, s: Statement)
    requires Consistent(db) && Allowed(db, s)
    ensures Consistent(Applied(db, s))
  {
    hide Allowed, Applied, RevisionsOk, FieldRefs, IndexRefs, DatasetRefs;
    StatementKeepsRevisions(db, s);
    StatementKeepsFieldRefs(db, s);
    StatementKeepsIndexRefs(db, s);
    StatementKeepsDatasetRefs(db, s);
  }

  lemma RevisionKept(db: DB, s: Statement, r: Id)
    requires Allowed(db, s) && r in db.revisions && db.revisions[r].state != Draft
    ensures r in Applied(db, s).revisions && KeptRevision(db.revisions[r], Applied(db, s).revisions[r])
  {
    hide Unique, SupersedesOk, Superseded, RowOk, Referenced, FieldReferenced, FieldRefOk;
  }

  lemma FieldsKept(db: DB, s: Statement, r: Id)
    requires Allowed(db, s) && r in db.revisions && db.revisions[r].state != Draft
    ensures FieldsOf(Applied(db, s), r) == FieldsOf(db, r)
  {
    hide Unique, SupersedesOk, Superseded, RowOk, Referenced, FieldReferenced, FieldRefOk;
    if s.UpdateField? && s.id in db.fields {
      var after := Applied(db, s);
      assert forall k :: k in after.fields && after.fields[k].revision == r <==>
                k in db.fields && db.fields[k].revision == r;
    }
  }

  lemma IndexesKept(db: DB, s: Statement, r: Id)
    requires Allowed(db, s) && r in db.revisions && db.revisions[r].state != Draft
    ensures IndexesOf(Applied(db, s), r) == IndexesOf(db, r)
  {
    hide Unique, SupersedesOk, Superseded, RowOk, Referenced, FieldReferenced, FieldRefOk;
    if s.UpdateIndex? && s.id in db.indexes {
      var after := Applied(db, s);
      assert forall k :: k in after.indexes && after.indexes[k].revision == r <==>
                k in db.indexes && db.indexes[k].revision == r;
    }
  }

  lemma StatementKeepsFrozen(db: DB, s: Statement)
    requires Consistent(db) && Allowed(db, s)
    ensures Frozen(db, Applied(db, s))
  {
    hide Consistent, Allowed, Applied, FieldsOf, IndexesOf, KeptRevision;
    forall r | r in db.revisions && db.revisions[r].state != Draft ensures KeepsFrozen(db, Applied(db, s), r) {
      RevisionKept(db, s, r);
      FieldsKept(db, s, r);
      IndexesKept(db, s, r);
    }
  }

  // ---------- the same, column by column ----------

  /** What the revision trigger lets through: a DRAFT row may become any DRAFT row; activation keeps the
      key and every column but state and time; retirement keeps every column but the state. */
  lemma TransitionByColumns(id: Id, before: Revision, newId: Id, after: Revision)
    ensures Transition(id, before, newId, after) <==>
              || (before.state == Draft && after.state == Draft)
              || (before.state == Draft && after.state == Active && newId == id && after.spec == before.spec
                  && after.number == before.number && after.digest == before.digest
                  && after.supersedes == before.supersedes && after.body == before.body)
              || (before.state == Active && after.state == Retired && newId == id && after.spec == before.spec
                  && after.number == before.number && after.digest == before.digest
                  && after.supersedes == before.supersedes && after.body == before.body
                  && after.activatedAt == before.activatedAt)
  {
    if after.spec == before.spec && after.number == before.number && after.digest == before.digest
      && after.supersedes == before.supersedes && after.body == before.body
    {
      assert Content(after) == Content(before);
      assert after.activatedAt == before.activatedAt && after.state == Retired ==> after == before.(state := Retired);
    }
    assert Content(after) == Content(before) ==>
        && Content(after).spec == Content(before).spec && Content(after).number == Content(before).number
        && Content(after).digest == Content(before).digest && Content(after).supersedes == Content(before).supersedes
        && Content(after).body == Content(before).body;
  }

  /** What an accepted statement activates is what was drafted: the same row under the same key, with
      the same children. */
  lemma ActivationKeepsContent(db: DB, s: Statement, r: Id)
    requires Allowed(db, s) && r in db.revisions && db.revisions[r].state == Draft
    requires r in Applied(db, s).revisions && Applied(db, s).revisions[r].state == Active
    ensures var before, after := db.revisions[r], Applied(db, s).revisions[r];
            && after.spec == before.spec && after.number == before.number && after.digest == before.digest
            && after.supersedes == before.supersedes && after.body == before.body
    ensures FieldsOf(Applied(db, s), r) == FieldsOf(db, r) && IndexesOf(Applied(db, s), r) == IndexesOf(db, r)
  {
    hide Unique, SupersedesOk, Superseded, RowOk, Referenced, FieldReferenced, FieldRefOk, IsDraft, IsActive;
    assert s.UpdateRevision? && s.id == s.newId == r;
    TransitionByColumns(r, db.revisions[r], r, Applied(db, s).revisions[r]);
  }

  /** The rows of a consistent database: unique numbers and digests within a specification, at most one
      ACTIVE revision, activation times exactly on rows that left DRAFT, and references that resolve. */
  lemma ConsistentByColumns(db: DB, x: Id, y: Id)
    requires Consistent(db)
    ensures x in db.revisions && y in db.revisions && x != y && db.revisions[x].spec == db.revisions[y].spec ==>
              && db.revisions[x].number != db.revisions[y].number && db.revisions[x].digest != db.revisions[y].digest
              && !(db.revisions[x].state == Active && db.revisions[y].state == Active)
    ensures x in db.revisions ==>
              && (db.revisions[x].state == Draft <==> db.revisions[x].activatedAt.None?)
              && (db.revisions[x].supersedes.Some? ==>
                    var t := db.revisions[x].supersedes.value;
                    t != x && t in db.revisions && db.revisions[t].spec == db.revisions[x].spec)
    ensures x in db.fields ==> db.fields[x].revision in db.revisions
    ensures x in db.indexes ==>
              && db.indexes[x].revision in db.revisions && db.indexes[x].field in db.fields
              && db.fields[db.indexes[x].field].revision == db.indexes[x].revision
    ensures x in db.datasets ==>
              && db.datasets[x].desired in db.revisions
              && (db.revisions[db.datasets[x].desired].state == Active
                  || db.revisions[db.datasets[x].desired].state == Retired)
  {
    assert x in db.revisions && y in db.revisions && x != y ==> !Clashes(db.revisions[x], db.revisions[y]);
    assert x in db.revisions ==> RowOk(x, db.revisions[x]) && SupersedesOk(db.revisions, db.revisions[x]);
    assert x in db.indexes ==> FieldRefOk(db.fields, db.indexes[x]);
  }

  /** A frozen revision, column by column, and its children, row by row. */
  lemma FrozenByColumns(before: DB, after: DB, r: Id, k: Id)
    requires Frozen(before, after) && r in before.revisions && before.revisions[r].state != Draft
    ensures r in after.revisions
    ensures var x, y := before.revisions[r], after.revisions[r];
            && y.spec == x.spec && y.number == x.number && y.digest == x.digest && y.supersedes == x.supersedes
            && y.body == x.body && y.activatedAt == x.activatedAt
            && (y.state == x.state || (x.state == Active && y.state == Retired))
    ensures (k in before.fields && before.fields[k].revision == r <==>
             k in after.fields && after.fields[k].revision == r)
    ensures k in before.fields && before.fields[k].revision == r ==> after.fields[k] == before.fields[k]
    ensures (k in before.indexes && before.indexes[k].revision == r <==>
             k in after.indexes && after.indexes[k].revision == r)
    ensures k in before.indexes && before.indexes[k].revision == r ==> after.indexes[k] == before.indexes[k]
  {
    assert KeepsFrozen(before, after, r);
    assert k in FieldsOf(before, r) <==> k in FieldsOf(after, r);
    assert k in FieldsOf(before, r) ==> FieldsOf(before, r)[k] == FieldsOf(after, r)[k];
    assert k in IndexesOf(before, r) <==> k in IndexesOf(after, r);
    assert k in IndexesOf(before, r) ==> IndexesOf(before, r)[k] == IndexesOf(after, r)[k];
  }

  /** Children may change exactly while their owners are DRAFT, unless a reference or a key forbids it. */
  lemma ChildrenChangeExactly(db: DB, id: Id, f: Field, x: IndexDefinition)
    ensures Allowed(db, InsertField(id, f)) <==>
              id !in db.fields && f.revision in db.revisions && db.revisions[f.revision].state == Draft
    ensures id in db.fields && (forall k :: k in db.indexes ==> db.indexes[k].field != id) ==>
              (Allowed(db, DeleteField(id)) <==>
                 db.fields[id].revision in db.revisions && db.revisions[db.fields[id].revision].state == Draft)
    ensures Allowed(db, InsertIndex(id, x)) <==>
              && id !in db.indexes && x.revision in db.revisions && db.revisions[x.revision].state == Draft
              && x.field in db.fields && db.fields[x.field].revision == x.revision
    ensures id in db.indexes ==>
              (Allowed(db, DeleteIndex(id)) <==>
                 db.indexes[id].revision in db.revisions && db.revisions[db.indexes[id].revision].state == Draft)
  {
  }

  /** A dataset may be assigned a revision exactly when it is ACTIVE. */
  lemma AssignedExactly(db: DB, id: Id, d: Dataset)
    ensures id !in db.datasets ==>
              (Allowed(db, InsertDataset(id, d)) <==>
                 d.desired in db.revisions && db.revisions[d.desired].state == Active)
    ensures id in db.datasets ==>
              (Allowed(db, UpdateDataset(id, id, d, true)) <==>
                 d.desired in db.revisions && db.revisions[d.desired].state == Active)
  {
  }

  /** A source may be added under any free name and removed at any time; its default specification is what
      the last statement that set it says. */
  lemma DefaultsChangeExactly(db: DB, id: Id, newId: Id, r: Source, sets: bool)
    ensures Allowed(db, InsertSource(id, r)) <==> id !in db.sources
    ensures var t := Applied(db, InsertSource(id, r));
            id in t.sources && t.sources[id].defaultSpec == r.defaultSpec
    ensures id in db.sources ==>
              && (Allowed(db, UpdateSource(id, newId, r, sets)) <==> newId == id || newId !in db.sources)
              && var t := Applied(db, UpdateSource(id, newId, r, sets));
                 && newId in t.sources && t.sources[newId].body == r.body && (newId != id ==> id !in t.sources)
                 && t.sources[newId].defaultSpec == if sets then r.defaultSpec else db.sources[id].defaultSpec
    ensures Allowed(db, DeleteSource(id)) && id !in Applied(db, DeleteSource(id)).sources
  {
  }

  predicate Names(s: Statement, k: Id)
  {
    match s
    case InsertRevision(id, _) => k == id
    case UpdateRevision(id, newId, _) => k == id || k == newId
    case DeleteRevision(id) => k == id
    case InsertField(id, _) => k == id
    case UpdateField(id, newId, _) => k == id || k == newId
    case DeleteField(id) => k == id
    case InsertIndex(id, _) => k == id
    case UpdateIndex(id, newId, _) => k == id || k == newId
    case DeleteIndex(id) => k == id
    case InsertSource(id, _) => k == id
    case UpdateSource(id, newId, _, _) => k == id || k == newId
    case DeleteSource(id) => k == id
    case InsertDataset(id, _) => k == id
    case UpdateDataset(id, newId, _, _) => k == id || k == newId
    case DeleteDataset(id) => k == id
    case Refused => false
  }

  ghost predicate RowStays<T>(m: map<Id, T>, n: map<Id, T>, k: Id)
  {
    (k in m <==> k in n) && (k in m ==> n[k] == m[k])
  }

  /** A statement leaves every row it does not name as it was. */
  lemma OtherRowsStay(db: DB, s: Statement, k: Id)
    requires !Names(s, k)
    ensures var t := Applied(db, s);
            && RowStays(db.revisions, t.revisions, k) && RowStays(db.fields, t.fields, k)
            && RowStays(db.indexes, t.indexes, k) && RowStays(db.sources, t.sources, k)
            && RowStays(db.datasets, t.datasets, k)
  {
    hide Rekey, RowStays;
    AllStay(db, k);
    match s
    case InsertRevision(id, r) => PutStays(db.revisions, id, r, k);
    case DeleteRevision(id) => DropStays(db.revisions, id, k);
    case InsertField(id, f) => PutStays(db.fields, id, f, k);
    case DeleteField(id) => DropStays(db.fields, id, k);
    case InsertIndex(id, x) => PutStays(db.indexes, id, x, k);
    case DeleteIndex(id) => DropStays(db.indexes, id, k);
    case InsertSource(id, r) => PutStays(db.sources, id, r, k);
    case DeleteSource(id) => DropStays(db.sources, id, k);
    case InsertDataset(id, d) => PutStays(db.datasets, id, d, k);
    case DeleteDataset(id) => DropStays(db.datasets, id, k);
    case UpdateRevision(id, newId, r) => RekeyStays(db.revisions, id, newId, r, k);
    case UpdateField(id, newId, f) => RekeyStays(db.fields, id, newId, f, k);
    case UpdateIndex(id, newId, x) => RekeyStays(db.indexes, id, newId, x, k);
    case UpdateSource(id, newId, r, sets) =>
      if id in db.sources {
        RekeyStays(db.sources, id, newId, if sets then r else r.(defaultSpec := db.sources[id].defaultSpec), k);
      }
    case UpdateDataset(id, newId, d, sets) =>
      if id in db.datasets {
        RekeyStays(db.datasets, id, newId, if sets then d else d.(desired := db.datasets[id].desired), k);
      }
    case _ =>
  }

  lemma AllStay(db: DB, k: Id)
    ensures RowStays(db.revisions, db.revisions, k) && RowStays(db.fields, db.fields, k)
    ensures RowStays(db.indexes, db.indexes, k) && RowStays(db.sources, db.sources, k)
    ensures RowStays(db.datasets, db.datasets, k)
  {
  }

  lemma PutStays<T>(m: map<Id, T>, id: Id, row: T, k: Id)
    requires k != id
    ensures RowStays(m, m[id := row], k)
  {
  }

  lemma DropStays<T>(m: map<Id, T>, id: Id, k: Id)
    requires k != id
    ensures RowStays(m, m - {id}, k)
  {
  }

  lemma RekeyStays<T>(m: map<Id, T>, id: Id, newId: Id, row: T, k: Id)
    requires k != id && k != newId
    ensures RowStays(m, Rekey(m, id, newId, row), k)
  {
  }

  /** No row refers to the revision. */
  predicate Unclaimed(db: DB, id: Id)
  {
    && (forall k :: k in db.revisions ==> db.revisions[k].supersedes != Some(id))
    && (forall k :: k in db.fields ==> db.fields[k].revision != id)
    && (forall k :: k in db.indexes ==> db.indexes[k].revision != id)
    && forall k :: k in db.datasets ==> db.datasets[k].desired != id
  }

  /** A DRAFT revision with a free key, number and digest can always be added, edited and removed. */
  lemma DraftsAreFree(db: DB, id: Id, r: Revision)
    requires r.state == Draft && r.activatedAt.None? && r.supersedes.None?
    requires forall k :: k in db.revisions && k != id && db.revisions[k].spec == r.spec ==>
               db.revisions[k].number != r.number && db.revisions[k].digest != r.digest
    ensures id !in db.revisions ==> Allowed(db, InsertRevision(id, r))
    ensures id in db.revisions && db.revisions[id].state == Draft && db.revisions[id].spec == r.spec ==>
              Allowed(db, UpdateRevision(id, id, r))
    ensures id in db.revisions && db.revisions[id].state == Draft && Unclaimed(db, id) ==>
              Allowed(db, DeleteRevision(id))
  {
  }

  // ---------- transactions ----------

  datatype Transaction = Transaction(statements: seq<Statement>, commits: bool)

  predicate AllAllowed(db: DB, ss: seq<Statement>)
    decreases |ss|
  {
    ss == [] || (Allowed(db, ss[0]) && AllAllowed(Applied(db, ss[0]), ss[1..]))
  }

  function AppliedAll(db: DB, ss: seq<Statement>): DB
    decreases |ss|
  {
    if ss == [] then db else AppliedAll(Applied(db, ss[0]), ss[1..])
  }

  predicate AnyQueued(db: DB, ss: seq<Statement>)
    decreases |ss|
  {
    ss != [] && (Queues(db, ss[0]) || AnyQueued(Applied(db, ss[0]), ss[1..]))
  }

  predicate HasActive(revisions: map<Id, Revision>, spec: Id)
  {
    exists k :: k in revisions && revisions[k].spec == spec && revisions[k].state == Active
  }

  /** The deferred check. */
  predicate DefaultsActive(db: DB)
  {
    forall k :: k in db.sources ==> HasActive(db.revisions, db.sources[k].defaultSpec)
  }

  predicate Commits(db: DB, t: Transaction)
  {
    && t.commits && AllAllowed(db, t.statements)
    && (AnyQueued(db, t.statements) ==> DefaultsActive(AppliedAll(db, t.statements)))
  }

  /** A refused statement or deferred check undoes the whole transaction. */
  function AfterTransaction(db: DB, t: Transaction): DB
  {
    if Commits(db, t) then AppliedAll(db, t.statements) else db
  }

  function AfterHistory(db: DB, h: seq<Transaction>): DB
    decreases |h|
  {
    if h == [] then db else AfterHistory(AfterTransaction(db, h[0]), h[1..])
  }

  /** After every statement of a transaction, committed or not: at most one ACTIVE revision per
      specification, no dataset on a DRAFT revision, and everything frozen kept. */
  lemma {:induction false} EveryStatementIsSafe(db: DB, ss: seq<Statement>)
    requires Consistent(db) && AllAllowed(db, ss)
    ensures Consistent(AppliedAll(db, ss)) && Frozen(db, AppliedAll(db, ss))
    decreases |ss|
  {
    hide Consistent, Frozen, Allowed, Applied;
    if ss == [] {
      SelfFrozen(db);
    } else {
      var next := Applied(db, ss[0]);
      StatementKeepsConsistent(db, ss[0]);
      StatementKeepsFrozen(db, ss[0]);
      EveryStatementIsSafe(next, ss[1..]);
      FrozenTransitive(db, next, AppliedAll(db, ss));
    }
  }

  lemma SelfFrozen(db: DB)
    ensures Frozen(db, db)
  {
  }

  /** Statements that queue no deferred check leave every default specification served. */
  lemma {:induction false} UnqueuedKeepsDefaults(db: DB, ss: seq<Statement>)
    requires DefaultsActive(db) && AllAllowed(db, ss) && !AnyQueued(db, ss)
    ensures DefaultsActive(AppliedAll(db, ss))
    decreases |ss|
  {
    if ss != [] {
      var next := Applied(db, ss[0]);
      UnqueuedStep(db, ss[0]);
      UnqueuedKeepsDefaults(next, ss[1..]);
    }
  }

  lemma UnqueuedStep(db: DB, s: Statement)
    requires DefaultsActive(db) && Allowed(db, s) && !Queues(db, s)
    ensures DefaultsActive(Applied(db, s))
  {
    var after := Applied(db, s);
    assert after.revisions == db.revisions;
    hide HasActive;
  }

  /** Over every history of transactions. */
  lemma {:induction false} HistoryIsSafe(db: DB, h: seq<Transaction>)
    requires Consistent(db) && DefaultsActive(db)
    ensures Consistent(AfterHistory(db, h)) && Frozen(db, AfterHistory(db, h)) && DefaultsActive(AfterHistory(db, h))
    decreases |h|
  {
    hide Consistent, Frozen, DefaultsActive, AllAllowed, AppliedAll, AnyQueued;
    if h == [] {
      SelfFrozen(db);
    } else {
      var t, next := h[0], AfterTransaction(db, h[0]);
      if Commits(db, t) {
        EveryStatementIsSafe(db, t.statements);
        if !AnyQueued(db, t.statements) {
          UnqueuedKeepsDefaults(db, t.statements);
        }
      } else {
        SelfFrozen(db);
      }
      HistoryIsSafe(next, h[1..]);
      FrozenTransitive(db, next, AfterHistory(db, h));
    }
  }

  /** In the middle of any transaction after any history, frozen rows are as they were and no
      specification has two ACTIVE revisions. */
  lemma MidTransactionIsSafe(db: DB, h: seq<Transaction>, ss: seq<Statement>)
    requires Consistent(db) && DefaultsActive(db) && AllAllowed(AfterHistory(db, h), ss)
    ensures var mid := AppliedAll(AfterHistory(db, h), ss);
            && Consistent(mid) && Frozen(db, mid)
            && forall a, b :: IsActive(mid.revisions, a) && IsActive(mid.revisions, b) && a != b ==>
                 mid.revisions[a].spec != mid.revisions[b].spec
  {
    hide AfterHistory, AllAllowed, AppliedAll, Frozen, DefaultsActive;
    HistoryIsSafe(db, h);
    EveryStatementIsSafe(AfterHistory(db, h), ss);
    FrozenTransitive(db, AfterHistory(db, h), AppliedAll(AfterHistory(db, h), ss));
    var mid := AppliedAll(AfterHistory(db, h), ss);
    assert forall a, b :: a in mid.revisions && b in mid.revisions && a != b ==>
              !Clashes(mid.revisions[a], mid.revisions[b]);
  }

  /** The migration seeds one ACTIVE revision with its children before the triggers exist. */
  lemma SeedIsConsistent(id: Id, r: Revision, fields: map<Id, Field>, indexes: map<Id, IndexDefinition>)
    requires r.state == Active && r.activatedAt.Some? && r.supersedes.None?
    requires forall k :: k in fields ==> fields[k].revision == id
    requires forall k :: k in indexes ==> indexes[k].revision == id && indexes[k].field in fields
    ensures var db := DB(map[id := r], fields, indexes, map[], map[]); Consistent(db) && DefaultsActive(db)
  {
  }

  predicate ServesDefault(db: DB, source: Id, revision: Id)
    requires source in db.sources
  {
    && revision in db.revisions && db.revisions[revision].spec == db.sources[source].defaultSpec
    && db.revisions[revision].state == Active
  }

  /** At every commit, each source's default specification has exactly one ACTIVE revision. */
  lemma ExactlyOneDefault(db: DB, h: seq<Transaction>, source: Id) returns (revision: Id)
    requires Consistent(db) && DefaultsActive(db)
    requires source in AfterHistory(db, h).sources
    ensures forall k :: ServesDefault(AfterHistory(db, h), source, k) <==> k == revision
  {
    hide AfterHistory;
    HistoryIsSafe(db, h);
    var after := AfterHistory(db, h);
    assert HasActive(after.revisions, after.sources[source].defaultSpec);
    var x :| x in after.revisions && after.revisions[x].spec == after.sources[source].defaultSpec
      && after.revisions[x].state == Active;
    revision := x;
    assert ServesDefault(after, source, revision);
    forall k | ServesDefault(after, source, k) ensures k == revision {
      assert k != revision ==> !Clashes(after.revisions[k], after.revisions[revision]);
    }
  }

  function Retire(db: DB, a: Id): Statement
    requires a in db.revisions
  {
    UpdateRevision(a, a, db.revisions[a].(state := Retired))
  }

  function Activate(db: DB, b: Id, at: int): Statement
    requires b in db.revisions
  {
    UpdateRevision(b, b, db.revisions[b].(state := Active, activatedAt := Some(at)))
  }

  /** The active revision can be replaced in one transaction, though in between its specification
      has none: the check waits for the commit. The other order is refused by the unique index. */
  lemma ReplacingTheActive(db: DB, a: Id, b: Id, at: int)
    requires Consistent(db) && DefaultsActive(db)
    requires a in db.revisions && b in db.revisions && db.revisions[a].state == Active && db.revisions[b].state == Draft
    requires db.revisions[a].spec == db.revisions[b].spec
    ensures Commits(db, Transaction([Retire(db, a), Activate(db, b, at)], true))
    ensures !AllAllowed(db, [Activate(db, b, at), Retire(db, a)])
  {
    hide Allowed, Applied, Consistent, DefaultsActive, Queues, Retire, Activate;
    var retire, activate := Retire(db, a), Activate(db, b, at);
    RetireAllowed(db, a);
    ActivateAllowed(db, a, b, at);
    ReplacedDefaults(db, a, b, at);
    ActivateFirstRefused(db, a, b, at);
    assert [retire, activate][1..] == [activate];
    assert [activate][1..] == [];
    var mid := Applied(db, retire);
    assert AllAllowed(mid, [activate]) && AppliedAll(mid, [activate]) == Applied(mid, activate);
    assert AllAllowed(db, [retire, activate]) && AppliedAll(db, [retire, activate]) == Applied(mid, activate);
  }

  lemma RetireAllowed(db: DB, a: Id)
    requires Consistent(db) && a in db.revisions && db.revisions[a].state == Active
    ensures Allowed(db, Retire(db, a))
  {
    hide Referenced;
    assert RowOk(a, db.revisions[a]) && SupersedesOk(db.revisions, db.revisions[a]);
  }

  lemma ActivateAllowed(db: DB, a: Id, b: Id, at: int)
    requires Consistent(db)
    requires a in db.revisions && b in db.revisions && db.revisions[a].state == Active && db.revisions[b].state == Draft
    requires db.revisions[a].spec == db.revisions[b].spec
    ensures Allowed(Applied(db, Retire(db, a)), Activate(db, b, at))
  {
    hide Referenced;
    assert RowOk(b, db.revisions[b]) && SupersedesOk(db.revisions, db.revisions[b]);
    var mid := Applied(db, Retire(db, a));
    var n := Activate(db, b, at).revision;
    forall k | k in mid.revisions - {b} ensures !Clashes((mid.revisions - {b})[k], n) {
      assert !Clashes(db.revisions[k], db.revisions[b]);
      assert k != a ==> !Clashes(db.revisions[k], db.revisions[a]);
    }
  }

  lemma ActivateFirstRefused(db: DB, a: Id, b: Id, at: int)
    requires a in db.revisions && b in db.revisions && db.revisions[a].state == Active && db.revisions[b].state == Draft
    requires db.revisions[a].spec == db.revisions[b].spec
    ensures !Allowed(db, Activate(db, b, at))
  {
    assert Clashes(db.revisions[a], Activate(db, b, at).revision) && a in db.revisions - {b};
  }

  lemma ReplacedDefaults(db: DB, a: Id, b: Id, at: int)
    requires DefaultsActive(db)
    requires a in db.revisions && b in db.revisions && db.revisions[a].state == Active && db.revisions[b].state == Draft
    requires db.revisions[a].spec == db.revisions[b].spec
    ensures DefaultsActive(Applied(Applied(db, Retire(db, a)), Activate(db, b, at)))
  {
    var end := Applied(Applied(db, Retire(db, a)), Activate(db, b, at));
    forall k | k in end.sources ensures HasActive(end.revisions, end.sources[k].defaultSpec) {
      assert HasActive(db.revisions, db.sources[k].defaultSpec);
      var x :| x in db.revisions && db.revisions[x].spec == db.sources[k].defaultSpec
        && db.revisions[x].state == Active;
      assert x != a ==> end.revisions[x] == db.revisions[x];
      assert end.revisions[b].state == Active;
    }
  }

  // ---------- the triggers as code, over mutable tables ----------

  datatype TgOp = Insert | Update | Delete

  class ControlPlane {
    var revisions: map<Id, Revision>
    var fields: map<Id, Field>
    var indexes: map<Id, IndexDefinition>
    var sources: map<Id, Source>
    var datasets: map<Id, Dataset>
    /** A deferred constraint trigger waits for the commit. */
    var queued: bool

    function Model(): DB
      reads this
    {
      DB(revisions, fields, indexes, sources, datasets)
    }

    constructor (db: DB)
      ensures Model() == db && !queued
    {
      revisions, fields, indexes, sources, datasets := db.revisions, db.fields, db.indexes, db.sources, db.datasets;
      queued := false;
    }

    /** `require_draft_spec_revision`: false when it raises. A missing revision raises too. */
    method RequireDraftSpecRevision(candidate: Id) returns (ok: bool)
      ensures ok == IsDraft(revisions, candidate)
    {
      var state: Option<RevisionState> := None;
      if candidate in revisions {
        state := Some(revisions[candidate].state);
      }
      ok := state == Some(Draft);
    }

    /** `enforce_spec_revision_lifecycle` on the row before and the row after. */
    method EnforceSpecRevisionLifecycle(op: TgOp, oldId: Id, before: Revision, newId: Id, after: Revision)
      returns (ok: bool)
      ensures ok == match op
                    case Insert => after.state == Draft
                    case Delete => before.state == Draft
                    case Update => Transition(oldId, before, newId, after)
    {
      if op == Insert {
        return after.state == Draft;
      }
      if op == Delete {
        return before.state == Draft;
      }
      if before.state == Draft {
        if after.state == Draft {
          return true;
        }
        if after.state == Active && newId == oldId && Content(after) == Content(before) {
          return true;
        }
        return false;
      }
      if before.state == Active && after.state == Retired && newId == oldId
        && after.(state := Draft) == before.(state := Draft)
      {
        assert after == after.(state := Draft).(state := Retired);
        return true;
      }
      return false;
    }

    /** `enforce_direct_spec_child_lifecycle` on the owning revisions. */
    method EnforceDirectSpecChildLifecycle(op: TgOp, before: Id, after: Id) returns (ok: bool)
      ensures ok == ((op != Insert ==> IsDraft(revisions, before)) && (op != Delete ==> IsDraft(revisions, after)))
    {
      if op == Insert {
        ok := RequireDraftSpecRevision(after);
        return;
      }
      ok := RequireDraftSpecRevision(before);
      if op == Delete || !ok {
        return;
      }
      ok := RequireDraftSpecRevision(after);
    }

    /** `enforce_active_dataset_revision`. */
    method EnforceActiveDatasetRevision(desired: Id) returns (ok: bool)
      ensures ok == IsActive(revisions, desired)
    {
      ok := desired in revisions && revisions[desired].state == Active;
    }

    /** `enforce_source_default_active`: look for a source whose default has no ACTIVE revision. */
    method EnforceSourceDefaultActive() returns (ok: bool)
      ensures ok == DefaultsActive(Model())
    {
      var todo := sources.Keys;
      while todo != {}
        invariant todo <= sources.Keys
        invariant forall k :: k in sources && k !in todo ==> HasActive(revisions, sources[k].defaultSpec)
        decreases |todo|
      {
        var k :| k in todo;
        var served := FindActive(sources[k].defaultSpec);
        if !served {
          assert k in Model().sources;
          return false;
        }
        todo := todo - {k};
      }
      return true;
    }

    method FindActive(spec: Id) returns (found: bool)
      ensures found == HasActive(revisions, spec)
    {
      var todo := revisions.Keys;
      while todo != {}
        invariant todo <= revisions.Keys
        invariant forall k :: k in revisions && k !in todo ==>
                  !(revisions[k].spec == spec && revisions[k].state == Active)
        decreases |todo|
      {
        var k :| k in todo;
        if revisions[k].spec == spec && revisions[k].state == Active {
          return true;
        }
        todo := todo - {k};
      }
      return false;
    }

    /** A statement on revisions: row trigger first, then the immediate constraints, then the row. */
    method ExecuteOnRevisions(s: Statement) returns (ok: bool)
      requires s.InsertRevision? || s.UpdateRevision? || s.DeleteRevision?
      modifies this`revisions, this`queued
      ensures ok == Allowed(old(Model()), s)
      ensures Model() == if ok then Applied(old(Model()), s) else old(Model())
      ensures queued == (old(queued) || (ok && Queues(old(Model()), s)))
    {
      hide Transition, RowOk, Unique, SupersedesOk, Superseded, Referenced;
      match s
      case InsertRevision(id, r) =>
        ok := EnforceSpecRevisionLifecycle(Insert, id, r, id, r);
        ok := ok && id !in revisions && RowOk(id, r) && Unique(revisions, r) && SupersedesOk(revisions, r);
        if ok {
          revisions, queued := revisions[id := r], true;
        }
      case UpdateRevision(id, newId, r) =>
        if id !in revisions {
          return true;
        }
        var before, others := revisions[id], revisions - {id};
        ok := EnforceSpecRevisionLifecycle(Update, id, before, newId, r);
        ok := ok && newId !in others && RowOk(newId, r) && Unique(others, r) && SupersedesOk(others, r);
        ok := ok && ((newId == id && r.spec == before.spec) || !Superseded(others, id));
        ok := ok && (newId == id || !Referenced(Model(), id));
        if ok {
          revisions, queued := Rekey(revisions, id, newId, r), true;
        }
      case DeleteRevision(id) =>
        if id !in revisions {
          assert revisions - {id} == revisions;
          return true;
        }
        ok := EnforceSpecRevisionLifecycle(Delete, id, revisions[id], id, revisions[id]);
        ok := ok && !Superseded(revisions - {id}, id) && !Referenced(Model(), id);
        if ok {
          revisions, queued := revisions - {id}, true;
        }
    }

    method ExecuteOnFields(s: Statement) returns (ok: bool)
      requires s.InsertField? || s.UpdateField? || s.DeleteField?
      modifies this`fields
      ensures ok == Allowed(old(Model()), s)
      ensures Model() == if ok then Applied(old(Model()), s) else old(Model())
    {
      hide IsDraft, FieldReferenced;
      match s
      case InsertField(id, f) =>
        ok := EnforceDirectSpecChildLifecycle(Insert, f.revision, f.revision);
        ok := ok && id !in fields;
        if ok {
          fields := fields[id := f];
        }
      case UpdateField(id, newId, f) =>
        if id !in fields {
          return true;
        }
        ok := EnforceDirectSpecChildLifecycle(Update, fields[id].revision, f.revision);
        ok := ok && newId !in fields - {id};
        ok := ok && ((newId == id && f.revision == fields[id].revision) || !FieldReferenced(Model(), id));
        if ok {
          fields := Rekey(fields, id, newId, f);
        }
      case DeleteField(id) =>
        if id !in fields {
          assert fields - {id} == fields;
          return true;
        }
        ok := EnforceDirectSpecChildLifecycle(Delete, fields[id].revision, fields[id].revision);
        ok := ok && !FieldReferenced(Model(), id);
        if ok {
          fields := fields - {id};
        }
    }

    method ExecuteOnIndexes(s: Statement) returns (ok: bool)
      requires s.InsertIndex? || s.UpdateIndex? || s.DeleteIndex?
      modifies this`indexes
      ensures ok == Allowed(old(Model()), s)
      ensures Model() == if ok then Applied(old(Model()), s) else old(Model())
    {
      hide IsDraft, FieldRefOk;
      match s
      case InsertIndex(id, x) =>
        ok := EnforceDirectSpecChildLifecycle(Insert, x.revision, x.revision);
        ok := ok && id !in indexes && FieldRefOk(fields, x);
        if ok {
          indexes := indexes[id := x];
        }
      case UpdateIndex(id, newId, x) =>
        if id !in indexes {
          return true;
        }
        ok := EnforceDirectSpecChildLifecycle(Update, indexes[id].revision, x.revision);
        ok := ok && newId !in indexes - {id} && FieldRefOk(fields, x);
        if ok {
          indexes := Rekey(indexes, id, newId, x);
        }
      case DeleteIndex(id) =>
        if id !in indexes {
          assert indexes - {id} == indexes;
          return true;
        }
        ok := EnforceDirectSpecChildLifecycle(Delete, indexes[id].revision, indexes[id].revision);
        if ok {
          indexes := indexes - {id};
        }
    }

    method ExecuteOnSources(s: Statement) returns (ok: bool)
      requires s.InsertSource? || s.UpdateSource? || s.DeleteSource?
      modifies this`sources, this`queued
      ensures ok == Allowed(old(Model()), s)
      ensures Model() == if ok then Applied(old(Model()), s) else old(Model())
      ensures queued == (old(queued) || (ok && Queues(old(Model()), s)))
    {
      match s
      case InsertSource(id, r) =>
        ok := id !in sources;
        if ok {
          sources, queued := sources[id := r], true;
        }
      case UpdateSource(id, newId, r, setsDefault) =>
        if id !in sources {
          return true;
        }
        ok := newId !in sources - {id};
        if ok {
          var row := if setsDefault then r else r.(defaultSpec := sources[id].defaultSpec);
          sources, queued := Rekey(sources, id, newId, row), queued || setsDefault;
        }
      case DeleteSource(id) =>
        sources := sources - {id};
        ok := true;
    }

    method ExecuteOnDatasets(s: Statement) returns (ok: bool)
      requires s.InsertDataset? || s.UpdateDataset? || s.DeleteDataset?
      modifies this`datasets
      ensures ok == Allowed(old(Model()), s)
      ensures Model() == if ok then Applied(old(Model()), s) else old(Model())
    {
      hide IsActive;
      match s
      case InsertDataset(id, d) =>
        ok := EnforceActiveDatasetRevision(d.desired);
        ok := ok && id !in datasets;
        if ok {
          datasets := datasets[id := d];
        }
      case UpdateDataset(id, newId, d, setsDesired) =>
        if id !in datasets {
          return true;
        }
        ok := true;
        if setsDesired {
          ok := EnforceActiveDatasetRevision(d.desired);
        }
        ok := ok && newId !in datasets - {id};
        if ok {
          var row := if setsDesired then d else d.(desired := datasets[id].desired);
          datasets := Rekey(datasets, id, newId, row);
        }
      case DeleteDataset(id) =>
        datasets := datasets - {id};
        ok := true;
    }

    method Execute(s: Statement) returns (ok: bool)
      modifies this
      ensures ok == Allowed(old(Model()), s)
      ensures Model() == if ok then Applied(old(Model()), s) else old(Model())
      ensures queued == (old(queued) || (ok && Queues(old(Model()), s)))
    {
      if s.InsertRevision? || s.UpdateRevision? || s.DeleteRevision? {
        hide Allowed, Applied, Queues;
        ok := ExecuteOnRevisions(s);
      } else if s.InsertField? || s.UpdateField? || s.DeleteField? {
        hide Allowed, Applied;
        ok := ExecuteOnFields(s);
      } else if s.InsertIndex? || s.UpdateIndex? || s.DeleteIndex? {
        hide Allowed, Applied;
        ok := ExecuteOnIndexes(s);
      } else if s.InsertSource? || s.UpdateSource? || s.DeleteSource? {
        hide Allowed, Applied, Queues;
        ok := ExecuteOnSources(s);
      } else if s.InsertDataset? || s.UpdateDataset? || s.DeleteDataset? {
        hide Allowed, Applied;
        ok := ExecuteOnDatasets(s);
      } else {
        ok := false;
      }
    }

    /** One transaction: statements, then the deferred check if anything queued it, else undo. */
    method Transact(t: Transaction) returns (committed: bool)
      requires !queued
      modifies this
      ensures !queued
      ensures committed == Commits(old(Model()), t) && Model() == AfterTransaction(old(Model()), t)
    {
      hide Allowed, Applied, Queues, DefaultsActive;
      var saved := Model();
      var ok, i := true, 0;
      while i < |t.statements| && ok
        invariant 0 <= i <= |t.statements|
        invariant ok ==> (AllAllowed(saved, t.statements) <==> AllAllowed(Model(), t.statements[i..]))
        invariant ok ==> AppliedAll(saved, t.statements) == AppliedAll(Model(), t.statements[i..])
        invariant ok ==> (AnyQueued(saved, t.statements) <==> queued || AnyQueued(Model(), t.statements[i..]))
        invariant !ok ==> !AllAllowed(saved, t.statements)
        decreases |t.statements| - i
      {
        var rest := t.statements[i..];
        assert rest[0] == t.statements[i] && rest[1..] == t.statements[i + 1..];
        ok := Execute(t.statements[i]);
        i := i + 1;
      }
      if ok && t.commits && queued {
        ok := EnforceSourceDefaultActive();
      }
      committed := ok && t.commits;
      if !committed {
        revisions, fields, indexes := saved.revisions, saved.fields, saved.indexes;
        sources, datasets := saved.sources, saved.datasets;
      }
      queued := false;
    }
  }
}
