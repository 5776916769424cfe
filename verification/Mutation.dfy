/** Snapshot collapse: `src/lance_etl/etl/mutation.py`.

    SHA-256 is the parameter `sha`. Where two digests are compared, freedom from collisions is
    assumed of exactly the preimages at hand (`NoCollision`). */
module Mutation {
  import opened Orders
  import opened Digest
  import opened Identity
  import Utf8

  type Hash = seq<byte> -> seq<byte>

  datatype MutationInput = MutationInput(
    tenant: string, namespace: string, org: string, recordId: string, operation: string,
    ts: Instant, payload: seq<Entry>)

  datatype TerminalMutation = TerminalMutation(
    tenant: string, namespace: string, org: string, recordId: string, operation: string,
    ts: Instant, payload: seq<Entry>, windowSeq: int, sourceSequence: int, digest: seq<byte>)
  {
    predicate IsDeleted() { operation == "delete" }
  }

  datatype CollapseError = InvalidInput | MutationConflict

  datatype Outcome<+T> = Success(value: T) | Failure(error: CollapseError)

  // ---------- normalize_operation ----------

  /** The characters Python's `str.strip` removes. */
  predicate IsSpace(c: char)
  {
    var n := c as int;
    || 0x09 <= n <= 0x0D || 0x1C <= n <= 0x20 || n == 0x85 || n == 0xA0 || n == 0x1680
    || 0x2000 <= n <= 0x200A || n == 0x2028 || n == 0x2029 || n == 0x202F || n == 0x205F || n == 0x3000
  }

  function StripLeft(s: string): string
  {
    if s != "" && IsSpace(s[0]) then StripLeft(s[1..]) else s
  }

  function StripRight(s: string): string
  {
    if s != "" && IsSpace(s[|s| - 1]) then StripRight(s[..|s| - 1]) else s
  }

  /** Lower case. No character outside ASCII lowers to a letter of the operation vocabulary, so the
      ASCII letters are the ones that matter for membership. */
  function Lower(s: string): (r: string)
    ensures |r| == |s|
  {
    if s == "" then ""
    else [if 'A' <= s[0] <= 'Z' then s[0] - 'A' + 'a' else s[0]] + Lower(s[1..])
  }

  const UPSERT_OPERATIONS: set<string> := {"insert", "update", "upsert", "i", "u"}
  const DELETE_OPERATIONS: set<string> := {"delete", "d"}

  function NormalizeOperation(operation: string): Outcome<string>
  {
    var normalized := Lower(StripRight(StripLeft(operation)));
    if normalized in UPSERT_OPERATIONS then Success("upsert")
    else if normalized in DELETE_OPERATIONS then Success("delete")
    else Failure(InvalidInput)
  }

  // ---------- one row ----------

  function RowEvent(r: MutationInput): Event
    requires NormalizeOperation(r.operation).Success?
  {
    Event(r.tenant, r.namespace, r.org, r.recordId, NormalizeOperation(r.operation).value, r.ts, r.payload)
  }

  /** Supported operation and encodable content: the row reaches conflict detection. */
  predicate Acceptable(r: MutationInput)
  {
    NormalizeOperation(r.operation).Success? && EventPreimage(RowEvent(r)).Ok?
  }

  predicate AllAcceptable(rows: seq<MutationInput>)
  {
    forall i :: 0 <= i < |rows| ==> Acceptable(rows[i])
  }

  function Preimage(r: MutationInput): seq<byte>
    requires Acceptable(r)
  {
    EventPreimage(RowEvent(r)).value
  }

  datatype Key = Key(tenant: string, namespace: string, org: string, recordId: string)

  function RowKey(r: MutationInput): Key
  {
    Key(r.tenant, r.namespace, r.org, r.recordId)
  }

  function TerminalKey(t: TerminalMutation): Key
  {
    Key(t.tenant, t.namespace, t.org, t.recordId)
  }

  function Terminal(r: MutationInput, windowSeq: int, sourceSequence: int, sha: Hash): TerminalMutation
    requires Acceptable(r)
  {
    TerminalMutation(r.tenant, r.namespace, r.org, r.recordId, NormalizeOperation(r.operation).value,
                     r.ts, r.payload, windowSeq, sourceSequence, sha(Preimage(r)))
  }

  predicate TextLess(a: string, b: string)
  {
    LexLess(Utf8.CodePoints(a), Utf8.CodePoints(b))
  }

  /** Python's order on `((tenant, namespace, org), record_id)`. */
  predicate KeyLess(a: Key, b: Key)
  {
    if a.tenant != b.tenant then TextLess(a.tenant, b.tenant)
    else if a.namespace != b.namespace then TextLess(a.namespace, b.namespace)
    else if a.org != b.org then TextLess(a.org, b.org)
    else TextLess(a.recordId, b.recordId)
  }

  predicate TerminalLess(a: TerminalMutation, b: TerminalMutation)
  {
    KeyLess(TerminalKey(a), TerminalKey(b))
  }

  // ---------- what collapse promises ----------

  /** Two rows of one key with different digests: the snapshot has no order to pick a winner. */
  predicate Conflicting(rows: seq<MutationInput>, sha: Hash)
    requires AllAcceptable(rows)
  {
    exists i, j :: 0 <= i < j < |rows| && RowKey(rows[i]) == RowKey(rows[j])
                   && sha(Preimage(rows[i])) != sha(Preimage(rows[j]))
  }

  predicate IsTerminalOf(t: TerminalMutation, rows: seq<MutationInput>, w: int, s: int, sha: Hash)
    requires AllAcceptable(rows)
  {
    exists i :: 0 <= i < |rows| && t == Terminal(rows[i], w, s, sha)
  }

  /** Every row is represented by the terminal mutation of its key, with its own digest. */
  predicate Represented(r: MutationInput, out: seq<TerminalMutation>, sha: Hash)
    requires Acceptable(r)
  {
    exists j :: 0 <= j < |out| && TerminalKey(out[j]) == RowKey(r) && out[j].digest == sha(Preimage(r))
  }

  ghost predicate IsCollapse(
    rows: seq<MutationInput>, w: int, s: int, sha: Hash, out: seq<TerminalMutation>)
    requires AllAcceptable(rows)
  {
    && StrictlySorted(out, TerminalLess)
    && (forall j :: 0 <= j < |out| ==> IsTerminalOf(out[j], rows, w, s, sha))
    && forall i :: 0 <= i < |rows| ==> Represented(rows[i], out, sha)
  }

  predicate ValidSequence(n: int)
  {
    0 <= n < TWO_63
  }

  method CollapseSnapshotMutations(rows: seq<MutationInput>, w: int, s: int, sha: Hash)
    returns (r: Outcome<seq<TerminalMutation>>)
    ensures !(ValidSequence(w) && ValidSequence(s)) ==> r == Failure(InvalidInput)
    ensures r.Success? ==> AllAcceptable(rows) && !Conflicting(rows, sha) && IsCollapse(rows, w, s, sha, r.value)
    ensures ValidSequence(w) && ValidSequence(s) && AllAcceptable(rows) ==>
              if Conflicting(rows, sha) then r == Failure(MutationConflict) else r.Success?
    ensures r == Failure(MutationConflict) ==> |rows| >= 2
  {
    hide NormalizeOperation, EventPreimage, Conflicting, Gathered, IsCollapse, Preimage;
    if !ValidSequence(w) || !ValidSequence(s) {
      return Failure(InvalidInput);
    }
    var terminals: map<Key, TerminalMutation> := map[];
    var i := 0;
    NothingGathered(rows[..0], w, s, sha);
    while i < |rows|
      invariant 0 <= i <= |rows|
      invariant AllAcceptable(rows[..i])
      invariant Gathered(rows[..i], w, s, sha, terminals)
    {
      var row := rows[i];
      if NormalizeOperation(row.operation).Failure? || EventPreimage(RowEvent(row)).Err? {
        assert !Acceptable(row);
        return Failure(InvalidInput);
      }
      assert Acceptable(row);
      var t := Terminal(row, w, s, sha);
      var key := RowKey(row);
      if key in terminals && terminals[key].digest != t.digest {
        ConflictSeen(rows, i, w, s, sha, terminals);
        return Failure(MutationConflict);
      }
      GatherStep(rows[..i], row, w, s, sha, terminals);
      assert rows[..i + 1] == rows[..i] + [row];
      terminals := terminals[key := t];
      i := i + 1;
    }
    assert rows[..i] == rows;
    GatheredNeverConflicts(rows, w, s, sha, terminals);
    GatheredKeys(rows, w, s, sha, terminals);
    var ordered := SortedValues(terminals);
    GatheredIsCollapse(rows, w, s, sha, terminals, ordered);
    r := Success(ordered);
  }

  /** The dictionary after reading `rows`: the last row of each key, all rows of a key agreeing. */
  ghost predicate Gathered(rows: seq<MutationInput>, w: int, s: int, sha: Hash, m: map<Key, TerminalMutation>)
    requires AllAcceptable(rows)
  {
    && (forall k :: k in m ==> TerminalKey(m[k]) == k && IsTerminalOf(m[k], rows, w, s, sha))
    && forall i :: 0 <= i < |rows| ==> RowKey(rows[i]) in m && m[RowKey(rows[i])].digest == sha(Preimage(rows[i]))
  }

  lemma NothingGathered(rows: seq<MutationInput>, w: int, s: int, sha: Hash)
    requires rows == []
    ensures AllAcceptable(rows) && Gathered(rows, w, s, sha, map[])
  {
  }

  lemma GatheredKeys(rows: seq<MutationInput>, w: int, s: int, sha: Hash, m: map<Key, TerminalMutation>)
    requires AllAcceptable(rows) && Gathered(rows, w, s, sha, m)
    ensures forall k :: k in m ==> TerminalKey(m[k]) == k
  {
    hide Acceptable, IsTerminalOf;
  }

  lemma GatherStep(
    rows: seq<MutationInput>, row: MutationInput, w: int, s: int, sha: Hash, m: map<Key, TerminalMutation>)
    requires AllAcceptable(rows) && Acceptable(row) && AllAcceptable(rows + [row]) && Gathered(rows, w, s, sha, m)
    requires RowKey(row) in m ==> m[RowKey(row)].digest == sha(Preimage(row))
    ensures Gathered(rows + [row], w, s, sha, m[RowKey(row) := Terminal(row, w, s, sha)])
  {
    hide Preimage, Acceptable;
    var all, m' := rows + [row], m[RowKey(row) := Terminal(row, w, s, sha)];
    forall k | k in m' ensures TerminalKey(m'[k]) == k && IsTerminalOf(m'[k], all, w, s, sha) {
      if k == RowKey(row) {
        assert all[|rows|] == row;
      } else {
        var i :| 0 <= i < |rows| && m[k] == Terminal(rows[i], w, s, sha);
        assert all[i] == rows[i];
      }
    }
  }

  lemma ConflictSeen(rows: seq<MutationInput>, i: nat, w: int, s: int, sha: Hash, m: map<Key, TerminalMutation>)
    requires i < |rows| && AllAcceptable(rows[..i]) && Acceptable(rows[i]) && Gathered(rows[..i], w, s, sha, m)
    requires RowKey(rows[i]) in m && m[RowKey(rows[i])].digest != sha(Preimage(rows[i]))
    ensures i > 0 && (AllAcceptable(rows) ==> Conflicting(rows, sha))
  {
    hide Acceptable, Preimage, NormalizeOperation;
    var t := m[RowKey(rows[i])];
    var j :| 0 <= j < i && t == Terminal(rows[..i][j], w, s, sha);
    assert rows[j] == rows[..i][j];
    assert RowKey(rows[j]) == TerminalKey(t) == RowKey(rows[i]);
    assert sha(Preimage(rows[j])) == t.digest;
  }

  lemma GatheredNeverConflicts(rows: seq<MutationInput>, w: int, s: int, sha: Hash, m: map<Key, TerminalMutation>)
    requires AllAcceptable(rows) && Gathered(rows, w, s, sha, m)
    ensures !Conflicting(rows, sha)
  {
  }

  lemma GatheredIsCollapse(
    rows: seq<MutationInput>, w: int, s: int, sha: Hash, m: map<Key, TerminalMutation>, out: seq<TerminalMutation>)
    requires AllAcceptable(rows) && Gathered(rows, w, s, sha, m)
    requires StrictlySorted(out, TerminalLess) && forall t :: t in out <==> t in m.Values
    ensures IsCollapse(rows, w, s, sha, out)
  {
    hide Acceptable, Preimage;
    forall j | 0 <= j < |out| ensures IsTerminalOf(out[j], rows, w, s, sha) {
      assert out[j] in m.Values;
    }
    forall i | 0 <= i < |rows| ensures Represented(rows[i], out, sha) {
      var t := m[RowKey(rows[i])];
      assert t in m.Values;
      var j :| 0 <= j < |out| && out[j] == t;
    }
  }

  /** `[terminal_by_key[key] for key in sorted(terminal_by_key)]`. */
  method SortedValues(m: map<Key, TerminalMutation>) returns (out: seq<TerminalMutation>)
    requires forall k :: k in m ==> TerminalKey(m[k]) == k
    ensures StrictlySorted(out, TerminalLess)
    ensures forall t :: t in out <==> t in m.Values
  {
    out := [];
    var todo := m.Keys;
    TerminalOrder();
    while todo != {}
      invariant todo <= m.Keys
      invariant StrictlySorted(out, TerminalLess)
      invariant forall t :: t in out <==> t in m.Values && TerminalKey(t) !in todo
      decreases |todo|
    {
      var k :| k in todo;
      forall i | 0 <= i < |out| ensures TerminalLess(out[i], m[k]) || TerminalLess(m[k], out[i]) {
        assert out[i] in out;
        KeyTrichotomy(TerminalKey(out[i]), k);
      }
      InsertKeepsStrict(m[k], out, TerminalLess);
      var next := Insert(m[k], out, TerminalLess);
      assert forall t :: t in next <==> t in multiset(next);
      out := next;
      todo := todo - {k};
    }
  }

  lemma TextTrichotomy(a: string, b: string)
    ensures TextLess(a, b) ==> !TextLess(b, a)
    ensures a != b ==> TextLess(a, b) || TextLess(b, a)
  {
    LexTrichotomy(Utf8.CodePoints(a), Utf8.CodePoints(b));
    if Utf8.CodePoints(a) == Utf8.CodePoints(b) {
      CodePointsInjective(a, b);
    }
  }

  lemma {:induction false} CodePointsInjective(a: string, b: string)
    requires Utf8.CodePoints(a) == Utf8.CodePoints(b)
    ensures a == b
  {
    if a != "" && b != "" {
      assert Utf8.CodePoints(a)[0] == Utf8.CodePoints(b)[0];
      assert Utf8.CodePoints(a)[1..] == Utf8.CodePoints(a[1..]);
      assert Utf8.CodePoints(b)[1..] == Utf8.CodePoints(b[1..]);
      CodePointsInjective(a[1..], b[1..]);
      assert a == [a[0]] + a[1..] && b == [b[0]] + b[1..];
    }
  }

  lemma KeyTrichotomy(a: Key, b: Key)
    ensures KeyLess(a, b) ==> !KeyLess(b, a)
    ensures a != b ==> KeyLess(a, b) || KeyLess(b, a)
  {
    TextTrichotomy(a.tenant, b.tenant);
    TextTrichotomy(a.namespace, b.namespace);
    TextTrichotomy(a.org, b.org);
    TextTrichotomy(a.recordId, b.recordId);
  }

  lemma TextTransitive(a: string, b: string, c: string)
    requires !TextLess(b, a) && !TextLess(c, b)
    ensures !TextLess(c, a)
  {
    LexTransitive(Utf8.CodePoints(a), Utf8.CodePoints(b), Utf8.CodePoints(c));
  }

  lemma KeyTransitive(a: Key, b: Key, c: Key)
    requires !KeyLess(b, a) && !KeyLess(c, b)
    ensures !KeyLess(c, a)
  {
    hide TextLess;
    TextTrichotomy(a.tenant, b.tenant);
    TextTrichotomy(b.tenant, c.tenant);
    TextTrichotomy(a.tenant, c.tenant);
    TextTrichotomy(a.namespace, b.namespace);
    TextTrichotomy(b.namespace, c.namespace);
    TextTrichotomy(a.namespace, c.namespace);
    TextTrichotomy(a.org, b.org);
    TextTrichotomy(b.org, c.org);
    TextTrichotomy(a.org, c.org);
    if !TextLess(b.tenant, a.tenant) && !TextLess(c.tenant, b.tenant) {
      TextTransitive(a.tenant, b.tenant, c.tenant);
    }
    if !TextLess(b.namespace, a.namespace) && !TextLess(c.namespace, b.namespace) {
      TextTransitive(a.namespace, b.namespace, c.namespace);
    }
    if !TextLess(b.org, a.org) && !TextLess(c.org, b.org) {
      TextTransitive(a.org, b.org, c.org);
    }
    if !TextLess(b.recordId, a.recordId) && !TextLess(c.recordId, b.recordId) {
      TextTransitive(a.recordId, b.recordId, c.recordId);
    }
  }

  lemma TerminalOrder()
    ensures StrictWeakOrder(TerminalLess)
  {
    hide KeyLess;
    forall x: TerminalMutation, y: TerminalMutation ensures TerminalLess(x, y) ==> !TerminalLess(y, x) {
      KeyTrichotomy(TerminalKey(x), TerminalKey(y));
    }
    forall x: TerminalMutation, y: TerminalMutation, z: TerminalMutation
      | !TerminalLess(x, y) && !TerminalLess(y, z)
      ensures !TerminalLess(x, z)
    {
      KeyTransitive(TerminalKey(z), TerminalKey(y), TerminalKey(x));
    }
  }

  // ---------- the result depends on the set of rows alone ----------

  ghost predicate SameRows(a: seq<MutationInput>, b: seq<MutationInput>)
  {
    Included(a, b) && Included(b, a)
  }

  /** SHA-256 tells apart the events of this snapshot. */
  predicate NoCollision(rows: seq<MutationInput>, sha: Hash)
    requires AllAcceptable(rows)
  {
    forall i, j :: 0 <= i < |rows| && 0 <= j < |rows| && sha(Preimage(rows[i])) == sha(Preimage(rows[j])) ==>
      Preimage(rows[i]) == Preimage(rows[j])
  }

  /** Terminal mutations equal up to the key order of their payload mappings. */
  ghost predicate SameTerminal(x: TerminalMutation, y: TerminalMutation)
  {
    x.(payload := []) == y.(payload := []) && Same(Mapping(x.payload), Mapping(y.payload))
  }

  lemma ConflictIgnoresOrder(a: seq<MutationInput>, b: seq<MutationInput>, sha: Hash)
    requires AllAcceptable(a) && AllAcceptable(b) && Included(a, b)
    ensures Conflicting(a, sha) ==> Conflicting(b, sha)
  {
    hide Acceptable, Preimage;
    if Conflicting(a, sha) {
      var i, j :| 0 <= i < j < |a| && RowKey(a[i]) == RowKey(a[j]) && sha(Preimage(a[i])) != sha(Preimage(a[j]));
      var p :| 0 <= p < |b| && b[p] == a[i];
      var q :| 0 <= q < |b| && b[q] == a[j];
      assert p < q || q < p;
    }
  }

  function Keys(out: seq<TerminalMutation>): (r: seq<Key>)
    ensures |r| == |out| && forall i :: 0 <= i < |out| ==> r[i] == TerminalKey(out[i])
  {
    if out == [] then [] else [TerminalKey(out[0])] + Keys(out[1..])
  }

  lemma KeyOrder()
    ensures StrictWeakOrder(KeyLess)
  {
    hide KeyLess;
    forall x: Key, y: Key ensures KeyLess(x, y) ==> !KeyLess(y, x) {
      KeyTrichotomy(x, y);
    }
    forall x: Key, y: Key, z: Key | !KeyLess(x, y) && !KeyLess(y, z) ensures !KeyLess(x, z) {
      KeyTransitive(z, y, x);
    }
  }

  /** The keys of a collapse are the keys of its rows. */
  ghost predicate HasRow(rows: seq<MutationInput>, k: Key)
  {
    exists i :: 0 <= i < |rows| && RowKey(rows[i]) == k
  }

  lemma CollapseKeyHasRow(rows: seq<MutationInput>, w: int, s: int, sha: Hash, out: seq<TerminalMutation>, j: nat)
    requires AllAcceptable(rows) && IsCollapse(rows, w, s, sha, out) && j < |out|
    ensures HasRow(rows, TerminalKey(out[j]))
  {
    hide Acceptable, Preimage, NormalizeOperation, Represented;
    assert IsTerminalOf(out[j], rows, w, s, sha);
    var i :| 0 <= i < |rows| && out[j] == Terminal(rows[i], w, s, sha);
    assert RowKey(rows[i]) == TerminalKey(out[j]);
  }

  lemma CollapseKeys(rows: seq<MutationInput>, w: int, s: int, sha: Hash, out: seq<TerminalMutation>, k: Key)
    requires AllAcceptable(rows) && IsCollapse(rows, w, s, sha, out)
    ensures k in Keys(out) <==> HasRow(rows, k)
  {
    hide Acceptable, Preimage, IsTerminalOf, TerminalLess;
    if k in Keys(out) {
      var j :| 0 <= j < |out| && Keys(out)[j] == k;
      CollapseKeyHasRow(rows, w, s, sha, out, j);
    }
    if i :| 0 <= i < |rows| && RowKey(rows[i]) == k {
      assert Represented(rows[i], out, sha);
      var j :| 0 <= j < |out| && TerminalKey(out[j]) == RowKey(rows[i]);
      assert Keys(out)[j] == k;
    }
  }

  lemma SameKeys(
    a: seq<MutationInput>, b: seq<MutationInput>, w: int, s: int, sha: Hash,
    x: seq<TerminalMutation>, y: seq<TerminalMutation>)
    requires AllAcceptable(a) && AllAcceptable(b) && SameRows(a, b)
    requires IsCollapse(a, w, s, sha, x) && IsCollapse(b, w, s, sha, y)
    ensures Keys(x) == Keys(y)
  {
    forall k: Key ensures k in Keys(x) <==> k in Keys(y) {
      CollapseKeys(a, w, s, sha, x, k);
      CollapseKeys(b, w, s, sha, y, k);
      hide IsCollapse, Acceptable;
      if i :| 0 <= i < |a| && RowKey(a[i]) == k {
        assert a[i] in b;
      }
      if j :| 0 <= j < |b| && RowKey(b[j]) == k {
        assert b[j] in a;
      }
    }
    hide KeyLess, Acceptable;
    KeyOrder();
    forall i, j | 0 <= i < j < |x| ensures KeyLess(Keys(x)[i], Keys(x)[j]) {
      assert TerminalLess(x[i], x[j]);
    }
    forall i, j | 0 <= i < j < |y| ensures KeyLess(Keys(y)[i], Keys(y)[j]) {
      assert TerminalLess(y[i], y[j]);
    }
    StrictlySortedUnique(Keys(x), Keys(y), KeyLess);
  }

  /** A row's digest is the digest of the terminal mutation holding its key. */
  lemma DigestAt(
    rows: seq<MutationInput>, w: int, s: int, sha: Hash, out: seq<TerminalMutation>, p: nat, j: nat)
    requires AllAcceptable(rows) && IsCollapse(rows, w, s, sha, out)
    requires p < |rows| && j < |out| && RowKey(rows[p]) == TerminalKey(out[j])
    ensures out[j].digest == sha(Preimage(rows[p]))
  {
    hide Acceptable, Preimage, KeyLess;
    assert Represented(rows[p], out, sha);
    var k :| 0 <= k < |out| && TerminalKey(out[k]) == RowKey(rows[p]) && out[k].digest == sha(Preimage(rows[p]));
    KeyTrichotomy(TerminalKey(out[k]), TerminalKey(out[j]));
    assert k == j;
  }

  /** Collapse of a snapshot is a function of the set of its rows: reordering and repeating rows
      changes nothing but the key order inside payload mappings. */
  lemma CollapseDeterministic(
    a: seq<MutationInput>, b: seq<MutationInput>, w: int, s: int, sha: Hash,
    x: seq<TerminalMutation>, y: seq<TerminalMutation>)
    requires AllAcceptable(a) && AllAcceptable(b) && SameRows(a, b)
    requires forall i :: 0 <= i < |a| ==> WellFormed(Mapping(a[i].payload))
    requires NoCollision(a, sha)
    requires IsCollapse(a, w, s, sha, x) && IsCollapse(b, w, s, sha, y)
    ensures |x| == |y| && forall j :: 0 <= j < |x| ==> SameTerminal(x[j], y[j])
  {
    hide Acceptable, NormalizeOperation, EventPreimage, KeyLess, Same, WellFormed;
    SameKeys(a, b, w, s, sha, x, y);
    assert |Keys(x)| == |x| && |Keys(y)| == |y|;
    forall j | 0 <= j < |x| ensures SameTerminal(x[j], y[j]) {
      assert Keys(x)[j] == Keys(y)[j];
      assert IsTerminalOf(x[j], a, w, s, sha) && IsTerminalOf(y[j], b, w, s, sha);
      var p :| 0 <= p < |a| && x[j] == Terminal(a[p], w, s, sha);
      var q :| 0 <= q < |b| && y[j] == Terminal(b[q], w, s, sha);
      assert b[q] in a;
      var r :| 0 <= r < |a| && a[r] == b[q];
      DigestAt(a, w, s, sha, x, r, j);
      SamePreimageSameTerminal(a[p], a[r], w, s, sha);
    }
  }

  lemma SamePreimageSameTerminal(p: MutationInput, q: MutationInput, w: int, s: int, sha: Hash)
    requires Acceptable(p) && Acceptable(q) && Preimage(p) == Preimage(q)
    requires WellFormed(Mapping(p.payload)) && WellFormed(Mapping(q.payload))
    ensures SameTerminal(Terminal(p, w, s, sha), Terminal(q, w, s, sha))
  {
    hide NormalizeOperation, EventPreimage, WellFormed, Same;
    var e, f := RowEvent(p), RowEvent(q);
    EventPreimageInjective(e, f);
    var e0, f0 := e.(payload := []), f.(payload := []);
    assert e.tenant == e0.tenant && e.namespace == e0.namespace && e.org == e0.org && e.recordId == e0.recordId;
    assert f.tenant == f0.tenant && f.namespace == f0.namespace && f.org == f0.org && f.recordId == f0.recordId;
    assert e.operation == e0.operation && e.ts == e0.ts && f.operation == f0.operation && f.ts == f0.ts;
  }

  // ---------- terminal_source_digest ----------

  predicate OneTarget(out: seq<TerminalMutation>)
  {
    forall i :: 0 <= i < |out| ==>
      out[i].tenant == out[0].tenant && out[i].namespace == out[0].namespace && out[i].org == out[0].org
  }

  function SourceRows(out: seq<TerminalMutation>): (r: seq<SourceRow>)
    ensures |r| == |out|
    ensures forall i :: 0 <= i < |out| ==> r[i] == SourceRow(out[i].recordId, out[i].sourceSequence, out[i].digest)
  {
    if out == [] then []
    else [SourceRow(out[0].recordId, out[0].sourceSequence, out[0].digest)] + SourceRows(out[1..])
  }

  /** The bytes `terminal_source_digest` hashes; mixed targets are rejected first. */
  method TerminalSource(rows: seq<TerminalMutation>) returns (r: Result<seq<byte>>)
    ensures r.Ok? <==> OneTarget(rows) && ValidRows(SourceRows(rows))
    ensures r.Ok? ==> r.value == SourcePreimage(SourceRows(rows))
  {
    if !OneTarget(rows) {
      return Err(ValueError);
    }
    r := CanonicalSource(SourceRows(rows));
  }

  /** For one target, collapse already lists rows in digest order: the byte sort moves nothing. */
  lemma CollapseFeedsDigestInPlace(out: seq<TerminalMutation>)
    requires StrictlySorted(out, TerminalLess) && OneTarget(out) && ValidRows(SourceRows(out))
    ensures SourcePreimage(SourceRows(out)) == SOURCE_HEADER + RowsBytes(SourceRows(out))
  {
    var rows := SourceRows(out);
    forall i, j | 0 <= i < j < |rows| ensures RecordLess(rows[i], rows[j]) {
      assert TerminalLess(out[i], out[j]);
    }
    CollapseOrderIsByteOrder(rows);
  }
}
