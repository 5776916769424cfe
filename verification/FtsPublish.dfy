/** The atomic swap of a rebuilt inverted index: `publish_fts_index` in
    `src/lance_etl/indexing/handlers.py`, among concurrent appends, compactions and publishers.

    Lance's contract: a `CreateIndex` commit acts atomically on the latest version, and is refused
    when, since the version it was prepared on, the segments it removes have changed or a fragment it
    covers was rewritten. A refused commit changes nothing; a commit that reports an error may have
    landed. */
module FtsPublish {

  type Uuid = string

  datatype Segment = Segment(name: string, fragments: set<int>)

  datatype Publisher = Publisher(uuid: Uuid, segment: Segment, attempts: nat, phase: Phase)

  /** `Committing` carries the segments the attempt listed for removal. */
  datatype Phase = Opening | Committing(removed: set<Uuid>) | Published | Stale | Failed | Crashed

  datatype Store = Store(live: set<int>, segments: map<Uuid, Segment>, publishers: seq<Publisher>)

  datatype Step =
    | Spawn(uuid: Uuid, segment: Segment)
    | Open(i: nat)
    | Commit(i: nat)
    | CommitError(i: nat, landed: bool, retryable: bool)
    | Crash(i: nat)
    | Append(fragment: int)
    | Compact(rewritten: set<int>, fragment: int)
    | AddDelta(uuid: Uuid, segment: Segment)
    | Remap(from: Uuid, to: Uuid, fragments: set<int>)

  /** `same_name_index_segments`. */
  function SameName(segments: map<Uuid, Segment>, name: string): set<Uuid>
  {
    set u | u in segments && segments[u].name == name
  }

  predicate Unused(s: Store, uuid: Uuid)
  {
    uuid !in s.segments && forall i :: 0 <= i < |s.publishers| ==> s.publishers[i].uuid != uuid
  }

  predicate InPhase(s: Store, i: nat)
  {
    i < |s.publishers| && s.publishers[i].phase.Committing?
  }

  /** The commit is not refused. */
  predicate MayLand(s: Store, i: nat)
    requires InPhase(s, i)
  {
    var p := s.publishers[i];
    SameName(s.segments, p.segment.name) == p.phase.removed && p.segment.fragments <= s.live
  }

  predicate Enabled(s: Store, step: Step)
  {
    match step
    case Spawn(uuid, _) => Unused(s, uuid)
    case Open(i) => i < |s.publishers| && s.publishers[i].phase == Opening
    case Commit(i) => InPhase(s, i) && MayLand(s, i)
    case CommitError(i, landed, _) => InPhase(s, i) && (landed ==> MayLand(s, i))
    case Crash(i) => i < |s.publishers|
    case Append(f) => f !in s.live
    case Compact(_, f) => f !in s.live
    case AddDelta(uuid, _) => Unused(s, uuid)
    case Remap(from, to, _) => from in s.segments && Unused(s, to)
  }

  function Goto(s: Store, i: nat, phase: Phase): Store
    requires i < |s.publishers|
  {
    s.(publishers := s.publishers[i := s.publishers[i].(phase := phase)])
  }

  /** One `CreateIndex`: the old segments out and the new one in, in the same version. */
  function Land(s: Store, i: nat): Store
    requires InPhase(s, i)
  {
    var p := s.publishers[i];
    s.(segments := (s.segments - p.phase.removed)[p.uuid := p.segment])
  }

  function Next(s: Store, step: Step, retries: nat): Store
    requires Enabled(s, step)
  {
    match step
    case Spawn(uuid, segment) => s.(publishers := s.publishers + [Publisher(uuid, segment, 0, Opening)])
    case Open(i) =>
      var p := s.publishers[i];
      if p.segment.fragments <= s.live then Goto(s, i, Committing(SameName(s.segments, p.segment.name)))
      else Goto(s, i, Stale)
    case Commit(i) => Goto(Land(s, i), i, Published)
    case CommitError(i, landed, retryable) =>
      var p := s.publishers[i];
      var t := if landed then Land(s, i) else s;
      if retryable && p.attempts < retries
      then t.(publishers := t.publishers[i := Publisher(p.uuid, p.segment, p.attempts + 1, Opening)])
      else Goto(t, i, Failed)
    case Crash(i) => Goto(s, i, Crashed)
    case Append(f) => s.(live := s.live + {f})
    case Compact(rewritten, f) => s.(live := s.live - rewritten + {f})
    case AddDelta(uuid, segment) => s.(segments := s.segments[uuid := segment])
    case Remap(from, to, fragments) =>
      s.(segments := (s.segments - {from})[to := Segment(s.segments[from].name, fragments)])
  }

  ghost predicate ValidRun(s: Store, run: seq<Step>, retries: nat)
    decreases |run|
  {
    run == [] || (Enabled(s, run[0]) && ValidRun(Next(s, run[0], retries), run[1..], retries))
  }

  ghost function After(s: Store, run: seq<Step>, retries: nat): Store
    requires ValidRun(s, run, retries)
    decreases |run|
  {
    if run == [] then s else After(Next(s, run[0], retries), run[1..], retries)
  }

  // ---------- what every run keeps ----------

  /** A publisher's identifier names only its own segments, and publishers have their own. */
  ghost predicate Inv(s: Store)
  {
    && (forall i :: 0 <= i < |s.publishers| ==>
          var p := s.publishers[i]; p.uuid in s.segments ==> s.segments[p.uuid].name == p.segment.name)
    && forall i, j :: 0 <= i < j < |s.publishers| ==> s.publishers[i].uuid != s.publishers[j].uuid
  }

  predicate Indexed(s: Store, name: string)
  {
    exists u :: u in s.segments && s.segments[u].name == name
  }

  lemma StepKeepsInv(s: Store, step: Step, retries: nat)
    requires Inv(s) && Enabled(s, step)
    ensures Inv(Next(s, step, retries))
  {
    match step
    case Commit(i) =>
      LandKeepsInv(s, i);
    case CommitError(i, landed, _) =>
      if landed {
        LandKeepsInv(s, i);
      }
    case _ =>
  }

  lemma LandKeepsInv(s: Store, i: nat)
    requires Inv(s) && InPhase(s, i)
    ensures Inv(Land(s, i))
  {
  }

  /** What a landing commit does: the name's segments become exactly the new one, which covers live
      fragments only, and other names are not touched. */
  lemma LandingSwaps(s: Store, i: nat, name: string)
    requires Inv(s) && InPhase(s, i) && MayLand(s, i)
    ensures var p := s.publishers[i];
            var t := Land(s, i);
            && SameName(t.segments, p.segment.name) == {p.uuid} && t.segments[p.uuid] == p.segment
            && p.segment.fragments <= t.live
            && (name != p.segment.name ==>
                  && SameName(t.segments, name) == SameName(s.segments, name)
                  && forall u :: u in SameName(s.segments, name) ==> t.segments[u] == s.segments[u])
  {
  }

  lemma StepKeepsIndexed(s: Store, step: Step, retries: nat, name: string)
    requires Inv(s) && Enabled(s, step) && Indexed(s, name)
    ensures Indexed(Next(s, step, retries), name)
  {
    var u :| u in s.segments && s.segments[u].name == name;
    match step
    case Commit(i) =>
      LandKeepsIndexed(s, i, name);
    case CommitError(i, landed, _) =>
      if landed {
        LandKeepsIndexed(s, i, name);
      }
    case AddDelta(uuid, _) =>
      assert Next(s, step, retries).segments[u] == s.segments[u];
    case Remap(from, to, _) =>
      var t := Next(s, step, retries);
      assert if u == from then t.segments[to].name == name else t.segments[u] == s.segments[u];
    case _ =>
  }

  lemma LandKeepsIndexed(s: Store, i: nat, name: string)
    requires Inv(s) && InPhase(s, i) && MayLand(s, i) && Indexed(s, name)
    ensures Indexed(Land(s, i), name)
  {
    var u :| u in s.segments && s.segments[u].name == name;
    var p, t := s.publishers[i], Land(s, i);
    LandingSwaps(s, i, name);
    assert name != p.segment.name ==> u in SameName(s.segments, name);
    assert p.uuid in t.segments;
  }

  /** No window without an index: once a name is indexed it is indexed after every step of every run. */
  lemma {:induction false} NeverUnindexed(s: Store, run: seq<Step>, retries: nat, name: string)
    requires Inv(s) && ValidRun(s, run, retries) && Indexed(s, name)
    ensures Indexed(After(s, run, retries), name)
    decreases |run|
  {
    hide Inv, Indexed, Next, Enabled;
    if run != [] {
      StepKeepsInv(s, run[0], retries);
      StepKeepsIndexed(s, run[0], retries, name);
      NeverUnindexed(Next(s, run[0], retries), run[1..], retries, name);
    }
  }

  /** Publishing again after an ambiguous commit that landed is harmless: the retry lists its own
      segment for removal and puts it back. */
  lemma RepublishIsIdempotent(s: Store, i: nat)
    requires Inv(s) && InPhase(s, i) && MayLand(s, i)
    requires s.publishers[i].phase.removed == {s.publishers[i].uuid}
    requires s.publishers[i].uuid in s.segments && s.segments[s.publishers[i].uuid] == s.publishers[i].segment
    ensures Land(s, i) == s
  {
    var u := s.publishers[i].uuid;
    assert (s.segments - {u})[u := s.segments[u]] == s.segments;
  }

  // ---------- progress ----------

  /** A publisher left alone publishes: its segment becomes the only one of its name, in exactly the case
      that every fragment it covers is still there; otherwise it is stale and nothing changes. */
  lemma UndisturbedPublishes(s: Store, uuid: Uuid, segment: Segment, retries: nat)
    requires Inv(s) && Unused(s, uuid)
    ensures var n := |s.publishers|;
            var start := [Spawn(uuid, segment), Open(n)];
            && ValidRun(s, start, retries)
            && (!(segment.fragments <= s.live) ==>
                  var t := After(s, start, retries);
                  && |t.publishers| == n + 1 && t.publishers[n].phase == Stale
                  && t.segments == s.segments && t.live == s.live)
            && (segment.fragments <= s.live ==>
                  && ValidRun(s, start + [Commit(n)], retries)
                  && var t := After(s, start + [Commit(n)], retries);
                     && |t.publishers| == n + 1 && t.publishers[n].phase == Published && t.live == s.live
                     && uuid in t.segments && t.segments[uuid] == segment
                     && forall u :: u in t.segments && u != uuid <==>
                                    u in s.segments && s.segments[u].name != segment.name)
  {
    var n := |s.publishers|;
    var start := [Spawn(uuid, segment), Open(n)];
    var a := Next(s, start[0], retries);
    var b := Next(a, start[1], retries);
    TwoSteps(s, start, a, b, retries);
    if segment.fragments <= s.live {
      var run := start + [Commit(n)];
      assert MayLand(b, n);
      assert run[0] == start[0] && run[1..] == [Open(n), Commit(n)];
      TwoSteps(a, run[1..], b, Next(b, Commit(n), retries), retries);
    }
  }

  lemma TwoSteps(s: Store, run: seq<Step>, a: Store, b: Store, retries: nat)
    requires |run| == 2 && Enabled(s, run[0]) && a == Next(s, run[0], retries)
    requires Enabled(a, run[1]) && b == Next(a, run[1], retries)
    ensures ValidRun(s, run, retries) && After(s, run, retries) == b
  {
    hide Next, Enabled;
    assert run[1..] == [run[1]] && run[1..][1..] == [];
    assert ValidRun(b, [], retries) && After(b, [], retries) == b;
    assert ValidRun(a, run[1..], retries) && After(a, run[1..], retries) == b;
  }
}
