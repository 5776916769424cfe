/** The plan-build-commit rounds of `LanceIndexer.run`. Spark's fan-outs answer each round; what
    they answer is arbitrary, within the contract that every answer is about a pending dataset. */
module IndexRun {
  import opened Wrappers
  import opened Orders
  import Mutation
  import Texts

  type Uri = string

  datatype Entry = Entry(index: string, error: Option<string>)

  datatype Record = Record(indexes: seq<Entry>, error: Option<string>, skipped: bool, version: Option<int>)

  type Board = map<Uri, Record>

  datatype Plan =
    | PlanFailed(uri: Uri, message: string)
    | PlanSkipped(uri: Uri)
    | Planned(uri: Uri, version: int, specs: seq<string>, done: seq<Entry>)

  datatype Outcome = Outcome(uri: Uri, stale: bool, entry: Entry)

  /** What the fan-outs of one round answered. */
  datatype Round = Round(plans: seq<Plan>, outcomes: seq<Outcome>)

  // ---------- one round on values ----------

  function Recorded(r: Record): set<string>
  {
    set e | e in r.indexes :: e.index
  }

  /** Finished entries whose index is not recorded yet. */
  function NewlyDone(done: seq<Entry>, recorded: set<string>): (r: seq<Entry>)
    ensures forall e :: e in r <==> e in done && e.index !in recorded
  {
    if done == [] then []
    else
      var rest := NewlyDone(done[..|done| - 1], recorded);
      var e := done[|done| - 1];
      assert done == done[..|done| - 1] + [e];
      if e.index in recorded then rest else rest + [e]
  }

  function NotePlan(board: Board, plan: Plan): (r: Board)
    requires plan.uri in board
    ensures r.Keys == board.Keys
  {
    var rec := board[plan.uri];
    match plan
    case PlanFailed(uri, message) => board[uri := rec.(error := Some(message))]
    case PlanSkipped(uri) => board[uri := rec.(skipped := true)]
    case Planned(uri, version, specs, done) =>
      var noted := rec.(indexes := rec.indexes + NewlyDone(done, Recorded(rec)));
      board[uri := if specs == [] then noted else noted.(version := Some(version))]
  }

  function NoteOutcome(board: Board, o: Outcome): (r: Board)
    requires o.uri in board
    ensures r.Keys == board.Keys
  {
    if o.stale then board else board[o.uri := board[o.uri].(indexes := board[o.uri].indexes + [o.entry])]
  }

  function NotePlans(board: Board, plans: seq<Plan>): (r: Board)
    requires forall i :: 0 <= i < |plans| ==> plans[i].uri in board
    ensures r.Keys == board.Keys
  {
    if plans == [] then board else NotePlan(NotePlans(board, plans[..|plans| - 1]), plans[|plans| - 1])
  }

  function NoteOutcomes(board: Board, os: seq<Outcome>): (r: Board)
    requires forall i :: 0 <= i < |os| ==> os[i].uri in board
    ensures r.Keys == board.Keys
  {
    if os == [] then board else NoteOutcome(NoteOutcomes(board, os[..|os| - 1]), os[|os| - 1])
  }

  function StaleUris(os: seq<Outcome>): set<Uri>
  {
    set i | 0 <= i < |os| && os[i].stale :: os[i].uri
  }

  /** One answer per dataset at most, about pending datasets, outcomes only for what was planned. */
  ghost predicate Answers(pending: seq<Uri>, r: Round)
  {
    && (forall i :: 0 <= i < |r.plans| ==> r.plans[i].uri in pending)
    && (forall i, j :: 0 <= i < j < |r.plans| ==> r.plans[i].uri != r.plans[j].uri)
    && forall i :: 0 <= i < |r.outcomes| ==> HasSpecs(r.plans, r.outcomes[i].uri)
  }

  ghost predicate HasSpecs(plans: seq<Plan>, uri: Uri)
  {
    exists j :: 0 <= j < |plans| && Buildable(plans[j], uri)
  }

  predicate Buildable(p: Plan, uri: Uri)
  {
    p.Planned? && p.specs != [] && p.uri == uri
  }

  ghost predicate InBoard(board: Board, r: Round)
  {
    && (forall i :: 0 <= i < |r.plans| ==> r.plans[i].uri in board)
    && forall i :: 0 <= i < |r.outcomes| ==> r.outcomes[i].uri in board
  }

  ghost function AfterRound(board: Board, r: Round): (b: Board)
    requires InBoard(board, r)
    ensures b.Keys == board.Keys
  {
    NoteOutcomes(NotePlans(board, r.plans), r.outcomes)
  }

  // ---------- failures ----------

  /** `dataset_result_failed`. */
  predicate Failed(r: Record)
  {
    r.error.Some? || exists i :: 0 <= i < |r.indexes| && r.indexes[i].error.Some?
  }

  /** A plan that records an error: the plan itself failed, or an index that is not recorded yet
      failed validation. */
  ghost predicate PlanBlames(rec: Record, p: Plan)
  {
    || p.PlanFailed?
    || (p.Planned? && exists i :: 0 <= i < |p.done| && p.done[i].error.Some? && p.done[i].index !in Recorded(rec))
  }

  predicate OutcomeBlames(o: Outcome, uri: Uri)
  {
    o.uri == uri && !o.stale && o.entry.error.Some?
  }

  ghost predicate RoundBlames(board: Board, r: Round, uri: Uri)
    requires uri in board
  {
    || (exists i :: 0 <= i < |r.plans| && r.plans[i].uri == uri && PlanBlames(board[uri], r.plans[i]))
    || (exists i :: 0 <= i < |r.outcomes| && OutcomeBlames(r.outcomes[i], uri))
  }

  lemma FailedAppend(rec: Record, more: seq<Entry>)
    ensures Failed(rec.(indexes := rec.indexes + more)) <==>
              Failed(rec) || exists i :: 0 <= i < |more| && more[i].error.Some?
  {
    var all := rec.indexes + more;
    forall i | 0 <= i < |rec.indexes| ensures all[i] == rec.indexes[i] {
    }
    forall i | 0 <= i < |more| ensures all[|rec.indexes| + i] == more[i] {
    }
  }

  lemma NotePlanFails(board: Board, p: Plan, uri: Uri)
    requires p.uri in board && uri in board
    ensures Failed(NotePlan(board, p)[uri]) <==> Failed(board[uri]) || (p.uri == uri && PlanBlames(board[uri], p))
  {
    if p.uri == uri && p.Planned? {
      var rec := board[uri];
      var more := NewlyDone(p.done, Recorded(rec));
      FailedAppend(rec, more);
      if i :| 0 <= i < |more| && more[i].error.Some? {
        assert more[i] in more;
      }
      if i :| 0 <= i < |p.done| && p.done[i].error.Some? && p.done[i].index !in Recorded(rec) {
        assert p.done[i] in more;
      }
    }
  }

  lemma NoteOutcomeFails(board: Board, o: Outcome, uri: Uri)
    requires o.uri in board && uri in board
    ensures Failed(NoteOutcome(board, o)[uri]) <==> Failed(board[uri]) || OutcomeBlames(o, uri)
  {
    FailedAppend(board[o.uri], [o.entry]);
    assert [o.entry][0] == o.entry;
  }

  lemma {:induction false} NoteOutcomesFail(board: Board, os: seq<Outcome>, uri: Uri)
    requires (forall i :: 0 <= i < |os| ==> os[i].uri in board) && uri in board
    ensures Failed(NoteOutcomes(board, os)[uri]) <==>
              Failed(board[uri]) || exists i :: 0 <= i < |os| && OutcomeBlames(os[i], uri)
    decreases |os|
  {
    hide Failed, OutcomeBlames, NoteOutcome;
    if os != [] {
      var front, last := os[..|os| - 1], os[|os| - 1];
      NoteOutcomesFail(board, front, uri);
      NoteOutcomeFails(NoteOutcomes(board, front), last, uri);
      assert forall i :: 0 <= i < |front| ==> front[i] == os[i];
      if i :| 0 <= i < |os| && OutcomeBlames(os[i], uri) {
        assert i < |front| ==> OutcomeBlames(front[i], uri);
      }
    }
  }

  /** With one plan per dataset, the entry a plan is checked against is the one the round began with. */
  lemma {:induction false} NotePlansFail(board: Board, plans: seq<Plan>, uri: Uri)
    requires (forall i :: 0 <= i < |plans| ==> plans[i].uri in board) && uri in board
    requires forall i, j :: 0 <= i < j < |plans| ==> plans[i].uri != plans[j].uri
    ensures Failed(NotePlans(board, plans)[uri]) <==>
              || Failed(board[uri])
              || exists i :: 0 <= i < |plans| && plans[i].uri == uri && PlanBlames(board[uri], plans[i])
    ensures (forall i :: 0 <= i < |plans| ==> plans[i].uri != uri) ==> NotePlans(board, plans)[uri] == board[uri]
    decreases |plans|
  {
    hide Failed, PlanBlames;
    if plans != [] {
      var front, last := plans[..|plans| - 1], plans[|plans| - 1];
      assert forall i :: 0 <= i < |front| ==> front[i] == plans[i];
      NotePlansFail(board, front, uri);
      NotePlanFails(NotePlans(board, front), last, uri);
      if i :| 0 <= i < |plans| && plans[i].uri == uri && PlanBlames(board[uri], plans[i]) {
        assert i < |front| ==> front[i].uri == uri && PlanBlames(board[uri], front[i]);
      }
      if last.uri == uri {
        assert forall i :: 0 <= i < |front| ==> front[i].uri != uri;
      }
    }
  }

  lemma RoundFails(pending: seq<Uri>, board: Board, r: Round, uri: Uri)
    requires InBoard(board, r) && Answers(pending, r) && uri in board
    ensures Failed(AfterRound(board, r)[uri]) <==> Failed(board[uri]) || RoundBlames(board, r, uri)
  {
    NotePlansFail(board, r.plans, uri);
    NoteOutcomesFail(NotePlans(board, r.plans), r.outcomes, uri);
  }

  // ---------- whole runs ----------

  /** `dict.fromkeys`: first occurrences, in order. */
  function Unique(uris: seq<Uri>): (r: seq<Uri>)
    ensures forall u :: u in r <==> u in uris
    ensures forall i, j :: 0 <= i < j < |r| ==> r[i] != r[j]
  {
    if uris == [] then []
    else
      var r, last := Unique(uris[..|uris| - 1]), uris[|uris| - 1];
      assert uris == uris[..|uris| - 1] + [last];
      if last in uris[..|uris| - 1] then r else r + [last]
  }

  /** The order of `Unique` is the order of first occurrences. */
  predicate FirstAt(uris: seq<Uri>, p: nat)
    requires p < |uris|
  {
    uris[p] !in uris[..p]
  }

  lemma {:induction false} UniqueInOrder(uris: seq<Uri>, p: nat, q: nat) returns (i: nat, j: nat)
    requires p < q < |uris| && FirstAt(uris, p) && FirstAt(uris, q)
    ensures i < j < |Unique(uris)| && Unique(uris)[i] == uris[p] && Unique(uris)[j] == uris[q]
    decreases |uris|
  {
    var front := uris[..|uris| - 1];
    if q < |front| {
      assert front[..p] == uris[..p] && front[..q] == uris[..q];
      i, j := UniqueInOrder(front, p, q);
    } else {
      assert uris[..q] == front;
      assert uris[p] in front by { assert front[p] == uris[p]; }
      i :| 0 <= i < |Unique(front)| && Unique(front)[i] == uris[p];
      j := |Unique(front)|;
    }
  }

  ghost function AfterRounds(board: Board, h: seq<Round>): (b: Board)
    requires forall k :: 0 <= k < |h| ==> InBoard(board, h[k])
    ensures b.Keys == board.Keys
    decreases |h|
  {
    if h == [] then board
    else
      var before := AfterRounds(board, h[..|h| - 1]);
      assert InBoard(board, h[|h| - 1]);
      AfterRound(before, h[|h| - 1])
  }

  /** Some round of the run recorded an error for the dataset. */
  ghost predicate Blamed(board: Board, h: seq<Round>, uri: Uri)
    requires uri in board && forall k :: 0 <= k < |h| ==> InBoard(board, h[k])
    decreases |h|
  {
    h != [] &&
    var front := h[..|h| - 1];
    Blamed(board, front, uri) || RoundBlames(AfterRounds(board, front), h[|h| - 1], uri)
  }

  /** The run so far: `pendings[k]` was pending before round `k`, and the next pending datasets are
      the stale ones. */
  ghost predicate History(board: Board, pendings: seq<seq<Uri>>, h: seq<Round>)
  {
    && |pendings| == |h| + 1
    && (forall k :: 0 <= k < |h| ==> InBoard(board, h[k]) && Answers(pendings[k], h[k]))
    && forall k :: 0 <= k < |h| ==> forall u :: u in pendings[k + 1] <==> u in StaleUris(h[k].outcomes)
  }

  lemma {:induction false} RunFails(board: Board, pendings: seq<seq<Uri>>, h: seq<Round>, uri: Uri)
    requires History(board, pendings, h) && uri in board
    ensures Failed(AfterRounds(board, h)[uri]) <==> Failed(board[uri]) || Blamed(board, h, uri)
    decreases |h|
  {
    hide Failed, RoundBlames, AfterRound, Answers;
    if h != [] {
      var n := |h| - 1;
      var front, last := h[..n], h[n];
      assert Answers(pendings[n], last);
      RunFails(board, pendings[..|h|], front, uri);
      RoundFails(pendings[n], AfterRounds(board, front), last, uri);
    }
  }

  /** Pending datasets only ever shrink. */
  lemma PendingShrinks(board: Board, pendings: seq<seq<Uri>>, h: seq<Round>, k: nat)
    requires History(board, pendings, h) && k < |h|
    ensures forall u :: u in pendings[k + 1] ==> u in pendings[k]
  {
    var os := h[k].outcomes;
    assert Answers(pendings[k], h[k]);
    forall u | u in pendings[k + 1] ensures u in pendings[k] {
      assert u in StaleUris(os);
      var i :| 0 <= i < |os| && os[i].stale && os[i].uri == u;
      assert HasSpecs(h[k].plans, os[i].uri);
      var j :| 0 <= j < |h[k].plans| && Buildable(h[k].plans[j], os[i].uri);
    }
  }

  /** A validation error reported in a later round is dropped when the index is already recorded, so
      the dataset is not counted as failed for it. */
  lemma LateValidationErrorIsDropped(uri: Uri, index: string, message: string)
    ensures var good := Record([Entry(index, None)], None, false, None);
            var plan := Planned(uri, 1, [], [Entry(index, Some(message))]);
            !Failed(NotePlan(map[uri := good], plan)[uri]) && !PlanBlames(good, plan)
  {
    var good := Record([Entry(index, None)], None, false, None);
    assert Recorded(good) == {index};
    assert [Entry(index, Some(message))][..0] == [];
  }

  // ---------- the driver ----------

  /** Whatever the cluster answers, given the round and the pending datasets. */
  type Cluster = (nat, seq<Uri>) -> Round

  ghost predicate Faithful(cluster: Cluster)
  {
    forall n, pending :: Answers(pending, cluster(n, pending))
  }

  class LanceIndexer {
    var stats: Board

    constructor (uris: seq<Uri>)
      ensures stats == Fresh(uris)
    {
      stats := Fresh(uris);
    }

    /** `collect_round_specs`: fold the plans in, and keep what can be built. */
    method CollectRoundSpecs(plans: seq<Plan>) returns (specs: map<Uri, seq<string>>)
      requires forall i :: 0 <= i < |plans| ==> plans[i].uri in stats
      modifies this
      ensures stats == NotePlans(old(stats), plans)
      ensures forall u :: u in specs <==> HasSpecs(plans, u)
    {
      hide NewlyDone, Recorded, HasSpecs;
      specs := map[];
      NothingPlanned(plans[..0]);
      for i := 0 to |plans|
        invariant stats.Keys == old(stats).Keys
        invariant stats == NotePlans(old(stats), plans[..i])
        invariant forall u :: u in specs <==> HasSpecs(plans[..i], u)
      {
        var plan := plans[i];
        assert plans[..i + 1][..i] == plans[..i] && plans[..i + 1] == plans[..i] + [plan];
        OneMorePlan(plans[..i], plan);
        var rec := stats[plan.uri];
        match plan
        case PlanFailed(uri, message) =>
          stats := stats[uri := rec.(error := Some(message))];
        case PlanSkipped(uri) =>
          stats := stats[uri := rec.(skipped := true)];
        case Planned(uri, version, newSpecs, done) =>
          rec := rec.(indexes := rec.indexes + NewlyDone(done, Recorded(rec)));
          if newSpecs != [] {
            specs := specs[uri := newSpecs];
            rec := rec.(version := Some(version));
          }
          stats := stats[uri := rec];
      }
      assert plans[..|plans|] == plans;
    }

    /** `record_commit_outcomes`: returns the datasets to plan again. */
    method RecordCommitOutcomes(os: seq<Outcome>) returns (stale: set<Uri>)
      requires forall i :: 0 <= i < |os| ==> os[i].uri in stats
      modifies this
      ensures stats == NoteOutcomes(old(stats), os) && stale == StaleUris(os)
    {
      stale := {};
      for i := 0 to |os|
        invariant stats.Keys == old(stats).Keys
        invariant stats == NoteOutcomes(old(stats), os[..i])
        invariant stale == set j | 0 <= j < i && os[j].stale :: os[j].uri
      {
        var o := os[i];
        assert os[..i + 1][..i] == os[..i];
        if o.stale {
          stale := stale + {o.uri};
        } else {
          stats := stats[o.uri := stats[o.uri].(indexes := stats[o.uri].indexes + [o.entry])];
        }
      }
      assert os[..|os|] == os;
    }

    /** `run_round`: nothing is built or committed when no plan is buildable. */
    method RunRound(n: nat, pending: seq<Uri>, cluster: Cluster) returns (next: seq<Uri>)
      requires Faithful(cluster) && forall u :: u in pending ==> u in stats
      modifies this
      ensures InBoard(old(stats), cluster(n, pending)) && stats == AfterRound(old(stats), cluster(n, pending))
      ensures forall u :: u in next <==> u in StaleUris(cluster(n, pending).outcomes)
      ensures StrictlySorted(next, Mutation.TextLess)
    {
      var r := cluster(n, pending);
      assert Answers(pending, r);
      forall i | 0 <= i < |r.outcomes| ensures r.outcomes[i].uri in stats {
        assert HasSpecs(r.plans, r.outcomes[i].uri);
        var j :| 0 <= j < |r.plans| && Buildable(r.plans[j], r.outcomes[i].uri);
      }
      var specs := CollectRoundSpecs(r.plans);
      assert r.outcomes != [] ==> HasSpecs(r.plans, r.outcomes[0].uri);
      if specs == map[] {
        assert r.outcomes == [];
        return [];
      }
      var stale := RecordCommitOutcomes(r.outcomes);
      next := Texts.SortTexts(stale);
    }

    /** The rounds, at most `replans` of them, stopping early when nothing is pending. */
    method RunRounds(uris: seq<Uri>, replans: nat, cluster: Cluster)
      returns (pending: seq<Uri>, ghost pendings: seq<seq<Uri>>, ghost h: seq<Round>)
      requires Faithful(cluster) && stats == Fresh(uris)
      modifies this
      ensures |h| <= replans && (pending == [] || |h| == replans)
      ensures History(Fresh(uris), pendings, h) && pendings[0] == Unique(uris) && pendings[|h|] == pending
      ensures stats == AfterRounds(Fresh(uris), h)
      ensures forall u :: u in pending ==> u in stats
    {
      hide InBoard, Answers, AfterRound, StaleUris, Faithful, AfterRounds;
      pending := Unique(uris);
      pendings, h := [pending], [];
      NoRounds(Fresh(uris), pending);
      var n := 0;
      while n < replans
        invariant n <= replans && |h| <= n && (pending == [] || |h| == n)
        invariant History(Fresh(uris), pendings, h) && pendings[0] == Unique(uris) && pendings[|h|] == pending
        invariant stats == AfterRounds(Fresh(uris), h)
        invariant forall u :: u in pending ==> u in stats
      {
        if pending == [] {
          break;
        }
        ghost var r := cluster(n, pending);
        ghost var before := stats;
        RoundContract(cluster, n, pending, stats, Fresh(uris));
        var next := RunRound(n, pending, cluster);
        NextStillKnown(before, r, next, pending);
        OneMoreRound(Fresh(uris), pendings, h, r, next);
        pendings, h, pending := pendings + [next], h + [r], next;
        n := n + 1;
      }
    }

    /** `run`: one record per unique dataset in first-occurrence order, together with the datasets
        that were still stale when the rounds ran out. */
    method Run(uris: seq<Uri>, replans: nat, cluster: Cluster)
      returns (results: seq<(Uri, Record)>, pending: seq<Uri>, ghost pendings: seq<seq<Uri>>, ghost h: seq<Round>)
      requires Faithful(cluster) && stats == Fresh(uris)
      modifies this
      ensures |h| <= replans && (pending == [] || |h| == replans)
      ensures History(Fresh(uris), pendings, h) && pendings[0] == Unique(uris) && pendings[|h|] == pending
      ensures |results| == |Unique(uris)| && forall i :: 0 <= i < |results| ==> results[i].0 == Unique(uris)[i]
      ensures forall i :: 0 <= i < |results| ==>
                (Failed(results[i].1) <==> Blamed(Fresh(uris), h, results[i].0) || results[i].0 in pending)
      ensures forall i :: 0 <= i < |results| ==>
                && results[i].0 in AfterRounds(Fresh(uris), h)
                && var noted := AfterRounds(Fresh(uris), h)[results[i].0];
                   if results[i].0 in pending then results[i].1 == noted.(error := Some("stale-replan exhausted"))
                   else results[i].1 == noted
    {
      hide Answers, InBoard, StaleUris, AfterRounds, Blamed, Failed;
      pending, pendings, h := RunRounds(uris, replans, cluster);
      ghost var board := stats;
      MarkExhausted(pending);
      results := Collect(Unique(uris));
      forall i | 0 <= i < |results|
        ensures Failed(results[i].1) <==> Blamed(Fresh(uris), h, results[i].0) || results[i].0 in pending
      {
        var u := Unique(uris)[i];
        assert u in Unique(uris);
        RunFails(Fresh(uris), pendings, h, u);
        FreshIsFine(uris, u);
        ErrorFails(stats[u]);
      }
    }

    /** A dataset still stale after the last round carries an error. */
    method MarkExhausted(pending: seq<Uri>)
      requires forall u :: u in pending ==> u in stats
      modifies this
      ensures stats.Keys == old(stats).Keys
      ensures forall u :: u in stats ==>
                if u in pending then stats[u] == old(stats)[u].(error := Some("stale-replan exhausted"))
                else stats[u] == old(stats)[u]
    {
      for i := 0 to |pending|
        invariant stats.Keys == old(stats).Keys
        invariant forall u :: u in stats ==>
                  if u in pending[..i] then stats[u] == old(stats)[u].(error := Some("stale-replan exhausted"))
                  else stats[u] == old(stats)[u]
      {
        assert pending[i] in pending;
        stats := stats[pending[i] := stats[pending[i]].(error := Some("stale-replan exhausted"))];
        assert pending[..i + 1] == pending[..i] + [pending[i]];
      }
      assert pending[..|pending|] == pending;
    }

    method Collect(unique: seq<Uri>) returns (results: seq<(Uri, Record)>)
      requires forall u :: u in unique ==> u in stats
      ensures |results| == |unique|
      ensures forall i :: 0 <= i < |results| ==> unique[i] in stats && results[i] == (unique[i], stats[unique[i]])
    {
      results := [];
      for i := 0 to |unique|
        invariant |results| == i
        invariant forall j :: 0 <= j < i ==> unique[j] in stats && results[j] == (unique[j], stats[unique[j]])
      {
        assert unique[i] in unique;
        results := results + [(unique[i], stats[unique[i]])];
      }
    }
  }

  lemma NothingPlanned(plans: seq<Plan>)
    requires plans == []
    ensures forall u :: !HasSpecs(plans, u)
  {
  }

  lemma OneMorePlan(plans: seq<Plan>, plan: Plan)
    ensures forall u :: HasSpecs(plans + [plan], u) <==> HasSpecs(plans, u) || Buildable(plan, u)
  {
    var all := plans + [plan];
    forall u ensures HasSpecs(all, u) <==> HasSpecs(plans, u) || Buildable(plan, u) {
      if j :| 0 <= j < |plans| && Buildable(plans[j], u) {
        assert all[j] == plans[j];
      }
      if Buildable(plan, u) {
        assert all[|plans|] == plan;
      }
    }
  }

  /** The result records a run starts from. */
  function Fresh(uris: seq<Uri>): (b: Board)
    ensures b.Keys == set u | u in uris
  {
    map u | u in uris :: Record([], None, false, None)
  }

  lemma FreshIsFine(uris: seq<Uri>, u: Uri)
    requires u in Fresh(uris)
    ensures !Failed(Fresh(uris)[u])
  {
  }

  lemma ErrorFails(r: Record)
    ensures r.error.Some? ==> Failed(r)
  {
  }

  lemma RoundContract(cluster: Cluster, n: nat, pending: seq<Uri>, board: Board, start: Board)
    requires Faithful(cluster) && (forall u :: u in pending ==> u in board) && board.Keys == start.Keys
    ensures Answers(pending, cluster(n, pending)) && InBoard(start, cluster(n, pending))
  {
    var r := cluster(n, pending);
    assert Answers(pending, r);
    forall i | 0 <= i < |r.outcomes| ensures r.outcomes[i].uri in start {
      assert HasSpecs(r.plans, r.outcomes[i].uri);
      var j :| 0 <= j < |r.plans| && Buildable(r.plans[j], r.outcomes[i].uri);
      assert r.plans[j].uri in board.Keys;
    }
    forall i | 0 <= i < |r.plans| ensures r.plans[i].uri in start {
      assert r.plans[i].uri in board.Keys;
    }
  }

  lemma NoRounds(board: Board, pending: seq<Uri>)
    ensures History(board, [pending], []) && AfterRounds(board, []) == board
  {
  }

  lemma OneMoreRound(board: Board, pendings: seq<seq<Uri>>, h: seq<Round>, r: Round, next: seq<Uri>)
    requires History(board, pendings, h) && InBoard(board, r) && Answers(pendings[|h|], r)
    requires forall u :: u in next <==> u in StaleUris(r.outcomes)
    ensures History(board, pendings + [next], h + [r])
    ensures AfterRounds(board, h).Keys == board.Keys && InBoard(AfterRounds(board, h), r)
    ensures AfterRounds(board, h + [r]) == AfterRound(AfterRounds(board, h), r)
  {
    hide AfterRound, StaleUris;
    assert (h + [r])[..|h|] == h;
  }

  lemma NextStillKnown(board: Board, r: Round, next: seq<Uri>, pending: seq<Uri>)
    requires InBoard(board, r) && forall u :: u in next <==> u in StaleUris(r.outcomes)
    ensures forall u :: u in next ==> u in board
  {
  }

  // ---------- nothing recorded is lost ----------

  lemma NotePlanGrows(board: Board, p: Plan, u: Uri)
    requires p.uri in board && u in board
    ensures board[u].indexes <= NotePlan(board, p)[u].indexes
  {
  }

  lemma {:induction false} NotePlansGrow(board: Board, plans: seq<Plan>, u: Uri)
    requires (forall i :: 0 <= i < |plans| ==> plans[i].uri in board) && u in board
    ensures board[u].indexes <= NotePlans(board, plans)[u].indexes
    decreases |plans|
  {
    if plans != [] {
      var front, last := plans[..|plans| - 1], plans[|plans| - 1];
      NotePlansGrow(board, front, u);
      NotePlanGrows(NotePlans(board, front), last, u);
    }
  }

  lemma {:induction false} NoteOutcomesRecord(board: Board, os: seq<Outcome>, u: Uri, n: nat)
    requires (forall i :: 0 <= i < |os| ==> os[i].uri in board) && u in board
    ensures board[u].indexes <= NoteOutcomes(board, os)[u].indexes
    ensures n < |os| && !os[n].stale && os[n].uri == u ==> os[n].entry in NoteOutcomes(board, os)[u].indexes
    decreases |os|
  {
    if os != [] {
      var front, last := os[..|os| - 1], os[|os| - 1];
      NoteOutcomesRecord(board, front, u, n);
      var before, after := NoteOutcomes(board, front), NoteOutcomes(board, os);
      assert before[u].indexes <= after[u].indexes;
      if n == |os| - 1 && !last.stale && last.uri == u {
        assert after[u].indexes[|before[u].indexes|] == last.entry;
      }
    }
  }

  /** Every outcome that is not stale, success or error, is in its dataset's record at the end of the
      run, whatever the rounds after it report. */
  lemma {:induction false} OutcomesAreRecorded(board: Board, pendings: seq<seq<Uri>>, h: seq<Round>, k: nat, n: nat)
    requires History(board, pendings, h) && k < |h| && n < |h[k].outcomes| && !h[k].outcomes[n].stale
    ensures h[k].outcomes[n].uri in board
    ensures h[k].outcomes[n].entry in AfterRounds(board, h)[h[k].outcomes[n].uri].indexes
    decreases |h|
  {
    hide Answers, NotePlans, NoteOutcomes;
    var last := |h| - 1;
    var front, u := h[..last], h[k].outcomes[n].uri;
    assert InBoard(board, h[k]);
    if k < last {
      OutcomesAreRecorded(board, pendings[..|h|], front, k, n);
    }
    var before := AfterRounds(board, front);
    assert InBoard(board, h[last]);
    NotePlansGrow(before, h[last].plans, u);
    NoteOutcomesRecord(NotePlans(before, h[last].plans), h[last].outcomes, u, if k == last then n else 0);
  }

  /** What a plan reports stays reported: an error, a skip, a version to build, every finished index. */
  predicate Noted(p: Plan, r: Record)
  {
    match p
    case PlanFailed(_, _) => r.error.Some?
    case PlanSkipped(_) => r.skipped
    case Planned(_, _, specs, done) =>
      (specs != [] ==> r.version.Some?) && forall i :: 0 <= i < |done| ==> Mentions(r, done[i].index)
  }

  predicate Mentions(r: Record, index: string)
  {
    exists i :: 0 <= i < |r.indexes| && r.indexes[i].index == index
  }

  predicate Grown(a: Record, b: Record)
  {
    && a.indexes <= b.indexes && (a.error.Some? ==> b.error.Some?) && (a.skipped ==> b.skipped)
    && (a.version.Some? ==> b.version.Some?)
  }

  lemma GrownStaysNoted(p: Plan, a: Record, b: Record)
    requires Noted(p, a) && Grown(a, b)
    ensures Noted(p, b)
  {
    if p.Planned? {
      forall i | 0 <= i < |p.done| ensures Mentions(b, p.done[i].index) {
        assert Mentions(a, p.done[i].index);
        var j :| 0 <= j < |a.indexes| && a.indexes[j].index == p.done[i].index;
        assert b.indexes[j] == a.indexes[j];
      }
    }
  }

  lemma PlanIsNoted(board: Board, p: Plan, u: Uri)
    requires p.uri in board && u in board
    ensures Grown(board[u], NotePlan(board, p)[u])
    ensures Noted(p, NotePlan(board, p)[p.uri])
  {
    if p.Planned? {
      var before, after := board[p.uri], NotePlan(board, p)[p.uri];
      var more := NewlyDone(p.done, Recorded(before));
      assert after.indexes == before.indexes + more;
      forall i | 0 <= i < |p.done| ensures Mentions(after, p.done[i].index) {
        if p.done[i].index in Recorded(before) {
          var e :| e in before.indexes && e.index == p.done[i].index;
          assert e in after.indexes;
        } else {
          assert p.done[i] in more && p.done[i] in after.indexes;
        }
      }
    }
  }

  lemma {:induction false} NotePlansNote(board: Board, plans: seq<Plan>, u: Uri, n: nat)
    requires (forall i :: 0 <= i < |plans| ==> plans[i].uri in board) && u in board
    ensures Grown(board[u], NotePlans(board, plans)[u])
    ensures n < |plans| && plans[n].uri == u ==> Noted(plans[n], NotePlans(board, plans)[u])
    decreases |plans|
  {
    hide Noted, NotePlan;
    if plans != [] {
      var front, last := plans[..|plans| - 1], plans[|plans| - 1];
      NotePlansNote(board, front, u, n);
      PlanIsNoted(NotePlans(board, front), last, u);
      if n < |front| && plans[n].uri == u {
        GrownStaysNoted(plans[n], NotePlans(board, front)[u], NotePlans(board, plans)[u]);
      }
    }
  }

  lemma {:induction false} NoteOutcomesGrow(board: Board, os: seq<Outcome>, u: Uri)
    requires (forall i :: 0 <= i < |os| ==> os[i].uri in board) && u in board
    ensures Grown(board[u], NoteOutcomes(board, os)[u])
    decreases |os|
  {
    if os != [] {
      NoteOutcomesGrow(board, os[..|os| - 1], u);
    }
  }

  /** What a plan of any round reports is in its dataset's record at the end of the run. */
  lemma {:induction false} PlansAreRecorded(board: Board, pendings: seq<seq<Uri>>, h: seq<Round>, k: nat, n: nat)
    requires History(board, pendings, h) && k < |h| && n < |h[k].plans|
    ensures h[k].plans[n].uri in board
    ensures Noted(h[k].plans[n], AfterRounds(board, h)[h[k].plans[n].uri])
    decreases |h|
  {
    hide Answers, NotePlans, NoteOutcomes, Noted, Grown;
    var last := |h| - 1;
    var front, p := h[..last], h[k].plans[n];
    assert InBoard(board, h[k]);
    if k < last {
      PlansAreRecorded(board, pendings[..|h|], front, k, n);
    }
    var before := AfterRounds(board, front);
    assert InBoard(board, h[last]);
    var planned := NotePlans(before, h[last].plans);
    NotePlansNote(before, h[last].plans, p.uri, n);
    NoteOutcomesGrow(planned, h[last].outcomes, p.uri);
    if k < last {
      GrownStaysNoted(p, before[p.uri], planned[p.uri]);
    }
    GrownStaysNoted(p, planned[p.uri], NoteOutcomes(planned, h[last].outcomes)[p.uri]);
  }
}
