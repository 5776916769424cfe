/** From one shard to the dataset's record: the reduction of `IndexReduce` inside the rounds of
    `IndexRun`. */
module IndexFleet {
  import opened Wrappers
  import opened IndexReduce
  import IndexRun

  /** The outcome the executor that holds the reduced accumulator sends to the driver. `answer` is what
      the commit itself comes back with, when it is attempted. */
  function OutcomeOf(uri: string, index: string, d: Decision, answer: IndexRun.Outcome): IndexRun.Outcome
  {
    match d
    case Report(e) => IndexRun.Outcome(uri, false, IndexRun.Entry(index, Some(e.message)))
    case Return(_) => IndexRun.Outcome(uri, false, IndexRun.Entry(index, None))
    case CommitFts(_) => answer.(uri := uri)
    case CommitSegments(_, _) => answer.(uri := uri)
  }

  /** An error outcome in any round marks the dataset, whatever the rounds after it report. */
  lemma {:induction false} OutcomeMarks(
    board: IndexRun.Board, pendings: seq<seq<string>>, h: seq<IndexRun.Round>, uri: string, k: nat, n: nat)
    requires IndexRun.History(board, pendings, h) && uri in board
    requires k < |h| && n < |h[k].outcomes| && IndexRun.OutcomeBlames(h[k].outcomes[n], uri)
    ensures IndexRun.Blamed(board, h, uri)
    decreases |h|
  {
    hide IndexRun.Answers, IndexRun.InBoard, IndexRun.AfterRounds, IndexRun.OutcomeBlames, IndexRun.PlanBlames;
    var last := |h| - 1;
    if k < last {
      OutcomeMarks(board, pendings[..|h|], h[..last], uri, k, n);
    }
  }

  /** One failed or unsupported shard, or two shards that disagree on what to commit, in any reduction
      tree and any round: the dataset is counted as failed at the end of the run. */
  lemma ShardFailureFailsDataset(
    board: IndexRun.Board, pendings: seq<seq<string>>, h: seq<IndexRun.Round>, uri: string, k: nat, n: nat,
    index: string, t: Tree, i: nat, j: nat, answer: IndexRun.Outcome)
    requires IndexRun.History(board, pendings, h) && uri in board && k < |h| && n < |h[k].outcomes|
    requires h[k].outcomes[n] == OutcomeOf(uri, index, Decide(Reduce(t)), answer)
    requires Counts(Leaves(t)) && i < |Leaves(t)| && j < |Leaves(t)|
    requires || Leaves(t)[i].payload.Failed? || Leaves(t)[i].payload.Unsupported?
             || Leaves(t)[i].spec != Leaves(t)[j].spec
    ensures IndexRun.Failed(IndexRun.AfterRounds(board, h)[uri])
  {
    hide IndexRun.History, IndexRun.Blamed, IndexRun.Failed, IndexRun.AfterRounds, Reduce, Leaves;
    FailureNeverCommits(t, i, j);
    assert IndexRun.OutcomeBlames(h[k].outcomes[n], uri);
    OutcomeMarks(board, pendings, h, uri, k, n);
    IndexRun.RunFails(board, pendings, h, uri);
  }
}
