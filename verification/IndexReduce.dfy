/** The executor-side reduction of index builds in `src/lance_etl/indexing/runner.py`. */
module IndexReduce {
  import opened Wrappers

  type Segment = string
  type Stats = string

  /** `commit_spec_from_task`: what all shards of one index must agree on. */
  datatype Spec = Spec(kind: string, column: string, index: string, fragments: nat, readVersion: int,
                       uuid: Option<string>)

  datatype BuildError = BuildError(column: string, message: string, phase: string)

  /** What one shard returned. */
  datatype Payload =
    | Failed(error: BuildError)
    | Finished(stats: Stats)
    | OneSegment(segment: Segment)
    | Built(count: int)
    | Unsupported

  datatype Aggregate = Aggregate(
    spec: Spec, segments: seq<Segment>, built: int, stats: Option<Stats>, error: Option<BuildError>)

  function BuildAggregate(spec: Spec, payload: Payload): Aggregate
  {
    var empty := Aggregate(spec, [], 0, None, None);
    match payload
    case Failed(e) => empty.(error := Some(e))
    case Finished(s) => empty.(stats := Some(s))
    case OneSegment(x) => empty.(segments := [x])
    case Built(n) => empty.(built := n)
    case Unsupported =>
      empty.(error := Some(BuildError(spec.column, "index build returned an unsupported payload", "build")))
  }

  function Invalidated(a: Aggregate, e: BuildError): Aggregate
  {
    Aggregate(a.spec, [], 0, None, Some(e))
  }

  /** `merge_build_aggregates` on values. */
  function Merge(left: Aggregate, right: Aggregate): Aggregate
  {
    if left.spec != right.spec then
      Invalidated(left, BuildError(left.spec.column, "index build tasks carried inconsistent commit specifications",
                                   "build"))
    else if left.error.Some? then Invalidated(left, left.error.value)
    else if right.error.Some? then Invalidated(left, right.error.value)
    else if left.stats.Some? && right.stats.Some? then
      Invalidated(left, BuildError(left.spec.column, "index build produced more than one terminal result", "build"))
    else if left.stats.Some? || right.stats.Some? then
      var terminal, other := if left.stats.Some? then left else right, if left.stats.Some? then right else left;
      if other.segments != [] || other.built != 0 then
        Invalidated(left, BuildError(left.spec.column, "index build mixed a terminal result with shard payloads",
                                     "build"))
      else left.(stats := terminal.stats)
    else left.(segments := left.segments + right.segments, built := left.built + right.built)
  }

  // ---------- the accumulator as Spark holds it: the left one is changed in place ----------

  class Accumulator {
    const spec: Spec
    var segments: seq<Segment>
    var built: int
    var stats: Option<Stats>
    var error: Option<BuildError>

    function Value(): Aggregate
      reads this
    {
      Aggregate(spec, segments, built, stats, error)
    }

    constructor (spec: Spec, payload: Payload)
      ensures Value() == BuildAggregate(spec, payload)
    {
      this.spec, segments, built, stats, error := spec, [], 0, None, None;
      new;
      match payload
      case Failed(e) => error := Some(e);
      case Finished(s) => stats := Some(s);
      case OneSegment(x) => segments := segments + [x];
      case Built(n) => built := n;
      case Unsupported =>
        error := Some(BuildError(spec.column, "index build returned an unsupported payload", "build"));
    }

    method Invalidate(e: BuildError)
      modifies this
      ensures Value() == Invalidated(old(Value()), e)
    {
      error := Some(e);
      stats := None;
      segments := [];
      built := 0;
    }

    method MergeFrom(right: Accumulator)
      requires right != this
      modifies this
      ensures Value() == Merge(old(Value()), old(right.Value()))
    {
      if spec != right.spec {
        Invalidate(BuildError(spec.column, "index build tasks carried inconsistent commit specifications", "build"));
        return;
      }
      if error.Some? || right.error.Some? {
        Invalidate(if error.Some? then error.value else right.error.value);
        return;
      }
      if stats.Some? || right.stats.Some? {
        if stats.Some? && right.stats.Some? {
          Invalidate(BuildError(spec.column, "index build produced more than one terminal result", "build"));
          return;
        }
        var terminal, other := if stats.Some? then this else right, if stats.Some? then right else this;
        if other.segments != [] || other.built != 0 {
          Invalidate(BuildError(spec.column, "index build mixed a terminal result with shard payloads", "build"));
          return;
        }
        stats := terminal.stats;
        return;
      }
      segments := segments + right.segments;
      built := built + right.built;
    }
  }

  // ---------- reduction trees ----------

  datatype Tree = Leaf(spec: Spec, payload: Payload) | Node(left: Tree, right: Tree)

  function Reduce(t: Tree): Aggregate
  {
    match t
    case Leaf(spec, payload) => BuildAggregate(spec, payload)
    case Node(l, r) => Merge(Reduce(l), Reduce(r))
  }

  datatype Result = Result(spec: Spec, payload: Payload)

  function Leaves(t: Tree): seq<Result>
  {
    match t
    case Leaf(spec, payload) => [Result(spec, payload)]
    case Node(l, r) => Leaves(l) + Leaves(r)
  }

  /** What a bag of shard results adds up to, whatever order they arrive in. */
  datatype Tally = Tally(
    specs: set<Spec>, failures: nat, stats: multiset<Stats>, segments: multiset<Segment>, built: int)

  function One(r: Result): Tally
  {
    Tally({r.spec},
          if r.payload.Failed? || r.payload.Unsupported? then 1 else 0,
          if r.payload.Finished? then multiset{r.payload.stats} else multiset{},
          if r.payload.OneSegment? then multiset{r.payload.segment} else multiset{},
          if r.payload.Built? then r.payload.count else 0)
  }

  function Plus(a: Tally, b: Tally): Tally
  {
    Tally(a.specs + b.specs, a.failures + b.failures, a.stats + b.stats, a.segments + b.segments, a.built + b.built)
  }

  function Total(rs: seq<Result>): Tally
  {
    if rs == [] then Tally({}, 0, multiset{}, multiset{}, 0) else Plus(Total(rs[..|rs| - 1]), One(rs[|rs| - 1]))
  }

  lemma PlusLaws(a: Tally, b: Tally, c: Tally)
    ensures Plus(Plus(a, b), c) == Plus(a, Plus(b, c))
    ensures Plus(a, b) == Plus(b, a)
    ensures Plus(a, Total([])) == a
  {
  }

  lemma {:induction false} TotalSplits(a: seq<Result>, b: seq<Result>)
    ensures Total(a + b) == Plus(Total(a), Total(b))
    decreases |b|
  {
    hide Plus, One;
    if b == [] {
      assert a + b == a;
      PlusLaws(Total(a), Total(a), Total(a));
    } else {
      var front, last := b[..|b| - 1], b[|b| - 1];
      TotalSplits(a, front);
      assert (a + b)[..|a + b| - 1] == a + front;
      PlusLaws(Total(a), Total(front), One(last));
    }
  }

  lemma TotalOfOne(r: Result)
    ensures Total([r]) == One(r)
  {
    assert [r][..0] == [];
    assert Plus(Total([]), One(r)) == One(r);
  }

  /** Pulling one result out of a bag. */
  lemma TotalWithout(b: seq<Result>, j: nat)
    requires j < |b|
    ensures Total(b) == Plus(Total(b[..j] + b[j + 1..]), One(b[j]))
    ensures multiset(b) == multiset(b[..j] + b[j + 1..]) + multiset{b[j]}
  {
    hide Plus, One, Total;
    var l, x, r := b[..j], b[j], b[j + 1..];
    assert b == l + [x] + r;
    TotalSplits(l + [x], r);
    TotalSplits(l, [x]);
    TotalSplits(l, r);
    TotalOfOne(x);
    PlusLaws(Total(l), One(x), Total(r));
    PlusLaws(One(x), Total(r), Total(l));
    PlusLaws(Total(l), Total(r), One(x));
  }

  /** The total of a bag does not depend on the order of its results. */
  lemma {:induction false} TotalIgnoresOrder(a: seq<Result>, b: seq<Result>)
    requires multiset(a) == multiset(b)
    ensures Total(a) == Total(b)
    decreases |a|
  {
    hide Plus, One, Total;
    if a == [] {
      assert |multiset(b)| == 0;
    } else {
      assert a[0] in multiset(a);
      var j :| 0 <= j < |b| && b[j] == a[0];
      TotalWithout(a, 0);
      TotalWithout(b, j);
      var x, y := a[..0] + a[1..], b[..j] + b[j + 1..];
      SameWithout(multiset(x), multiset(y), a[0]);
      TotalIgnoresOrder(x, y);
    }
  }

  lemma SameWithout<T>(x: multiset<T>, y: multiset<T>, e: T)
    requires x + multiset{e} == y + multiset{e}
    ensures x == y
  {
    assert x == (x + multiset{e}) - multiset{e};
    assert y == (y + multiset{e}) - multiset{e};
  }

  /** The outcome a bag of results calls for. */
  datatype Verdict = Error | Terminal(stats: Stats) | Commit(segments: multiset<Segment>, built: int)

  predicate Broken(t: Tally)
  {
    || t.failures > 0
    || |t.specs| > 1
    || |t.stats| > 1
    || (|t.stats| == 1 && (|t.segments| > 0 || t.built > 0))
  }

  /** How an accumulator reflects a tally. */
  ghost predicate Reflects(a: Aggregate, t: Tally)
  {
    && a.spec in t.specs && t.built >= 0
    && (Broken(t) <==> a.error.Some?)
    && (Broken(t) ==> a.segments == [] && a.built == 0 && a.stats.None?)
    && (!Broken(t) ==>
          && t.specs == {a.spec}
          && t.stats == (if a.stats.Some? then multiset{a.stats.value} else multiset{})
          && t.segments == multiset(a.segments) && t.built == a.built)
  }

  /** `build_one_shard` counts the fragments of its shard. */
  predicate Counts(rs: seq<Result>)
  {
    forall i :: 0 <= i < |rs| && rs[i].payload.Built? ==> rs[i].payload.count >= 0
  }

  lemma LeafReflects(spec: Spec, payload: Payload)
    requires payload.Built? ==> payload.count >= 0
    ensures Reflects(BuildAggregate(spec, payload), One(Result(spec, payload)))
  {
    assert |{spec}| == 1;
    if payload.OneSegment? {
      assert multiset([payload.segment]) == multiset{payload.segment};
    }
  }

  lemma BrokenStaysBroken(a: Tally, b: Tally)
    requires a.built >= 0 && b.built >= 0 && (Broken(a) || Broken(b))
    ensures Broken(Plus(a, b))
  {
    SubsetSize(a.specs, a.specs + b.specs);
    SubsetSize(b.specs, a.specs + b.specs);
  }

  lemma SubsetSize<T>(a: set<T>, b: set<T>)
    requires a <= b
    ensures |a| <= |b|
  {
    assert b == a + (b - a);
  }

  lemma TwoSpecs(specs: set<Spec>, a: Spec, b: Spec)
    requires a in specs && b in specs && a != b
    ensures |specs| > 1
  {
    SubsetSize({a, b}, specs);
  }

  /** Reflecting a sound tally, spelled out by sizes. */
  lemma SoundSizes(a: Aggregate, t: Tally)
    requires Reflects(a, t) && !Broken(t)
    ensures |t.stats| == (if a.stats.Some? then 1 else 0) && |t.segments| == |a.segments| && t.built == a.built >= 0
    ensures t.failures == 0 && t.specs == {a.spec} && a.error.None?
  {
  }

  lemma MergeReflects(a: Aggregate, b: Aggregate, s: Tally, t: Tally)
    requires Reflects(a, s) && Reflects(b, t)
    ensures Reflects(Merge(a, b), Plus(s, t))
  {
    if a.spec != b.spec {
      TwoSpecs(s.specs + t.specs, a.spec, b.spec);
    } else if Broken(s) || Broken(t) {
      BrokenStaysBroken(s, t);
    } else {
      SoundMerge(a, b, s, t);
    }
  }

  lemma SoundMerge(a: Aggregate, b: Aggregate, s: Tally, t: Tally)
    requires Reflects(a, s) && Reflects(b, t) && !Broken(s) && !Broken(t) && a.spec == b.spec
    ensures Reflects(Merge(a, b), Plus(s, t))
  {
    SoundSizes(a, s);
    SoundSizes(b, t);
    var sum := Plus(s, t);
    assert sum.specs == {a.spec} && |sum.specs| == 1;
    assert |sum.stats| == |s.stats| + |t.stats| && |sum.segments| == |a.segments| + |b.segments|;
    if a.stats.None? && b.stats.None? {
      assert multiset(a.segments + b.segments) == sum.segments;
      assert !Broken(sum);
    } else if a.stats.Some? && b.stats.Some? {
      assert Broken(sum);
    } else if a.stats.Some? {
      assert Broken(sum) <==> b.segments != [] || b.built != 0;
    } else {
      assert Broken(sum) <==> a.segments != [] || a.built != 0;
    }
  }

  /** Every tree reflects the total of its leaves. */
  lemma {:induction false} ReduceReflects(t: Tree)
    requires Counts(Leaves(t))
    ensures Reflects(Reduce(t), Total(Leaves(t)))
  {
    hide Merge, Broken, Reflects;
    match t
    case Leaf(spec, payload) =>
      assert Leaves(t)[0] == Result(spec, payload);
      LeafReflects(spec, payload);
      TotalOfOne(Result(spec, payload));
    case Node(l, r) =>
      var all, a, b := Leaves(t), Leaves(l), Leaves(r);
      assert forall i :: 0 <= i < |a| ==> a[i] == all[i];
      assert forall i :: 0 <= i < |b| ==> b[i] == all[|a| + i];
      ReduceReflects(l);
      ReduceReflects(r);
      TotalSplits(a, b);
      MergeReflects(Reduce(l), Reduce(r), Total(a), Total(b));
  }

  function Outcome(a: Aggregate): Verdict
  {
    if a.error.Some? then Error
    else if a.stats.Some? then Terminal(a.stats.value)
    else Commit(multiset(a.segments), a.built)
  }

  /** Any tree over any order of the same shard results has the same outcome: the same class, the
      same stats, the same bag of segments and the same fragment count. */
  lemma TreeIndependence(t: Tree, u: Tree)
    requires multiset(Leaves(t)) == multiset(Leaves(u)) && Counts(Leaves(t))
    ensures Outcome(Reduce(t)) == Outcome(Reduce(u))
    ensures Outcome(Reduce(t)).Commit? ==> Reduce(t).spec == Reduce(u).spec
  {
    var a, b := Leaves(t), Leaves(u);
    forall i | 0 <= i < |b| && b[i].payload.Built? ensures b[i].payload.count >= 0 {
      assert b[i] in multiset(a);
    }
    ReduceReflects(t);
    ReduceReflects(u);
    TotalIgnoresOrder(a, b);
    hide Total, Reduce, Leaves, Broken, Reflects, Outcome;
    SameReflection(Reduce(t), Reduce(u), Total(a));
  }

  lemma SameReflection(x: Aggregate, y: Aggregate, t: Tally)
    requires Reflects(x, t) && Reflects(y, t)
    ensures Outcome(x) == Outcome(y) && (Outcome(x).Commit? ==> x.spec == y.spec)
  {
    hide Broken;
    if x.error.None? {
      assert x.spec in {y.spec};
      assert x.stats.Some? ==> x.stats.value in t.stats;
      assert y.stats.Some? ==> y.stats.value in t.stats;
    }
  }

  /** One failed or unsupported shard, or two shards of different specifications, and the index has
      nothing to commit, however the results were combined. */
  lemma FailureNeverCommits(t: Tree, i: nat, j: nat)
    requires Counts(Leaves(t)) && i < |Leaves(t)| && j < |Leaves(t)|
    requires Leaves(t)[i].payload.Failed? || Leaves(t)[i].payload.Unsupported? || Leaves(t)[i].spec != Leaves(t)[j].spec
    ensures Reduce(t).error.Some? && Reduce(t).segments == [] && Reduce(t).built == 0 && Reduce(t).stats.None?
  {
    var rs := Leaves(t);
    ReduceReflects(t);
    PartOfTotal(rs, i);
    PartOfTotal(rs, j);
    if rs[i].spec != rs[j].spec {
      TwoSpecs(Total(rs).specs, rs[i].spec, rs[j].spec);
    }
  }

  lemma PartOfTotal(rs: seq<Result>, i: nat)
    requires i < |rs|
    ensures rs[i].spec in Total(rs).specs && One(rs[i]).failures <= Total(rs).failures
  {
    TotalWithout(rs, i);
    hide Total;
  }

  /** Without non-negative counts the law is false: a count and its opposite cancel before a terminal
      result joins them, or clash with it after. */
  lemma NegativeCountsBreakIt(spec: Spec, s: Stats)
    ensures var f, p, m := Leaf(spec, Finished(s)), Leaf(spec, Built(2)), Leaf(spec, Built(-2));
            && multiset(Leaves(Node(Node(p, m), f))) == multiset(Leaves(Node(Node(f, p), m)))
            && Outcome(Reduce(Node(Node(p, m), f))) == Terminal(s)
            && Outcome(Reduce(Node(Node(f, p), m))) == Error
  {
    hide Merge;
    var f, p, m := Leaf(spec, Finished(s)), Leaf(spec, Built(2)), Leaf(spec, Built(-2));
    var df, dp, dm := Reduce(f), Reduce(p), Reduce(m);
    Cancelled(spec, s);
    assert Reduce(Node(p, m)) == Merge(dp, dm) && Reduce(Node(f, p)) == Merge(df, dp);
    assert Leaves(p) == [Result(spec, Built(2))] && Leaves(m) == [Result(spec, Built(-2))];
    assert Leaves(f) == [Result(spec, Finished(s))];
    assert Leaves(Node(p, m)) == Leaves(p) + Leaves(m) && Leaves(Node(f, p)) == Leaves(f) + Leaves(p);
    assert Leaves(Node(Node(p, m), f)) == [Result(spec, Built(2)), Result(spec, Built(-2)), Result(spec, Finished(s))];
    assert Leaves(Node(Node(f, p), m)) == [Result(spec, Finished(s)), Result(spec, Built(2)), Result(spec, Built(-2))];
  }

  lemma Cancelled(spec: Spec, s: Stats)
    ensures var f := BuildAggregate(spec, Finished(s));
            var p, m := BuildAggregate(spec, Built(2)), BuildAggregate(spec, Built(-2));
            Outcome(Merge(Merge(p, m), f)) == Terminal(s) && Outcome(Merge(Merge(f, p), m)) == Error
  {
    var f, p, m := BuildAggregate(spec, Finished(s)), BuildAggregate(spec, Built(2)), BuildAggregate(spec, Built(-2));
    assert Merge(p, m) == Aggregate(spec, [], 0, None, None);
    assert Merge(Merge(p, m), f) == f;
    assert Merge(f, p).error.Some?;
    hide Merge;
    MergeOfFailed(Merge(f, p), m);
  }

  lemma MergeOfFailed(a: Aggregate, b: Aggregate)
    requires a.error.Some?
    ensures Merge(a, b).error.Some?
  {
  }

  // ---------- from fragments to the commit decision ----------

  /** `values[k::count]` for `k < count`: the positions congruent to `k`. */
  function Strided(ids: seq<int>, k: nat, count: nat): seq<int>
    requires count > 0
  {
    if ids == [] then []
    else
      var n := |ids| - 1;
      Strided(ids[..n], k, count) + if n % count == k then [ids[n]] else []
  }

  function GroupsFrom(ids: seq<int>, k: nat, count: nat): seq<seq<int>>
    requires count > 0 && k <= count
    decreases count - k
  {
    if k == count then []
    else
      var g := Strided(ids, k, count);
      (if g != [] then [g] else []) + GroupsFrom(ids, k + 1, count)
  }

  function SplitEvenly(ids: seq<int>, shards: nat): seq<seq<int>>
  {
    var m := if shards < |ids| then shards else |ids|;
    GroupsFrom(ids, 0, if m > 1 then m else 1)
  }

  function Bag(groups: seq<seq<int>>): multiset<int>
  {
    if groups == [] then multiset{} else multiset(groups[0]) + Bag(groups[1..])
  }

  /** The positions of residue `k` or more. */
  function FromResidue(ids: seq<int>, k: nat, count: nat): multiset<int>
    requires count > 0
  {
    if ids == [] then multiset{}
    else
      var n := |ids| - 1;
      FromResidue(ids[..n], k, count) + if n % count >= k then multiset{ids[n]} else multiset{}
  }

  lemma {:induction false} OneResidue(ids: seq<int>, k: nat, count: nat)
    requires count > 0
    ensures FromResidue(ids, k, count) == multiset(Strided(ids, k, count)) + FromResidue(ids, k + 1, count)
  {
    if ids != [] {
      var n := |ids| - 1;
      OneResidue(ids[..n], k, count);
    }
  }

  lemma {:induction false} AllResidues(ids: seq<int>, count: nat)
    requires count > 0
    ensures FromResidue(ids, 0, count) == multiset(ids) && FromResidue(ids, count, count) == multiset{}
  {
    if ids != [] {
      var n := |ids| - 1;
      AllResidues(ids[..n], count);
      assert ids == ids[..n] + [ids[n]];
    }
  }

  lemma BagOf(g: seq<int>, rest: seq<seq<int>>)
    ensures Bag([g] + rest) == multiset(g) + Bag(rest)
  {
    assert ([g] + rest)[1..] == rest;
  }

  lemma {:induction false} GroupsConserve(ids: seq<int>, k: nat, count: nat)
    requires count > 0 && k <= count
    ensures Bag(GroupsFrom(ids, k, count)) == FromResidue(ids, k, count)
    decreases count - k
  {
    hide Bag, FromResidue, Strided;
    if k == count {
      AllResidues(ids, count);
      assert Bag([]) == multiset{} by { NoGroups(); }
    } else {
      var g, rest := Strided(ids, k, count), GroupsFrom(ids, k + 1, count);
      GroupsConserve(ids, k + 1, count);
      OneResidue(ids, k, count);
      if g != [] {
        BagOf(g, rest);
      } else {
        assert [] + rest == rest;
      }
    }
  }

  lemma NoGroups()
    ensures Bag([]) == multiset{}
  {
  }

  /** Sharding loses and repeats no fragment. */
  lemma SplitConserves(ids: seq<int>, shards: nat)
    ensures Bag(SplitEvenly(ids, shards)) == multiset(ids)
  {
    var m := if shards < |ids| then shards else |ids|;
    var count := if m > 1 then m else 1;
    GroupsConserve(ids, 0, count);
    AllResidues(ids, count);
  }

  lemma Multiples(d: int, count: int)
    requires count > 0
    ensures d >= 1 ==> d * count >= count
    ensures d <= -1 ==> d * count <= -count
  {
  }

  lemma DivUnique(n: nat, count: nat, q: nat, r: nat)
    requires n == q * count + r && r < count
    ensures n / count == q && n % count == r
  {
    var d := n / count - q;
    assert n == (n / count) * count + n % count;
    assert d * count == r - n % count;
    Multiples(d, count);
  }

  lemma NextPosition(n: nat, count: nat)
    requires count > 0
    ensures if n % count + 1 < count
            then (n + 1) / count == n / count && (n + 1) % count == n % count + 1
            else (n + 1) / count == n / count + 1 && (n + 1) % count == 0
  {
    var q, r := n / count, n % count;
    assert n == q * count + r;
    if r + 1 < count {
      DivUnique(n + 1, count, q, r + 1);
    } else {
      assert (q + 1) * count == q * count + count;
      DivUnique(n + 1, count, q + 1, 0);
    }
  }

  lemma {:induction false} StridedSize(ids: seq<int>, k: nat, count: nat)
    requires k < count
    ensures |Strided(ids, k, count)| == |ids| / count + if k < |ids| % count then 1 else 0
  {
    if ids == [] {
      DivUnique(0, count, 0, 0);
    } else {
      var n := |ids| - 1;
      StridedSize(ids[..n], k, count);
      NextPosition(n, count);
    }
  }

  lemma {:induction false} GroupsBalanced(ids: seq<int>, k: nat, count: nat)
    requires 0 < count <= |ids| && k <= count
    ensures |GroupsFrom(ids, k, count)| == count - k
    ensures forall i :: 0 <= i < count - k ==>
              |ids| / count <= |GroupsFrom(ids, k, count)[i]| <= |ids| / count + 1
    decreases count - k
  {
    if k < count {
      StridedSize(ids, k, count);
      AtLeastOne(|ids|, count);
      GroupsBalanced(ids, k + 1, count);
    }
  }

  lemma AtLeastOne(n: nat, count: nat)
    requires 0 < count <= n
    ensures n / count >= 1
  {
    assert n == (n / count) * count + n % count;
  }

  /** The shards are as many as asked for and as there are ids to fill them, none is empty, and no
      two differ by more than one. */
  lemma SplitBalanced(ids: seq<int>, shards: nat)
    requires ids != []
    ensures |SplitEvenly(ids, shards)| == (if shards <= 1 then 1 else if shards < |ids| then shards else |ids|)
    ensures forall i :: 0 <= i < |SplitEvenly(ids, shards)| ==> SplitEvenly(ids, shards)[i] != []
    ensures forall i, j :: 0 <= i < |SplitEvenly(ids, shards)| && 0 <= j < |SplitEvenly(ids, shards)| ==>
              |SplitEvenly(ids, shards)[i]| <= |SplitEvenly(ids, shards)[j]| + 1
  {
    var m := if shards < |ids| then shards else |ids|;
    var count := if m > 1 then m else 1;
    GroupsBalanced(ids, 0, count);
    AtLeastOne(|ids|, count);
    hide GroupsFrom;
    var groups := SplitEvenly(ids, shards);
    forall i | 0 <= i < |groups| ensures groups[i] != [] && |ids| / count <= |groups[i]| <= |ids| / count + 1 {
    }
  }

  /** What the executor that holds the reduced accumulator does next. */
  datatype Decision =
    | Report(error: BuildError)
    | Return(stats: Stats)
    | CommitFts(spec: Spec)
    | CommitSegments(spec: Spec, segments: seq<Segment>)

  /** `commit_build_aggregate`, and for an inverted index the count check that opens `commit_one_index`. */
  function Decide(a: Aggregate): Decision
  {
    if a.error.Some? then Report(a.error.value)
    else if a.stats.Some? then Return(a.stats.value)
    else if a.spec.kind == "fts" then
      if a.built != a.spec.fragments then
        Report(BuildError(a.spec.column, "built count differs from the plan", "index_commit"))
      else CommitFts(a.spec)
    else CommitSegments(a.spec, a.segments)
  }

  /** Every shard of an inverted index either failed or counted its fragments. */
  predicate FtsResults(spec: Spec, shards: seq<seq<int>>, rs: seq<Result>)
  {
    && |rs| == |shards|
    && forall i :: 0 <= i < |rs| ==>
              rs[i].spec == spec && (rs[i].payload.Failed? || rs[i].payload == Built(|shards[i]|))
  }

  predicate AllBuilt(rs: seq<Result>)
  {
    forall i :: 0 <= i < |rs| ==> rs[i].payload.Built?
  }

  lemma AllBuiltSplits(rs: seq<Result>)
    requires rs != []
    ensures AllBuilt(rs) <==> rs[0].payload.Built? && AllBuilt(rs[1..])
  {
    var tail := rs[1..];
    assert forall i :: 0 <= i < |tail| ==> tail[i] == rs[i + 1];
    assert forall i :: 1 <= i < |rs| ==> rs[i] == tail[i - 1];
  }

  ghost predicate FtsTallies(t: Tally, spec: Spec, shards: seq<seq<int>>, rs: seq<Result>)
  {
    && t.stats == multiset{} && t.segments == multiset{} && t.built >= 0
    && t.specs == (if rs == [] then {} else {spec})
    && (t.failures == 0 <==> AllBuilt(rs))
    && (t.failures == 0 ==> t.built == |Bag(shards)|)
  }

  lemma FtsTotalStep(spec: Spec, shards: seq<seq<int>>, rs: seq<Result>, t: Tally)
    requires FtsResults(spec, shards, rs) && rs != [] && FtsTallies(t, spec, shards[1..], rs[1..])
    ensures FtsTallies(Plus(t, One(rs[0])), spec, shards, rs)
  {
    AllBuiltSplits(rs);
    hide AllBuilt;
    assert |Bag(shards)| == |shards[0]| + |Bag(shards[1..])|;
    var sum := Plus(t, One(rs[0]));
    assert sum.specs == {spec};
  }

  lemma FtsTotalNone(spec: Spec)
    ensures FtsTallies(Total([]), spec, [], [])
  {
  }

  lemma FtsResultsTail(spec: Spec, shards: seq<seq<int>>, rs: seq<Result>)
    requires FtsResults(spec, shards, rs) && rs != []
    ensures |shards| == |rs| && FtsResults(spec, shards[1..], rs[1..])
  {
    var t, u := rs[1..], shards[1..];
    assert forall i :: 0 <= i < |t| ==> t[i] == rs[i + 1] && u[i] == shards[i + 1];
  }

  lemma {:induction false} FtsTotal(spec: Spec, shards: seq<seq<int>>, rs: seq<Result>)
    requires FtsResults(spec, shards, rs)
    ensures FtsTallies(Total(rs), spec, shards, rs)
    decreases |rs|
  {
    hide Total, FtsTallies, Plus, One, Bag;
    if rs == [] {
      assert shards == [];
      FtsTotalNone(spec);
    } else {
      FtsResultsTail(spec, shards, rs);
      hide FtsResults;
      var tail := rs[1..];
      FtsTotal(spec, shards[1..], tail);
      TotalWithout(rs, 0);
      assert rs[..0] + rs[1..] == tail;
      FtsTotalStep(spec, shards, rs, Total(tail));
    }
  }

  lemma FtsDecision(a: Aggregate, t: Tally, spec: Spec, shards: seq<seq<int>>, rs: seq<Result>)
    requires Reflects(a, t) && FtsTallies(t, spec, shards, rs) && spec.kind == "fts" && spec.fragments == |Bag(shards)|
    ensures Decide(a) == CommitFts(spec) <==> AllBuilt(rs)
  {
    hide AllBuilt, Bag;
    assert t.specs == {spec} && |t.specs| == 1;
    assert |t.stats| == 0;
  }

  /** An inverted index is committed exactly when none of its shards failed: the split, the builds,
      any reduction tree and the final count check add up. */
  lemma FtsCommitsExactly(spec: Spec, ids: seq<int>, shards: nat, rs: seq<Result>, t: Tree)
    requires spec.kind == "fts" && spec.fragments == |ids| && FtsResults(spec, SplitEvenly(ids, shards), rs)
    requires multiset(Leaves(t)) == multiset(rs)
    ensures Decide(Reduce(t)) == CommitFts(spec) <==> AllBuilt(rs)
  {
    var ls := Leaves(t);
    forall i | 0 <= i < |ls| && ls[i].payload.Built? ensures ls[i].payload.count >= 0 {
      assert ls[i] in multiset(rs);
    }
    hide Total, Reduce, Leaves, SplitEvenly, Bag, FtsTallies, Reflects, Decide, AllBuilt;
    ReduceReflects(t);
    TotalIgnoresOrder(ls, rs);
    FtsTotal(spec, SplitEvenly(ids, shards), rs);
    SplitConserves(ids, shards);
    assert |multiset(ids)| == |ids|;
    FtsDecision(Reduce(t), Total(rs), spec, SplitEvenly(ids, shards), rs);
  }


  // ---------- indexes built in segments ----------

  /** Every shard of a segmented index either failed or produced one segment. */
  predicate SegmentResults(spec: Spec, rs: seq<Result>)
  {
    forall i :: 0 <= i < |rs| ==> rs[i].spec == spec && (rs[i].payload.Failed? || rs[i].payload.OneSegment?)
  }

  predicate AllSegments(rs: seq<Result>)
  {
    forall i :: 0 <= i < |rs| ==> rs[i].payload.OneSegment?
  }

  function SegmentList(rs: seq<Result>): (r: seq<Segment>)
    requires AllSegments(rs)
    ensures |r| == |rs| && forall i :: 0 <= i < |rs| ==> r[i] == rs[i].payload.segment
  {
    seq(|rs|, i requires 0 <= i < |rs| => rs[i].payload.segment)
  }

  ghost predicate SegmentTallies(t: Tally, spec: Spec, rs: seq<Result>)
  {
    && t.stats == multiset{} && t.built == 0 && t.specs == (if rs == [] then {} else {spec})
    && (t.failures == 0 <==> AllSegments(rs))
    && (AllSegments(rs) ==> t.segments == multiset(SegmentList(rs)))
  }

  lemma SegmentStep(spec: Spec, front: seq<Result>, last: Result, t: Tally)
    requires SegmentTallies(t, spec, front) && last.spec == spec && (last.payload.Failed? || last.payload.OneSegment?)
    ensures SegmentTallies(Plus(t, One(last)), spec, front + [last])
  {
    var rs, sum := front + [last], Plus(t, One(last));
    assert AllSegments(rs) <==> AllSegments(front) && last.payload.OneSegment? by {
      assert rs[|front|] == last && forall i :: 0 <= i < |front| ==> rs[i] == front[i];
    }
    hide AllSegments;
    assert sum.specs == {spec};
    if AllSegments(rs) {
      assert SegmentList(rs) == SegmentList(front) + [last.payload.segment];
    }
  }

  lemma {:induction false} SegmentTotal(spec: Spec, rs: seq<Result>)
    requires SegmentResults(spec, rs)
    ensures SegmentTallies(Total(rs), spec, rs)
    decreases |rs|
  {
    if rs == [] {
      assert SegmentList(rs) == [];
    } else {
      var front, last := rs[..|rs| - 1], rs[|rs| - 1];
      SegmentTotal(spec, front);
      hide SegmentTallies, Plus, One;
      SegmentStep(spec, front, last, Total(front));
      assert rs == front + [last];
    }
  }

  /** An index built in segments commits exactly the bag of its shards' segments when none of them
      failed, and reports an error otherwise, in every reduction tree. */
  lemma SegmentsCommitExactly(spec: Spec, rs: seq<Result>, t: Tree)
    requires spec.kind != "fts" && SegmentResults(spec, rs) && multiset(Leaves(t)) == multiset(rs)
    ensures var d := Decide(Reduce(t));
            if AllSegments(rs)
            then d.CommitSegments? && d.spec == spec && multiset(d.segments) == multiset(SegmentList(rs))
            else d.Report?
  {
    var ls := Leaves(t);
    forall i | 0 <= i < |ls| ensures !ls[i].payload.Built? {
      assert ls[i] in multiset(rs);
    }
    hide Total, Reduce, Leaves, SegmentTallies, Reflects, Decide, AllSegments, SegmentResults;
    ReduceReflects(t);
    TotalIgnoresOrder(ls, rs);
    SegmentTotal(spec, rs);
    SegmentDecision(Reduce(t), Total(rs), spec, rs);
  }

  lemma SegmentDecision(a: Aggregate, t: Tally, spec: Spec, rs: seq<Result>)
    requires Reflects(a, t) && SegmentTallies(t, spec, rs) && spec.kind != "fts"
    ensures var d := Decide(a);
            if AllSegments(rs)
            then d.CommitSegments? && d.spec == spec && multiset(d.segments) == multiset(SegmentList(rs))
            else d.Report?
  {
    hide AllSegments, SegmentList;
    assert t.specs == {spec} && |t.specs| == 1 && |t.stats| == 0;
  }
}
