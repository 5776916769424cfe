/** Chunked exact nearest neighbours and their reduction: `bench/groundtruth.py`.

    A distance is an arbitrary finite real per query and base row. `argpartition` is an arbitrary
    choice of some `k` smallest elements; ties may fall either way. */
module TopK {
  import opened Orders
  import opened Lists

  datatype Distance = Fin(value: real) | Inf

  datatype Item = Item(distance: Distance, id: int)

  const SENTINEL := Item(Inf, -1)

  predicate Nearer(a: Item, b: Item)
  {
    match (a.distance, b.distance)
    case (Fin(x), Fin(y)) => x < y
    case (Fin(_), Inf) => true
    case _ => false
  }

  /** Order by distance, then by id. */
  predicate Before(a: Item, b: Item)
  {
    Nearer(a, b) || (!Nearer(b, a) && a.id < b.id)
  }

  lemma Orderings()
    ensures StrictWeakOrder(Nearer) && StrictWeakOrder(Before)
    ensures forall a, b :: a != b ==> Before(a, b) || Before(b, a)
  {
  }

  // ---------- some k smallest ----------

  ghost predicate KSmallest(all: multiset<Item>, best: multiset<Item>, k: nat, less: (Item, Item) -> bool)
  {
    && best <= all && |best| == k
    && forall x, y :: x in best && y in all - best ==> !less(y, x)
  }

  function Clamp(k: nat, n: nat): nat
  {
    if k < n then k else n
  }

  lemma SubBagSize<T>(a: multiset<T>, b: multiset<T>)
    requires a <= b
    ensures |a| <= |b|
    ensures |a| == |b| ==> a == b
  {
    assert b == a + (b - a);
    assert |b| == |a| + |b - a|;
  }

  /** Nothing left out of one side's best is smaller than anything in the best of both. */
  lemma LeftOutOfOneSide(
    a: multiset<Item>, sa: multiset<Item>, sb: multiset<Item>, best: multiset<Item>, k: nat,
    less: (Item, Item) -> bool, x: Item, y: Item)
    requires StrictWeakOrder(less)
    requires KSmallest(a, sa, Clamp(k, |a|), less) && KSmallest(sa + sb, best, Clamp(k, |sa + sb|), less)
    requires x in best && y in a - sa
    ensures !less(y, x)
  {
    SubBagSize(sa, a);
    assert sa != a;
    assert |sa| == k;
    if sa <= best {
      SubBagSize(sa, best);
      assert x in sa;
    } else {
      var z :| z in sa && sa[z] > best[z];
      assert z in (sa + sb) - best;
      assert !less(y, z) && !less(z, x);
    }
  }

  /** The best of two bests is the best of both. */
  lemma Compose(
    a: multiset<Item>, b: multiset<Item>, sa: multiset<Item>, sb: multiset<Item>, best: multiset<Item>, k: nat,
    less: (Item, Item) -> bool)
    requires StrictWeakOrder(less)
    requires KSmallest(a, sa, Clamp(k, |a|), less) && KSmallest(b, sb, Clamp(k, |b|), less)
    requires KSmallest(sa + sb, best, Clamp(k, |sa + sb|), less)
    ensures KSmallest(a + b, best, Clamp(k, |a + b|), less)
  {
    SubBagSize(sa, a);
    SubBagSize(sb, b);
    assert best <= a + b;
    forall x, y | x in best && y in (a + b) - best ensures !less(y, x) {
      if y in (sa + sb) - best {
      } else if y in a - sa {
        LeftOutOfOneSide(a, sa, sb, best, k, less, x, y);
      } else {
        assert sb + sa == sa + sb;
        LeftOutOfOneSide(b, sb, sa, best, k, less, x, y);
      }
    }
  }

  // ---------- one query over base chunks ----------

  /** `argpartition` and the gather that follows it. */
  type Partitioner = (seq<Item>, nat) -> seq<Item>

  ghost predicate Partitions(choose: Partitioner)
  {
    forall s, k: nat :: k <= |s| ==> KSmallest(multiset(s), multiset(choose(s, k)), k, Nearer)
  }

  function Sentinels(n: nat): (r: seq<Item>)
    ensures |r| == n && forall i :: 0 <= i < n ==> r[i] == SENTINEL
  {
    seq(n, _ => SENTINEL)
  }

  ghost predicate Finite(base: seq<Item>)
  {
    forall i :: 0 <= i < |base| ==> base[i].distance.Fin?
  }

  /** Once enough finite rows are seen, no sentinel is among the best. */
  lemma SentinelsDrop(base: seq<Item>, best: multiset<Item>, k: nat)
    requires Finite(base) && k <= |base|
    requires KSmallest(multiset(Sentinels(k)) + multiset(base), best, k, Nearer)
    ensures SENTINEL !in best && KSmallest(multiset(base), best, k, Nearer)
  {
    var pads, all := multiset(Sentinels(k)), multiset(Sentinels(k)) + multiset(base);
    OnlySentinels(k);
    FiniteBag(base);
    if multiset(base) <= best {
      SubBagSize(multiset(base), best);
      assert best == multiset(base);
    } else {
      var y :| y in multiset(base) && multiset(base)[y] > best[y];
      assert y in all - best;
      assert SENTINEL in best ==> !Nearer(y, SENTINEL);
    }
    assert SENTINEL !in best;
    assert best <= multiset(base) by {
      forall z ensures best[z] <= multiset(base)[z] {
        assert z != SENTINEL ==> pads[z] == 0;
      }
    }
    forall x, y | x in best && y in multiset(base) - best ensures !Nearer(y, x) {
      assert y in all - best;
    }
  }

  lemma OnlySentinels(k: nat)
    ensures forall z :: z in multiset(Sentinels(k)) ==> z == SENTINEL
  {
    forall z | z in multiset(Sentinels(k)) ensures z == SENTINEL {
      assert z in Sentinels(k);
    }
  }

  lemma FiniteBag(base: seq<Item>)
    requires Finite(base)
    ensures forall z :: z in multiset(base) ==> z.distance.Fin?
  {
    forall z | z in multiset(base) ensures z.distance.Fin? {
      assert z in base;
    }
  }

  /** The answer for one query: nearest first, and some `k` nearest of all rows. */
  ghost predicate Exact(base: seq<Item>, out: seq<Item>, k: nat)
  {
    && Sorted(out, Nearer)
    && KSmallest(multiset(base), multiset(out), Clamp(k, |base|), Nearer)
  }

  method QueryTopk(base: seq<Item>, k: nat, chunkSize: nat, choose: Partitioner) returns (out: seq<Item>)
    requires k >= 1 && chunkSize >= 1 && Finite(base) && Partitions(choose)
    ensures Exact(base, out, k) && SENTINEL !in out
  {
    hide StrictWeakOrder, KSmallest, Finite;
    var depth := Clamp(k, |base|);
    var best := Sentinels(depth);
    var start := 0;
    assert base[..0] == [];
    StartChunks(depth);
    while start < |base|
      invariant 0 <= start <= |base|
      invariant KSmallest(multiset(Sentinels(depth)) + multiset(base[..start]), multiset(best), depth, Nearer)
      decreases |base| - start
    {
      var next := Clamp(start + chunkSize, |base|);
      var chunk := base[start..next];
      var candidates := choose(chunk, Clamp(depth, |chunk|));
      var merged := best + candidates;
      ChunkSizes(base[..start], best, chunk, candidates, depth, choose);
      var kept := choose(merged, depth);
      ChunkStep(base[..start], best, chunk, candidates, kept, depth);
      assert base[..next] == base[..start] + chunk;
      best := kept;
      start := next;
    }
    assert base[..start] == base;
    SentinelsDrop(base, multiset(best), depth);
    Orderings();
    SortSorts(best, Nearer);
    out := Sort(best, Nearer);
    assert SENTINEL in out ==> SENTINEL in multiset(out);
  }

  lemma StartChunks(depth: nat)
    ensures KSmallest(multiset(Sentinels(depth)) + multiset([]), multiset(Sentinels(depth)), depth, Nearer)
  {
    assert multiset(Sentinels(depth)) + multiset([]) == multiset(Sentinels(depth));
  }

  lemma ChunkSizes(
    seen: seq<Item>, best: seq<Item>, chunk: seq<Item>, candidates: seq<Item>, depth: nat, choose: Partitioner)
    requires Partitions(choose) && candidates == choose(chunk, Clamp(depth, |chunk|))
    requires KSmallest(multiset(Sentinels(depth)) + multiset(seen), multiset(best), depth, Nearer)
    ensures KSmallest(multiset(chunk), multiset(candidates), Clamp(depth, |chunk|), Nearer)
    ensures |best + candidates| >= depth && |candidates| == Clamp(depth, |chunk|)
    ensures KSmallest(multiset(best + candidates), multiset(choose(best + candidates, depth)), depth, Nearer)
  {
    assert |multiset(best)| == |best| && |multiset(candidates)| == |candidates|;
  }

  lemma ChunkStep(seen: seq<Item>, best: seq<Item>, chunk: seq<Item>, candidates: seq<Item>, kept: seq<Item>,
                  depth: nat)
    requires KSmallest(multiset(Sentinels(depth)) + multiset(seen), multiset(best), depth, Nearer)
    requires KSmallest(multiset(chunk), multiset(candidates), Clamp(depth, |chunk|), Nearer)
    requires KSmallest(multiset(best + candidates), multiset(kept), depth, Nearer) && |best + candidates| >= depth
    ensures KSmallest(multiset(Sentinels(depth)) + multiset(seen + chunk), multiset(kept), depth, Nearer)
  {
    hide KSmallest;
    Orderings();
    hide StrictWeakOrder;
    var a := multiset(Sentinels(depth)) + multiset(seen);
    assert |multiset(Sentinels(depth))| == depth;
    assert multiset(best + candidates) == multiset(best) + multiset(candidates);
    assert multiset(seen + chunk) == multiset(seen) + multiset(chunk);
    assert a + multiset(chunk) == multiset(Sentinels(depth)) + multiset(seen + chunk);
    assert |multiset(best + candidates)| == |best + candidates|;
    Compose(a, multiset(chunk), multiset(best), multiset(candidates), multiset(kept), depth, Nearer);
  }

  /** `brute_force_topk_scored` over query blocks; `rows(q)` are the scored base rows of query `q`. */
  method BruteForceTopkScored(
    queries: nat, rows: nat -> seq<Item>, k: nat, baseChunk: nat, queryChunk: nat, choose: Partitioner)
    returns (out: seq<seq<Item>>)
    requires k >= 1 && baseChunk >= 1 && queryChunk >= 1 && Partitions(choose)
    requires forall q: nat :: q < queries ==> Finite(rows(q))
    ensures |out| == queries && forall q: nat :: q < queries ==> Exact(rows(q), out[q], k) && SENTINEL !in out[q]
  {
    hide Exact, Finite, Partitions;
    out := [];
    var start := 0;
    while start < queries
      invariant 0 <= start <= queries && |out| == start
      invariant forall q: nat :: q < start ==> Exact(rows(q), out[q], k) && SENTINEL !in out[q]
      decreases queries - start
    {
      var end := Clamp(start + queryChunk, queries);
      for q := start to end
        invariant |out| == q
        invariant forall p: nat :: p < q ==> Exact(rows(p), out[p], k) && SENTINEL !in out[p]
      {
        var best := QueryTopk(rows(q), k, baseChunk, choose);
        out := out + [best];
      }
      start := end;
    }
  }

  // ---------- the distances are determined ----------

  lemma BagOfPrefix(s: seq<Item>, t: seq<Item>, i: nat)
    requires i < |s| && i < |t| && Sorted(s, Nearer) && Sorted(t, Nearer) && Nearer(s[i], t[i])
    ensures !(multiset(s[..i + 1]) <= multiset(t))
  {
    Orderings();
    var p, low, high := s[..i + 1], t[..i], t[i..];
    assert t == low + high;
    if multiset(p) <= multiset(t) {
      forall z | z in multiset(p) ensures multiset(p)[z] <= multiset(low)[z] {
        assert z in p;
        var j :| 0 <= j < |p| && p[j] == z;
        assert j < i ==> !Nearer(s[i], s[j]);
        assert forall m :: 0 <= m < |high| ==> high[m] == t[i + m];
        assert z !in high;
        assert multiset(t) == multiset(low) + multiset(high);
      }
      SubBagSize(multiset(p), multiset(low));
    }
  }

  lemma LeftOutIsNoNearer(all: multiset<Item>, s: seq<Item>, t: seq<Item>, k: nat, i: nat, z: Item)
    requires multiset(s) <= all && KSmallest(all, multiset(t), k, Nearer)
    requires Sorted(s, Nearer) && |s| == |t| && i < |s|
    requires z in s[..i + 1] && multiset(s[..i + 1])[z] > multiset(t)[z]
    ensures !Nearer(s[i], t[i])
  {
    assert !Nearer(s[i], s[i]);
    hide Nearer;
    ExtraIsLeftOut(all, s, t, i, z);
    assert t[i] in multiset(t);
    assert !Nearer(z, t[i]);
    var p := s[..i + 1];
    var j :| 0 <= j < |p| && p[j] == z;
    hide KSmallest;
    assert !Nearer(s[i], s[j]) by {
      assert j < i ==> !Nearer(s[i], s[j]);
    }
    NoNearerTransitive(s[i], s[j], t[i]);
  }

  lemma ExtraIsLeftOut(all: multiset<Item>, s: seq<Item>, t: seq<Item>, i: nat, z: Item)
    requires multiset(s) <= all && i < |s| && multiset(s[..i + 1])[z] > multiset(t)[z]
    ensures z in all - multiset(t)
  {
    var p, q := s[..i + 1], s[i + 1..];
    assert s == p + q;
    assert multiset(s) == multiset(p) + multiset(q);
  }

  lemma NoNearerTransitive(a: Item, b: Item, c: Item)
    requires !Nearer(a, b) && !Nearer(b, c)
    ensures !Nearer(a, c)
  {
  }

  lemma NotNearerAt(all: multiset<Item>, s: seq<Item>, t: seq<Item>, k: nat, i: nat)
    requires KSmallest(all, multiset(s), k, Nearer) && KSmallest(all, multiset(t), k, Nearer)
    requires Sorted(s, Nearer) && Sorted(t, Nearer) && |s| == |t| && i < |s|
    ensures !Nearer(s[i], t[i])
  {
    Orderings();
    var p := s[..i + 1];
    if multiset(p) <= multiset(t) {
      if Nearer(s[i], t[i]) {
        BagOfPrefix(s, t, i);
      }
    } else {
      var z :| z in multiset(p) && multiset(p)[z] > multiset(t)[z];
      LeftOutIsNoNearer(all, s, t, k, i, z);
    }
  }

  /** Whatever the chunk sizes and the partition's choices, the distances come out the same. */
  lemma DistancesAgree(base: seq<Item>, s: seq<Item>, t: seq<Item>, k: nat, i: nat)
    requires Exact(base, s, k) && Exact(base, t, k) && Finite(base) && i < |s|
    ensures |s| == |t| && s[i].distance == t[i].distance
  {
    assert |multiset(s)| == |s| && |multiset(t)| == |t|;
    NotNearerAt(multiset(base), s, t, Clamp(k, |base|), i);
    NotNearerAt(multiset(base), t, s, Clamp(k, |base|), i);
    assert s[i] in multiset(s) && t[i] in multiset(t);
    FiniteBag(base);
  }

  // ---------- merging per-slice partials ----------

  /** `merge_topk_partials`: order every candidate by distance and id, take the first `k`. */
  function MergeTopkPartials(parts: seq<seq<Item>>, k: nat): seq<Item>
  {
    var all := Flatten(parts);
    Sort(all, Before)[..Clamp(k, |all|)]
  }

  /** The whole base in one slice, ordered by distance and id. */
  function GlobalTopk(base: seq<Item>, k: nat): seq<Item>
  {
    Sort(base, Before)[..Clamp(k, |base|)]
  }

  lemma PrefixIsBest(s: seq<Item>, k: nat, less: (Item, Item) -> bool)
    requires Sorted(s, less) && k <= |s|
    ensures KSmallest(multiset(s), multiset(s[..k]), k, less)
  {
    var low, high := s[..k], s[k..];
    assert s == low + high;
    assert multiset(s) == multiset(low) + multiset(high);
    assert multiset(s) - multiset(low) == multiset(high);
    forall x, y | x in multiset(low) && y in multiset(high) ensures !less(y, x) {
      LowBeforeHigh(s, k, less, x, y);
    }
  }

  lemma LowBeforeHigh(s: seq<Item>, k: nat, less: (Item, Item) -> bool, x: Item, y: Item)
    requires Sorted(s, less) && k <= |s| && x in s[..k] && y in s[k..]
    ensures !less(y, x)
  {
    var low, high := s[..k], s[k..];
    var i :| 0 <= i < |low| && low[i] == x;
    var j :| 0 <= j < |high| && high[j] == y;
    assert s[i] == x && s[k + j] == y;
  }

  /** Every partial is a best of its slice, in one order. */
  ghost predicate Partials(slices: seq<seq<Item>>, parts: seq<seq<Item>>, k: nat, less: (Item, Item) -> bool)
  {
    && |parts| == |slices|
    && forall j :: 0 <= j < |parts| ==> IsPartial(slices[j], parts[j], k, less)
  }

  ghost predicate IsPartial(slice: seq<Item>, part: seq<Item>, k: nat, less: (Item, Item) -> bool)
  {
    KSmallest(multiset(slice), multiset(part), Clamp(k, |slice|), less)
  }

  lemma {:induction false} PartIncluded(parts: seq<seq<Item>>, j: nat)
    requires j < |parts|
    ensures multiset(parts[j]) <= multiset(Flatten(parts))
    decreases |parts|
  {
    var n := |parts| - 1;
    assert multiset(Flatten(parts)) == multiset(Flatten(parts[..n])) + multiset(parts[n]);
    if j < n {
      PartIncluded(parts[..n], j);
    }
  }

  /** An item the slices hold more often than the partials was left out of some slice's partial. */
  lemma {:induction false} LeftOutSomewhere(slices: seq<seq<Item>>, parts: seq<seq<Item>>, y: Item) returns (j: nat)
    requires |parts| == |slices| && multiset(Flatten(slices))[y] > multiset(Flatten(parts))[y]
    ensures j < |slices| && multiset(slices[j])[y] > multiset(parts[j])[y]
    decreases |slices|
  {
    var n := |slices| - 1;
    assert multiset(Flatten(slices)) == multiset(Flatten(slices[..n])) + multiset(slices[n]);
    assert multiset(Flatten(parts)) == multiset(Flatten(parts[..n])) + multiset(parts[n]);
    if multiset(slices[n])[y] > multiset(parts[n])[y] {
      j := n;
    } else {
      j := LeftOutSomewhere(slices[..n], parts[..n], y);
    }
  }

  lemma {:induction false} PartsWithin(slices: seq<seq<Item>>, parts: seq<seq<Item>>)
    requires |parts| == |slices| && forall j :: 0 <= j < |parts| ==> multiset(parts[j]) <= multiset(slices[j])
    ensures multiset(Flatten(parts)) <= multiset(Flatten(slices))
    decreases |slices|
  {
    if slices != [] {
      var n := |slices| - 1;
      PartsWithin(slices[..n], parts[..n]);
      assert multiset(Flatten(slices)) == multiset(Flatten(slices[..n])) + multiset(slices[n]);
      assert multiset(Flatten(parts)) == multiset(Flatten(parts[..n])) + multiset(parts[n]);
    }
  }

  /** A slice that left something out filled its partial. */
  lemma FullPartial(slice: seq<Item>, part: seq<Item>, k: nat, less: (Item, Item) -> bool, y: Item)
    requires IsPartial(slice, part, k, less) && multiset(slice)[y] > multiset(part)[y]
    ensures |part| == k
  {
    SubBagSize(multiset(part), multiset(slice));
    assert |multiset(part)| == |part| && |multiset(slice)| == |slice|;
    assert multiset(part) != multiset(slice);
  }

  /** A best of all partials together is a best of all slices together. */
  lemma PartialsSuffice(
    slices: seq<seq<Item>>, parts: seq<seq<Item>>, k: nat, less: (Item, Item) -> bool, best: multiset<Item>)
    requires StrictWeakOrder(less) && Partials(slices, parts, k, less)
    requires KSmallest(multiset(Flatten(parts)), best, Clamp(k, |Flatten(parts)|), less)
    ensures KSmallest(multiset(Flatten(slices)), best, Clamp(k, |Flatten(slices)|), less)
  {
    var whole, some := multiset(Flatten(slices)), multiset(Flatten(parts));
    assert |whole| == |Flatten(slices)| && |some| == |Flatten(parts)|;
    forall j | 0 <= j < |parts| ensures multiset(parts[j]) <= multiset(slices[j]) {
      assert IsPartial(slices[j], parts[j], k, less);
    }
    PartsWithin(slices, parts);
    SubBagSize(some, whole);
    if some != whole {
      var y :| y in whole && whole[y] > some[y];
      var j := LeftOutSomewhere(slices, parts, y);
      FullPartial(slices[j], parts[j], k, less, y);
      PartIncluded(parts, j);
      SubBagSize(multiset(parts[j]), some);
      assert |multiset(parts[j])| == k;
    }
    forall x, y | x in best && y in whole - best ensures !less(y, x) {
      LeftOutIsLater(slices, parts, k, less, best, x, y);
    }
  }

  lemma LeftOutIsLater(
    slices: seq<seq<Item>>, parts: seq<seq<Item>>, k: nat, less: (Item, Item) -> bool, best: multiset<Item>, x: Item,
    y: Item)
    requires StrictWeakOrder(less) && Partials(slices, parts, k, less)
    requires KSmallest(multiset(Flatten(parts)), best, Clamp(k, |Flatten(parts)|), less)
    requires x in best && y in multiset(Flatten(slices)) - best
    ensures !less(y, x)
  {
    var some := multiset(Flatten(parts));
    if some[y] <= best[y] {
      var j := LeftOutSomewhere(slices, parts, y);
      assert IsPartial(slices[j], parts[j], k, less);
      PartIncluded(parts, j);
      var part := multiset(parts[j]);
      assert |multiset(slices[j])| == |slices[j]| && |some| == |Flatten(parts)|;
      assert part + (some - part) == some;
      LeftOutOfOneSide(multiset(slices[j]), part, some - part, best, k, less, x, y);
    } else {
      assert y in some - best;
    }
  }

  /** Merging per-slice answers gives an exact answer for all rows, by distance. */
  lemma MergedIsExact(slices: seq<seq<Item>>, parts: seq<seq<Item>>, k: nat)
    requires Partials(slices, parts, k, Nearer)
    ensures Exact(Flatten(slices), MergeTopkPartials(parts, k), k)
  {
    var all := Flatten(parts);
    var n := Clamp(k, |all|);
    var s := Sort(all, Before);
    Orderings();
    SortSorts(all, Before);
    forall i, j | 0 <= i < j < |s| ensures !Nearer(s[j], s[i]) {
      assert !Before(s[j], s[i]);
    }
    hide Sort, Before;
    PrefixIsBest(s, n, Nearer);
    hide KSmallest;
    PartialsSuffice(slices, parts, k, Nearer, multiset(s[..n]));
  }

  /** No tie straddles the slice's cut: everything kept is strictly nearer than everything left out. */
  ghost predicate CleanCut(slice: seq<Item>, part: seq<Item>)
  {
    forall x, y :: x in multiset(part) && y in multiset(slice) - multiset(part) ==> Nearer(x, y)
  }

  lemma NothingToSwap(all: multiset<Item>, x: multiset<Item>, y: multiset<Item>, k: nat, a: Item, b: Item)
    requires KSmallest(all, x, k, Before) && KSmallest(all, y, k, Before)
    requires a in x && a in all - y && b in y && b in all - x
    ensures a == b
  {
    Orderings();
    assert !Before(a, b) && !Before(b, a);
  }

  /** The items of a best set in a total order are determined. */
  lemma BestIsUnique(all: multiset<Item>, x: multiset<Item>, y: multiset<Item>, k: nat)
    requires KSmallest(all, x, k, Before) && KSmallest(all, y, k, Before)
    ensures x == y
  {
    Orderings();
    if x <= y {
      SubBagSize(x, y);
    } else if y <= x {
      SubBagSize(y, x);
    } else {
      var a :| a in x && x[a] > y[a];
      var b :| b in y && y[b] > x[b];
      NothingToSwap(all, x, y, k, a, b);
    }
  }

  lemma SameHead(s: seq<Item>, t: seq<Item>)
    requires Sorted(s, Before) && Sorted(t, Before) && multiset(s) == multiset(t) && s != [] && t != []
    ensures s[0] == t[0]
  {
    Orderings();
    hide Before, StrictWeakOrder;
    assert s[0] in multiset(t) && t[0] in multiset(s);
    var i :| 0 <= i < |t| && t[i] == s[0];
    var j :| 0 <= j < |s| && s[j] == t[0];
    assert i > 0 ==> !Before(t[i], t[0]);
    assert j > 0 ==> !Before(s[j], s[0]);
  }

  lemma {:induction false} SortedBagUnique(s: seq<Item>, t: seq<Item>)
    requires Sorted(s, Before) && Sorted(t, Before) && multiset(s) == multiset(t)
    ensures s == t
    decreases |s|
  {
    hide Before;
    assert |s| == |multiset(s)| == |multiset(t)| == |t|;
    if s != [] {
      SameHead(s, t);
      SortedTail(s);
      SortedTail(t);
      hide Sorted;
      SortedBagUnique(s[1..], t[1..]);
      assert s == [s[0]] + s[1..] && t == [t[0]] + t[1..];
    }
  }

  lemma SortedTail(s: seq<Item>)
    requires Sorted(s, Before) && s != []
    ensures Sorted(s[1..], Before) && multiset(s[1..]) == multiset(s) - multiset{s[0]}
  {
    hide Before;
    assert s == [s[0]] + s[1..];
  }

  lemma GlobalIsBest(base: seq<Item>, k: nat)
    ensures Sorted(GlobalTopk(base, k), Before)
    ensures KSmallest(multiset(base), multiset(GlobalTopk(base, k)), Clamp(k, |base|), Before)
  {
    Orderings();
    hide Before;
    SortSorts(base, Before);
    PrefixIsBest(Sort(base, Before), Clamp(k, |base|), Before);
  }

  lemma MergedIsBestCandidates(parts: seq<seq<Item>>, k: nat)
    ensures var s := MergeTopkPartials(parts, k);
            && Sorted(s, Before) && multiset(s) <= multiset(Flatten(parts))
            && KSmallest(multiset(Flatten(parts)), multiset(s), Clamp(k, |Flatten(parts)|), Before)
  {
    hide Sort, Sorted, Before;
    GlobalIsBest(Flatten(parts), k);
    assert MergeTopkPartials(parts, k) == GlobalTopk(Flatten(parts), k);
  }

  /** When no tie straddles any slice's cut, the merged answer is the global answer by distance and
      id, item for item: the slicing does not show. */
  lemma MergedIsGlobal(slices: seq<seq<Item>>, parts: seq<seq<Item>>, k: nat)
    requires Partials(slices, parts, k, Nearer)
    requires forall j :: 0 <= j < |parts| ==> CleanCut(slices[j], parts[j])
    ensures MergeTopkPartials(parts, k) == GlobalTopk(Flatten(slices), k)
  {
    Orderings();
    forall j | 0 <= j < |parts| ensures IsPartial(slices[j], parts[j], k, Before) {
      assert IsPartial(slices[j], parts[j], k, Nearer) && CleanCut(slices[j], parts[j]);
    }
    hide Sort, KSmallest, Sorted, Before, Nearer, StrictWeakOrder, Flatten, IsPartial, MergeTopkPartials, GlobalTopk;
    var base := Flatten(slices);
    var s, t := MergeTopkPartials(parts, k), GlobalTopk(base, k);
    MergedIsBestCandidates(parts, k);
    GlobalIsBest(base, k);
    assert Partials(slices, parts, k, Before);
    PartialsSuffice(slices, parts, k, Before, multiset(s));
    BestIsUnique(multiset(base), multiset(s), multiset(t), Clamp(k, |base|));
    SortedBagUnique(s, t);
  }

  /** At least `k` candidates of the partials are not after the item. */
  ghost predicate Crowded(parts: seq<seq<Item>>, k: nat, y: Item)
  {
    exists s :: IsCrowd(multiset(Flatten(parts)), s, k, y)
  }

  ghost predicate IsCrowd(all: multiset<Item>, s: multiset<Item>, k: nat, y: Item)
  {
    s <= all && |s| == k && forall x :: x in s ==> !Before(y, x)
  }

  /** Every item a slice left out has `k` candidates not after it. */
  ghost predicate NothingMissed(slices: seq<seq<Item>>, parts: seq<seq<Item>>, k: nat)
    requires |slices| == |parts|
  {
    forall j, y :: 0 <= j < |slices| && y in multiset(slices[j]) - multiset(parts[j]) ==> Crowded(parts, k, y)
  }

  lemma {:induction false} LeftOutOfAll(slices: seq<seq<Item>>, parts: seq<seq<Item>>, j: nat, y: Item)
    requires |parts| == |slices| && (forall i :: 0 <= i < |parts| ==> multiset(parts[i]) <= multiset(slices[i]))
    requires j < |slices| && multiset(slices[j])[y] > multiset(parts[j])[y]
    ensures multiset(Flatten(slices))[y] > multiset(Flatten(parts))[y]
    decreases |slices|
  {
    var n := |slices| - 1;
    assert multiset(Flatten(slices)) == multiset(Flatten(slices[..n])) + multiset(slices[n]);
    assert multiset(Flatten(parts)) == multiset(Flatten(parts[..n])) + multiset(parts[n]);
    if j < n {
      LeftOutOfAll(slices[..n], parts[..n], j, y);
    } else {
      PartsWithin(slices[..n], parts[..n]);
    }
  }

  /** Nothing in the best is after an item that `k` candidates are not after. */
  lemma CrowdKeepsOut(all: multiset<Item>, best: multiset<Item>, k: nat, y: Item, s: multiset<Item>, x: Item)
    requires KSmallest(all, best, k, Before) && IsCrowd(all, s, k, y) && x in best
    ensures !Before(y, x)
  {
    Orderings();
    if s <= best {
      SubBagSize(s, best);
    } else {
      var z :| z in s && s[z] > best[z];
      assert z in all - best;
      assert !Before(y, z) && !Before(z, x);
    }
  }

  /** If nothing was missed, a best of the candidates by distance and id is a best of all rows. */
  lemma NothingMissedSuffices(slices: seq<seq<Item>>, parts: seq<seq<Item>>, k: nat, best: multiset<Item>)
    requires Partials(slices, parts, k, Nearer) && NothingMissed(slices, parts, k)
    requires KSmallest(multiset(Flatten(parts)), best, Clamp(k, |Flatten(parts)|), Before)
    requires KSmallest(multiset(Flatten(slices)), best, Clamp(k, |Flatten(slices)|), Nearer)
    ensures KSmallest(multiset(Flatten(slices)), best, Clamp(k, |Flatten(slices)|), Before)
  {
    var whole, some := multiset(Flatten(slices)), multiset(Flatten(parts));
    assert |some| == |Flatten(parts)|;
    forall x, y | x in best && y in whole - best ensures !Before(y, x) {
      if some[y] <= best[y] {
        var j := LeftOutSomewhere(slices, parts, y);
        assert y in multiset(slices[j]) - multiset(parts[j]);
        assert Crowded(parts, k, y);
        var s :| IsCrowd(some, s, k, y);
        SubBagSize(s, some);
        CrowdKeepsOut(some, best, k, y, s, x);
      } else {
        assert y in some - best;
      }
    }
  }

  /** A best of all rows drawn from the candidates crowds out every item a slice left out. */
  lemma BestCrowds(slices: seq<seq<Item>>, parts: seq<seq<Item>>, k: nat, best: multiset<Item>, j: nat, y: Item)
    requires Partials(slices, parts, k, Nearer) && best <= multiset(Flatten(parts))
    requires KSmallest(multiset(Flatten(slices)), best, Clamp(k, |Flatten(slices)|), Before)
    requires j < |slices| && y in multiset(slices[j]) - multiset(parts[j])
    ensures Crowded(parts, k, y)
  {
    forall i | 0 <= i < |parts| ensures multiset(parts[i]) <= multiset(slices[i]) {
      assert IsPartial(slices[i], parts[i], k, Nearer);
    }
    assert IsPartial(slices[j], parts[j], k, Nearer);
    FullPartial(slices[j], parts[j], k, Nearer, y);
    PartIncluded(slices, j);
    SubBagSize(multiset(parts[j]), multiset(slices[j]));
    SubBagSize(multiset(slices[j]), multiset(Flatten(slices)));
    assert |multiset(parts[j])| == k && |multiset(Flatten(slices))| == |Flatten(slices)|;
    LeftOutOfAll(slices, parts, j, y);
    assert y in multiset(Flatten(slices)) - best;
    assert IsCrowd(multiset(Flatten(parts)), best, k, y);
  }

  /** Exactly when the merged answer is the global one: if and only if every item a slice left out
      has `k` candidates among the partials that are not after it by distance and id. */
  lemma MergedIsGlobalExactly(slices: seq<seq<Item>>, parts: seq<seq<Item>>, k: nat)
    requires Partials(slices, parts, k, Nearer)
    ensures MergeTopkPartials(parts, k) == GlobalTopk(Flatten(slices), k) <==> NothingMissed(slices, parts, k)
  {
    hide Sort, KSmallest, Sorted, Before, Nearer, Flatten, IsPartial, Crowded, MergeTopkPartials, GlobalTopk;
    var base := Flatten(slices);
    var n := Clamp(k, |base|);
    var s, t := MergeTopkPartials(parts, k), GlobalTopk(base, k);
    MergedIsBestCandidates(parts, k);
    GlobalIsBest(base, k);
    MergedIsExact(slices, parts, k);
    if NothingMissed(slices, parts, k) {
      NothingMissedSuffices(slices, parts, k, multiset(s));
      BestIsUnique(multiset(base), multiset(s), multiset(t), n);
      SortedBagUnique(s, t);
    }
    if s == t {
      forall j, y | 0 <= j < |slices| && y in multiset(slices[j]) - multiset(parts[j]) ensures Crowded(parts, k, y) {
        BestCrowds(slices, parts, k, multiset(s), j, y);
      }
    }
  }

  /** With a tie at a slice's cut the ids may differ from the global answer: the slice kept the larger id. */
  lemma TieAtCutShows()
    ensures var slice, part := [Item(Fin(1.0), 1), Item(Fin(1.0), 2)], [Item(Fin(1.0), 2)];
            && Partials([slice], [part], 1, Nearer) && !CleanCut(slice, part)
            && MergeTopkPartials([part], 1) != GlobalTopk(slice, 1)
  {
    var a, b := Item(Fin(1.0), 1), Item(Fin(1.0), 2);
    var slice, part := [a, b], [b];
    assert Nearer(a, b) == Nearer(b, a) == false && Before(a, b);
    TwoSorted(a, b);
    hide Nearer, Before, Sort;
    assert multiset(slice) == multiset{a, b} && multiset(part) == multiset{b};
    assert multiset(slice) - multiset(part) == multiset{a};
    assert IsPartial(slice, part, 1, Nearer);
    assert b in multiset(part) && a in multiset(slice) - multiset(part);
    assert [part][..0] == [] && Flatten([part]) == part;
    assert MergeTopkPartials([part], 1)[0] == b && GlobalTopk(slice, 1)[0] == a;
  }

  lemma TwoSorted(a: Item, b: Item)
    requires Before(a, b)
    ensures Sort([b], Before) == [b] && Sort([a, b], Before) == [a, b]
  {
    Orderings();
    hide Before, StrictWeakOrder;
    assert !Before(b, a);
    SortIdentity([b], Before);
    SortIdentity([a, b], Before);
  }

  // ---------- in distances ----------

  /** Plain numbers: `a` is no farther than `b`. */
  predicate NoFarther(a: Item, b: Item)
  {
    a.distance.Fin? && b.distance.Fin? && a.distance.value <= b.distance.value
  }

  /** Plain numbers: `a` is nearer than `b`, or as near with no larger id. */
  predicate Ahead(a: Item, b: Item)
  {
    && a.distance.Fin? && b.distance.Fin?
    && (a.distance.value < b.distance.value || (a.distance.value == b.distance.value && a.id <= b.id))
  }

  lemma OrdersInNumbers(a: Item, b: Item)
    requires a.distance.Fin? && b.distance.Fin?
    ensures !Nearer(b, a) <==> NoFarther(a, b)
    ensures !Before(b, a) <==> Ahead(a, b)
  {
  }

  /** Some of the rows, and as many as asked for and available. */
  ghost predicate Drawn(base: seq<Item>, out: seq<Item>, k: nat)
  {
    multiset(out) <= multiset(base) && |out| == if k < |base| then k else |base|
  }

  lemma DrawnIsFinite(base: seq<Item>, out: seq<Item>, k: nat, i: nat)
    requires Drawn(base, out, k) && Finite(base) && i < |out|
    ensures out[i] in base && out[i].distance.Fin?
  {
    assert out[i] in multiset(out);
    FiniteBag(base);
  }

  lemma BestIsDrawn(base: seq<Item>, out: seq<Item>, k: nat, less: (Item, Item) -> bool)
    requires KSmallest(multiset(base), multiset(out), Clamp(k, |base|), less)
    ensures Drawn(base, out, k)
  {
    assert |multiset(out)| == |out|;
  }

  /** An exact answer in plain numbers: drawn from the rows, nearest first, and nothing left out is
      nearer than anything kept. */
  lemma ExactInDistances(base: seq<Item>, out: seq<Item>, k: nat, i: nat, j: nat, y: Item)
    requires Exact(base, out, k) && Finite(base)
    ensures Drawn(base, out, k)
    ensures i < j < |out| ==> NoFarther(out[i], out[j])
    ensures i < |out| && y in multiset(base) - multiset(out) ==> NoFarther(out[i], y)
  {
    BestIsDrawn(base, out, k, Nearer);
    FiniteBag(base);
    if i < |out| {
      DrawnIsFinite(base, out, k, i);
      assert out[i] in multiset(out);
      if j < |out| {
        DrawnIsFinite(base, out, k, j);
        OrdersInNumbers(out[i], out[j]);
      }
      if y in multiset(base) - multiset(out) {
        assert y in multiset(base);
        OrdersInNumbers(out[i], y);
      }
    }
  }

  /** The merged answer in plain numbers, with ascending ids on equal distances. */
  lemma MergedInDistances(slices: seq<seq<Item>>, parts: seq<seq<Item>>, k: nat, i: nat, j: nat, y: Item)
    requires Partials(slices, parts, k, Nearer) && Finite(Flatten(slices))
    ensures var base, out := Flatten(slices), MergeTopkPartials(parts, k);
            && Drawn(base, out, k)
            && (i < j < |out| ==> Ahead(out[i], out[j]))
            && (i < |out| && y in multiset(base) - multiset(out) ==> NoFarther(out[i], y))
  {
    var base, out := Flatten(slices), MergeTopkPartials(parts, k);
    MergedIsExact(slices, parts, k);
    MergedIsBestCandidates(parts, k);
    ExactInDistances(base, out, k, i, j, y);
    hide Exact, Flatten, MergeTopkPartials, KSmallest, Partials, Drawn, Before, Ahead;
    if i < j < |out| {
      DrawnIsFinite(base, out, k, i);
      DrawnIsFinite(base, out, k, j);
      OrdersInNumbers(out[i], out[j]);
    }
  }

  /** The global answer in plain numbers, ids included. */
  lemma GlobalInDistances(base: seq<Item>, k: nat, i: nat, j: nat, y: Item)
    requires Finite(base)
    ensures var out := GlobalTopk(base, k);
            && Drawn(base, out, k)
            && (i < j < |out| ==> Ahead(out[i], out[j]))
            && (i < |out| && y in multiset(base) - multiset(out) ==> Ahead(out[i], y))
  {
    var out := GlobalTopk(base, k);
    GlobalIsBest(base, k);
    BestIsDrawn(base, out, k, Before);
    FiniteBag(base);
    hide GlobalTopk, Before, Ahead;
    if i < |out| {
      DrawnIsFinite(base, out, k, i);
      assert out[i] in multiset(out);
      if j < |out| {
        DrawnIsFinite(base, out, k, j);
        OrdersInNumbers(out[i], out[j]);
      }
      if y in multiset(base) - multiset(out) {
        assert y in multiset(base);
        OrdersInNumbers(out[i], y);
      }
    }
  }
}
