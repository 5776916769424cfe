/** Dataset discovery of `src/lance_etl/cloud_storage.py` over a directory tree. A path is its list
    of components below the base. */
module Discovery {
  import opened Wrappers
  import opened Orders
  import Mutation
  import Texts

  type Path = seq<string>

  datatype Kind = File | Directory

  /** Every entry below the base. A base that does not exist lists nothing. */
  type Tree = map<Path, Kind>

  ghost predicate TreeShaped(t: Tree)
  {
    forall p :: p in t ==> p != [] && Nested(t, p)
  }

  ghost predicate Nested(t: Tree, p: Path)
  {
    forall n :: 0 < n < |p| ==> p[..n] in t && t[p[..n]] == Directory
  }

  predicate IsLance(component: string)
  {
    |component| >= 6 && component[|component| - 6..] == ".lance"
  }

  /** A directory named `*.lance` with no such directory above it. */
  ghost predicate Outermost(t: Tree, p: Path)
  {
    && p in t && t[p] == Directory && p != [] && IsLance(p[|p| - 1])
    && forall i :: 0 <= i < |p| - 1 ==> !IsLance(p[i])
  }

  /** The dataset root an entry collapses to. */
  ghost predicate RootAt(p: Path, kind: Kind, d: int)
  {
    && 0 <= d < |p| && IsLance(p[d]) && (d < |p| - 1 || kind == Directory)
    && forall i :: 0 <= i < d ==> !IsLance(p[i])
  }

  /** The scan of one entry's components, stopping at the first root. */
  method RootOf(p: Path, kind: Kind) returns (r: Option<Path>)
    ensures r.Some? ==> exists d :: RootAt(p, kind, d) && r.value == p[..d + 1]
    ensures r.None? ==> forall d :: !RootAt(p, kind, d)
  {
    for depth := 0 to |p|
      invariant forall i :: 0 <= i < depth ==> !(IsLance(p[i]) && (i < |p| - 1 || kind == Directory))
    {
      if IsLance(p[depth]) && (depth < |p| - 1 || kind == Directory) {
        assert RootAt(p, kind, depth);
        return Some(p[..depth + 1]);
      }
    }
    return None;
  }

  lemma RootIsOutermost(t: Tree, p: Path, d: int)
    requires TreeShaped(t) && p in t && RootAt(p, t[p], d)
    ensures Outermost(t, p[..d + 1])
  {
    assert Nested(t, p);
    if d == |p| - 1 {
      assert p[..d + 1] == p;
    }
  }

  /** An entry below an outermost root, or the root itself, collapses to that root. */
  lemma EntryFindsRoot(t: Tree, p: Path, r: Path)
    requires p in t && Outermost(t, r) && r <= p
    ensures RootAt(p, t[p], |r| - 1)
  {
    assert forall i :: 0 <= i < |r| ==> r[i] == p[i];
    assert |r| == |p| ==> r == p;
  }

  ghost predicate Listed(t: Tree, sub: Path, r: Path)
  {
    exists p :: p in t && sub < p && r <= p
  }

  /** `list_dataset_paths`: the outermost roots met by the listing below `sub`. */
  method ListDatasetPaths(t: Tree, sub: Path) returns (found: set<Path>)
    requires TreeShaped(t)
    ensures forall r :: r in found <==> Outermost(t, r) && Listed(t, sub, r)
  {
    found := {};
    var todo := set p | p in t && sub < p;
    ghost var all := todo;
    while todo != {}
      invariant todo <= all
      invariant forall r :: r in found ==> Outermost(t, r) && Listed(t, sub, r)
      invariant forall p, d :: p in all && p !in todo && RootAt(p, t[p], d) ==> p[..d + 1] in found
      decreases |todo|
    {
      var p :| p in todo;
      var root := RootOf(p, t[p]);
      if root.Some? {
        ghost var d :| RootAt(p, t[p], d) && root.value == p[..d + 1];
        RootIsOutermost(t, p, d);
        assert Listed(t, sub, root.value);
        forall e | RootAt(p, t[p], e) ensures p[..e + 1] == root.value {
          OneRoot(p, t[p], d, e);
        }
        found := found + {root.value};
      }
      todo := todo - {p};
    }
    forall r | Outermost(t, r) && Listed(t, sub, r) ensures r in found {
      var p :| p in t && sub < p && r <= p;
      EntryFindsRoot(t, p, r);
      assert p in all && p[..|r| - 1 + 1] == r;
    }
  }

  lemma OneRoot(p: Path, kind: Kind, d: int, e: int)
    requires RootAt(p, kind, d) && RootAt(p, kind, e)
    ensures d == e
  {
  }

  // ---------- driver walk and fan-out ----------

  ghost predicate IsResult(t: Tree, found: set<Path>)
  {
    forall r :: r in found <==> Outermost(t, r)
  }

  method DriverWalk(t: Tree) returns (found: set<Path>)
    requires TreeShaped(t)
    ensures IsResult(t, found)
  {
    found := ListDatasetPaths(t, []);
    forall r | Outermost(t, r) ensures Listed(t, [], r) {
      assert [] < r && r <= r;
    }
  }

  /** One listing of the first level, then one listing per directory that is not a dataset. */
  method FanOut(t: Tree) returns (found: set<Path>)
    requires TreeShaped(t)
    ensures IsResult(t, found)
  {
    var top := set p | p in t && |p| == 1;
    found := set p | p in top && IsLance(p[0]) && t[p] == Directory;
    var prefixes := set p | p in top && !IsLance(p[0]) && t[p] == Directory;
    ghost var direct, all, done := found, prefixes, {};
    assert forall r :: !Reached(t, done, r);
    while prefixes != {}
      invariant prefixes !! done && prefixes + done == all
      invariant forall r :: r in found <==> r in direct || (Outermost(t, r) && Reached(t, done, r))
      decreases |prefixes|
    {
      var p :| p in prefixes;
      var more := ListDatasetPaths(t, p);
      ReachedMore(t, done, p);
      hide Outermost, Listed, Reached;
      found := found + more;
      prefixes, done := prefixes - {p}, done + {p};
    }
    assert done == all;
    forall r ensures r in found <==> Outermost(t, r) {
      FanOutFinds(t, direct, all, r);
    }
  }

  /** Some prefix of the set lists the root. */
  ghost predicate Reached(t: Tree, prefixes: set<Path>, r: Path)
  {
    exists p :: p in prefixes && Listed(t, p, r)
  }

  lemma ReachedMore(t: Tree, prefixes: set<Path>, p: Path)
    ensures forall r :: Reached(t, prefixes + {p}, r) <==> Reached(t, prefixes, r) || Listed(t, p, r)
  {
    hide Listed;
  }

  /** The first level and the listings of its other directories together reach every root. */
  lemma FanOutFinds(t: Tree, direct: set<Path>, prefixes: set<Path>, r: Path)
    requires TreeShaped(t)
    requires forall p :: p in direct <==> p in t && |p| == 1 && IsLance(p[0]) && t[p] == Directory
    requires forall p :: p in prefixes <==> p in t && |p| == 1 && !IsLance(p[0]) && t[p] == Directory
    ensures r in direct || (Outermost(t, r) && Reached(t, prefixes, r)) <==> Outermost(t, r)
  {
    hide IsLance;
    if Outermost(t, r) && |r| > 1 {
      var p := r[..1];
      assert Nested(t, r);
      assert p[0] == r[0] && p in prefixes;
      assert p < r && Listed(t, p, r);
    }
  }

  /** The path below the root, joined with slashes. */
  function Render(root: string, p: Path): string
  {
    if p == [] then root else Render(root, p[..|p| - 1]) + "/" + p[|p| - 1]
  }

  /** `discover_datasets`, with or without a cluster. */
  method DiscoverDatasets(t: Tree, root: string, clustered: bool) returns (uris: seq<string>)
    requires TreeShaped(t)
    ensures StrictlySorted(uris, Mutation.TextLess)
    ensures forall u :: u in uris <==> exists p :: Outermost(t, p) && u == Render(root, p)
  {
    var found: set<Path>;
    if clustered {
      found := FanOut(t);
    } else {
      found := DriverWalk(t);
    }
    uris := Texts.SortTexts(set p | p in found :: Render(root, p));
  }

  /** The two ways of discovering return the same list. */
  lemma SameDiscovery(t: Tree, root: string, a: seq<string>, b: seq<string>)
    requires StrictlySorted(a, Mutation.TextLess) && StrictlySorted(b, Mutation.TextLess)
    requires forall u :: u in a <==> exists p :: Outermost(t, p) && u == Render(root, p)
    requires forall u :: u in b <==> exists p :: Outermost(t, p) && u == Render(root, p)
    ensures a == b
  {
    Texts.TextOrder();
    assert forall u :: u in a <==> u in b;
    hide Outermost, Render, Mutation.TextLess;
    StrictlySortedUnique(a, b, Mutation.TextLess);
  }

  // ---------- names ----------

  /** Exactly the names that end in `.lance`. */
  lemma LanceNames(component: string)
    ensures IsLance(component) <==> exists stem :: component == stem + ".lance"
  {
    if IsLance(component) {
      var n := |component| - 6;
      assert component == component[..n] + ".lance";
    }
    if stem :| component == stem + ".lance" {
      assert component[|component| - 6..] == ".lance";
    }
  }

  /** The base, a slash and the first component; and further components in the same way. */
  lemma {:induction false} RenderedInOrder(root: string, p: Path, q: Path)
    ensures Render(root, []) == root
    ensures |p| == 1 ==> Render(root, p) == root + "/" + p[0]
    ensures Render(root, p + q) == Render(Render(root, p), q)
    decreases |q|
  {
    if |p| == 1 {
      assert p[..0] == [];
    }
    if q == [] {
      assert p + q == p;
    } else {
      RenderedInOrder(root, p, q[..|q| - 1]);
      assert (p + q)[..|p + q| - 1] == p + q[..|q| - 1];
    }
  }

  predicate NoSlash(s: string)
  {
    forall i :: 0 <= i < |s| ==> s[i] != '/'
  }

  lemma LastSlash(x: string, c: string, y: string, d: string)
    requires NoSlash(c) && NoSlash(d) && x + "/" + c == y + "/" + d
    ensures x == y && c == d
  {
    var s := x + "/" + c;
    assert s[|x|] == '/' && s[|y|] == '/';
    assert forall p :: |x| < p < |s| ==> s[p] == c[p - |x| - 1];
    assert forall p :: |y| < p < |s| ==> s[p] == d[p - |y| - 1];
    assert x == s[..|x|] && y == s[..|y|];
    assert c == s[|x| + 1..] && d == s[|y| + 1..];
  }

  lemma {:induction false} RenderLonger(root: string, p: Path)
    ensures |Render(root, p)| >= |root| + |p|
    decreases |p|
  {
    if p != [] {
      RenderLonger(root, p[..|p| - 1]);
    }
  }

  /** Distinct paths of slash-free components have distinct addresses. */
  lemma {:induction false} RenderedApart(root: string, p: Path, q: Path)
    requires (forall i :: 0 <= i < |p| ==> NoSlash(p[i])) && (forall i :: 0 <= i < |q| ==> NoSlash(q[i]))
    requires Render(root, p) == Render(root, q)
    ensures p == q
    decreases |p|
  {
    RenderLonger(root, p);
    RenderLonger(root, q);
    if p != [] && q != [] {
      var a, b := p[..|p| - 1], q[..|q| - 1];
      LastSlash(Render(root, a), p[|p| - 1], Render(root, b), q[|q| - 1]);
      RenderedApart(root, a, b);
      assert p == a + [p[|p| - 1]] && q == b + [q[|q| - 1]];
    }
  }
}
