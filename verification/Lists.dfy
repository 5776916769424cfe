/** Lists of lists, flattened in order. */
module Lists {

  function Flatten<T>(p: seq<seq<T>>): seq<T>
  {
    if p == [] then [] else Flatten(p[..|p| - 1]) + p[|p| - 1]
  }

  lemma FlattenLast<T>(p: seq<seq<T>>)
    requires p != []
    ensures Flatten(p) == Flatten(p[..|p| - 1]) + p[|p| - 1]
  {
  }

  lemma FlattenOne<T>(x: seq<T>)
    ensures Flatten([x]) == x
  {
    assert [x][..0] == [];
  }

  lemma {:induction false} FlattenSplit<T>(a: seq<seq<T>>, b: seq<seq<T>>)
    ensures Flatten(a + b) == Flatten(a) + Flatten(b)
    decreases |b|
  {
    if b == [] {
      assert a + b == a;
    } else {
      var front := b[..|b| - 1];
      FlattenSplit(a, front);
      assert (a + b)[..|a + b| - 1] == a + front;
    }
  }

  lemma FlattenAround<T>(head: seq<seq<T>>, x: seq<T>, tail: seq<seq<T>>)
    ensures Flatten(head + [x] + tail) == Flatten(head) + x + Flatten(tail)
  {
    FlattenOne(x);
    hide Flatten;
    FlattenSplit(head + [x], tail);
    FlattenSplit(head, [x]);
  }

  lemma FlattenNext<T>(p: seq<seq<T>>, i: nat)
    requires i < |p|
    ensures Flatten(p[..i + 1]) == Flatten(p[..i]) + p[i]
  {
    var q := p[..i + 1];
    assert q[..i] == p[..i] && q[i] == p[i];
  }

  lemma {:induction false} FlattenPrefix<T>(p: seq<seq<T>>, n: nat)
    requires n <= |p|
    ensures Flatten(p[..n]) <= Flatten(p)
    decreases |p| - n
  {
    if n < |p| {
      FlattenNext(p, n);
      FlattenPrefix(p, n + 1);
    } else {
      assert p[..n] == p;
    }
  }

  /** Every element of the flattened list is in one of the lists, */
  lemma {:induction false} Located<T>(p: seq<seq<T>>, x: T) returns (s: nat)
    requires x in Flatten(p)
    ensures s < |p| && x in p[s]
    decreases |p|
  {
    if x in p[|p| - 1] {
      s := |p| - 1;
    } else {
      s := Located(p[..|p| - 1], x);
    }
  }

  /** and the other way round. */
  lemma {:induction false} FlattenHas<T>(p: seq<seq<T>>, s: nat, x: T)
    requires s < |p| && x in p[s]
    ensures x in Flatten(p)
    decreases |p|
  {
    if s < |p| - 1 {
      FlattenHas(p[..|p| - 1], s, x);
    }
  }
}
