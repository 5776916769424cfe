/** Python's `sorted` on strings. */
module Texts {
  import opened Orders
  import opened Mutation

  lemma TextOrder()
    ensures StrictWeakOrder(TextLess)
  {
    hide TextLess;
    forall x: string, y: string ensures TextLess(x, y) ==> !TextLess(y, x) {
      TextTrichotomy(x, y);
    }
    forall x: string, y: string, z: string | !TextLess(x, y) && !TextLess(y, z) ensures !TextLess(x, z) {
      TextTransitive(z, y, x);
    }
  }

  /** `sorted` of a set of strings. */
  method SortTexts(texts: set<string>) returns (r: seq<string>)
    ensures StrictlySorted(r, TextLess) && forall t :: t in r <==> t in texts
  {
    r := [];
    var todo := texts;
    TextOrder();
    while todo != {}
      invariant todo <= texts
      invariant StrictlySorted(r, TextLess) && forall t :: t in r <==> t in texts && t !in todo
      decreases |todo|
    {
      var t :| t in todo;
      forall i | 0 <= i < |r| ensures TextLess(r[i], t) || TextLess(t, r[i]) {
        assert r[i] in r;
        TextTrichotomy(r[i], t);
      }
      InsertKeepsStrict(t, r, TextLess);
      var next := Insert(t, r, TextLess);
      assert forall x :: x in next <==> x in multiset(next);
      r := next;
      todo := todo - {t};
    }
  }
}
