/** Python's string order as an order for sorting. */
module StringOrder {
  import opened Text
  import opened StableSort

  /** Python's string order is a total order, so sorting by it is well defined. */
  lemma StrLeTotalOrder()
    ensures TotalOrder(StrLe)
  {
    forall a: string ensures StrLe(a, a) { StrLeRefl(a); }
    forall a: string, b: string | StrLe(a, b) && StrLe(b, a) ensures a == b { StrLeAntisym(a, b); }
    forall a: string, b: string, c: string | StrLe(a, b) && StrLe(b, c) ensures StrLe(a, c) { StrLeTrans(a, b, c); }
    forall a: string, b: string ensures StrLe(a, b) || StrLe(b, a) { StrLeTotal(a, b); }
  }
}
