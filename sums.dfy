/**
 * Sums of integer weights over finite sets of row ids: the `sum(...)` of a
 * `values_list` taken over a many-to-many relation.
 */
module Sums {

  /** The sum of `w[k]` over the keys `k` in `s`. */
  ghost function SumOver(s: set<nat>, w: map<nat, nat>): nat
    requires s <= w.Keys
    decreases s
  {
    if s == {} then 0 else var k :| k in s; w[k] + SumOver(s - {k}, w)
  }

  /** The sum does not depend on which element is taken out first. */
  lemma {:induction false} SumOverRemove(s: set<nat>, w: map<nat, nat>, y: nat)
    requires s <= w.Keys && y in s
    ensures SumOver(s, w) == w[y] + SumOver(s - {y}, w)
    decreases s
  {
    var k :| k in s && SumOver(s, w) == w[k] + SumOver(s - {k}, w);
    if k != y {
      SumOverRemove(s - {k}, w, y);
      SumOverRemove(s - {y}, w, k);
      assert s - {k} - {y} == s - {y} - {k};
    }
  }

  /** A sum taken over a set depends only on the weights of its members. */
  lemma {:induction false} SumOverAgree(s: set<nat>, w1: map<nat, nat>, w2: map<nat, nat>)
    requires s <= w1.Keys && s <= w2.Keys
    requires forall k :: k in s ==> w1[k] == w2[k]
    ensures SumOver(s, w1) == SumOver(s, w2)
    decreases s
  {
    if s != {} {
      var k :| k in s;
      SumOverRemove(s, w1, k);
      SumOverRemove(s, w2, k);
      SumOverAgree(s - {k}, w1, w2);
    }
  }

  /** The sum over one element is that element's weight. */
  lemma SumOverSingleton(k: nat, w: map<nat, nat>)
    requires k in w
    ensures SumOver({k}, w) == w[k]
  {
    SumOverRemove({k}, w, k);
    assert {k} - {k} == {};
  }

  /** Every member's weight is bounded by the sum. */
  lemma SumOverBounds(s: set<nat>, w: map<nat, nat>, k: nat)
    requires s <= w.Keys && k in s
    ensures w[k] <= SumOver(s, w)
  {
    SumOverRemove(s, w, k);
  }

  /** Python's builtin `sum` over the weights of `ids`, one element at a time. */
  method SumOf(ids: set<nat>, w: map<nat, nat>) returns (total: nat)
    requires ids <= w.Keys
    ensures total == SumOver(ids, w)
  {
    total := 0;
    var rest := ids;
    while rest != {}
      invariant rest <= ids
      invariant total + SumOver(rest, w) == SumOver(ids, w)
      decreases rest
    {
      var k :| k in rest;
      SumOverRemove(rest, w, k);
      total := total + w[k];
      rest := rest - {k};
    }
  }
}
