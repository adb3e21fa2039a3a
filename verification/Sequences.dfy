/** Sequences without repetition, the sets they list, and integer facts that several modules need. */
module Sequences {

  function Min(a: int, b: int): int { if a < b then a else b }

  function Max(a: int, b: int): int { if a < b then b else a }

  function Elems<T>(s: seq<T>): set<T> { set x | x in s }

  ghost predicate Distinct<T>(s: seq<T>) {
    forall i, j :: 0 <= i < j < |s| ==> s[i] != s[j]
  }

  lemma SetSizes<T>(a: set<T>, b: set<T>)
    requires a <= b
    ensures |a| <= |b|
    ensures |a| == |b| ==> a == b
  {
    assert b == a + (b - a);
    if |a| == |b| { assert b - a == {}; }
  }

  lemma ElemsSize<T>(s: seq<T>)
    requires Distinct(s)
    ensures |Elems(s)| == |s|
  {
    if s == [] {
      assert Elems(s) == {};
    } else {
      var n := |s| - 1;
      ElemsSize(s[..n]);
      assert s == s[..n] + [s[n]];
      assert Elems(s) == Elems(s[..n]) + {s[n]};
    }
  }

  /** Every finite set can be listed. */
  lemma OrderExists<T>(ids: set<T>) returns (order: seq<T>)
    ensures Distinct(order) && Elems(order) == ids
    decreases |ids|
  {
    if ids == {} {
      order := [];
    } else {
      var p :| p in ids;
      var rest := OrderExists(ids - {p});
      order := [p] + rest;
      assert p !in rest by { assert p !in Elems(rest); }
      assert Elems(order) == {p} + Elems(rest);
    }
  }

  lemma Quotient(k: nat, q: nat, divisor: nat)
    requires divisor > 0 && q * divisor <= k < q * divisor + divisor
    ensures k / divisor == q
  {
    var p := k / divisor;
    assert k == p * divisor + k % divisor;
    assert p < q ==> (p + 1) * divisor <= q * divisor;
    assert p > q ==> (q + 1) * divisor <= p * divisor;
  }
}
