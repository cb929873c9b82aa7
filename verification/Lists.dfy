/** Lists without repetitions, and the sizes of sets. */
module Lists {

  predicate Distinct(l: seq<nat>) {
    forall i, j | 0 <= i < j < |l| :: l[i] != l[j]
  }

  /** The list without x. */
  function Minus(l: seq<nat>, x: nat): seq<nat> {
    if l == [] then [] else if l[0] == x then l[1..] else [l[0]] + Minus(l[1..], x)
  }

  lemma {:induction false} MinusIn(l: seq<nat>, x: nat)
    requires Distinct(l)
    ensures Distinct(Minus(l, x)) && forall k :: k in Minus(l, x) <==> k in l && k != x
  {
    if l != [] {
      assert l == [l[0]] + l[1..];
      forall j | 0 <= j < |l[1..]| ensures l[1..][j] != l[0] {
        assert l[1..][j] == l[j+1];
      }
      if l[0] != x {
        MinusIn(l[1..], x);
        var m := Minus(l[1..], x);
        assert l[0] !in m;
        forall i, j | 0 <= i < j < |Minus(l, x)| ensures Minus(l, x)[i] != Minus(l, x)[j] {
          assert Minus(l, x)[j] == m[j-1] && (i > 0 ==> Minus(l, x)[i] == m[i-1]);
        }
      }
    }
  }

  lemma SubsetSize<T>(a: set<T>, b: set<T>)
    requires a <= b
    ensures |a| <= |b|
  {
    assert b == a + (b - a);
  }
}
