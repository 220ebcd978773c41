/** Sizes of finite sets, for the pigeonhole arguments. */
module Counting {
  ghost function Range(n: nat): (r: set<int>)
    ensures forall i :: i in r <==> 0 <= i < n
    ensures |r| == n
  {
    if n == 0 then {} else
    var below := Range(n - 1);
    assert n - 1 !in below;
    below + {n - 1}
  }

  /** A subset of `0..n` has all `n` elements iff nothing is missing. */
  lemma FillsRange(xs: set<int>, n: nat)
    requires xs <= Range(n)
    ensures |xs| <= n
    ensures |xs| == n <==> xs == Range(n)
  {
    var rest := Range(n) - xs;
    assert xs + rest == Range(n);
    assert |xs + rest| == |xs| + |rest|;
    assert |rest| == 0 <==> rest == {};
  }

  /** An injective map has as many values as keys. */
  lemma {:induction false} InjectiveSize<A, B>(m: map<A, B>)
    requires forall x, y :: x in m && y in m && m[x] == m[y] ==> x == y
    ensures |m.Keys| == |m.Values|
  {
    if m.Keys == {} {
      assert m.Values == {};
    } else {
      var k :| k in m;
      var rest := m - {k};
      assert rest.Keys == m.Keys - {k};
      assert rest.Values == m.Values - {m[k]} by {
        forall v | v in m.Values && v != m[k] ensures v in rest.Values {
          var x :| x in m && m[x] == v;
          assert x in rest;
        }
      }
      InjectiveSize(rest);
    }
  }

  /** Maps inverse to each other have the same size. */
  lemma InverseSize<A, B>(m: map<A, B>, g: map<B, A>)
    requires forall x :: x in m ==> m[x] in g && g[m[x]] == x
    requires forall y :: y in g ==> g[y] in m && m[g[y]] == y
    ensures |m.Keys| == |g.Keys|
  {
    InjectiveSize(m);
    forall y | y in g ensures y in m.Values {
      assert m[g[y]] == y;
    }
    assert m.Values == g.Keys;
  }
}
