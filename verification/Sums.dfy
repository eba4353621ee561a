/** Sums of sizes over finite sets. */
module Sums {

  ghost function Pick(S: set<int>): (p: int)
    requires |S| != 0
    ensures p in S
  {
    SomeMember(S);
    var p :| p in S; p
  }

  lemma SomeMember(S: set<int>)
    requires |S| != 0
    ensures exists p :: p in S
  {
    assert (forall p :: p !in S) ==> S == {};
  }

  /** The sizes of the members of S together. */
  ghost function Sum(size: map<int, int>, S: set<int>): int
    requires S <= size.Keys
    decreases |S|
  {
    if |S| == 0 then 0 else size[Pick(S)] + Sum(size, S - {Pick(S)})
  }

  lemma {:induction false} SumRemove(size: map<int, int>, S: set<int>, p: int)
    requires S <= size.Keys && p in S
    ensures Sum(size, S) == size[p] + Sum(size, S - {p})
    decreases |S|
  {
    var q := Pick(S);
    if p != q {
      SumRemove(size, S - {q}, p);
      SumRemove(size, S - {p}, q);
      assert S - {q} - {p} == S - {p} - {q};
    }
  }

  lemma SumAdd(size: map<int, int>, S: set<int>, p: int)
    requires S <= size.Keys && p in size && p !in S
    ensures Sum(size, S + {p}) == Sum(size, S) + size[p] && |S + {p}| == |S| + 1
  {
    SumRemove(size, S + {p}, p);
    assert S + {p} - {p} == S;
  }

  lemma {:induction false} SumUnion(size: map<int, int>, A: set<int>, B: set<int>)
    requires A <= size.Keys && B <= size.Keys && A !! B
    ensures Sum(size, A + B) == Sum(size, A) + Sum(size, B) && |A + B| == |A| + |B|
    decreases |B|
  {
    if |B| == 0 {
      assert A + B == A;
    } else {
      var p := Pick(B);
      SumUnion(size, A, B - {p});
      SumRemove(size, A + B, p);
      assert A + B - {p} == A + (B - {p});
    }
  }

  lemma {:induction false} SumSame(f: map<int, int>, g: map<int, int>, S: set<int>)
    requires S <= f.Keys && S <= g.Keys && forall p {:trigger f[p]} {:trigger g[p]} :: p in S ==> f[p] == g[p]
    ensures Sum(f, S) == Sum(g, S)
    decreases |S|
  {
    if |S| != 0 {
      SumSame(f, g, S - {Pick(S)});
    }
  }
}
