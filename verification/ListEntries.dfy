/** Singly linked lists as sequences: what the chain of links spells out, and what putting a chunk in and
    taking one out does to it. */
module ListEntries {
  import opened Memory
  import opened Heap
  import opened RingProofs
  import opened ListProofs
  import opened Sums

  // ---------------------------------------------------------------- ordering a set by rank

  ghost function Rank(H: Heap, p: int): real {
    if p in H && (H[p].st.Listed? || H[p].st.Binned?) then H[p].st.r else 0.0
  }

  ghost predicate Lowest(H: Heap, S: set<int>, p: int) {
    p in S && forall q {:trigger q in S} :: q in S ==> Rank(H, p) <= Rank(H, q)
  }

  lemma {:induction false} HasLowest(H: Heap, S: set<int>)
    requires |S| != 0
    ensures exists p :: Lowest(H, S, p)
    decreases |S|
  {
    SomeMember(S);
    var p :| p in S;
    var T := S - {p};
    if |T| == 0 {
      assert Lowest(H, S, p);
    } else {
      HasLowest(H, T);
      var q :| Lowest(H, T, q);
      assert forall x {:trigger x in S} :: x in S && x != p ==> x in T;
      assert Lowest(H, S, if Rank(H, q) < Rank(H, p) then q else p);
    }
  }

  /** The members of S by rank. */
  ghost function ByRank(H: Heap, S: set<int>): seq<int>
    decreases |S|
  {
    if |S| == 0 then [] else
      HasLowest(H, S);
      var p :| Lowest(H, S, p);
      [p] + ByRank(H, S - {p})
  }

  ghost predicate Rising(H: Heap, L: seq<int>) {
    forall i, j {:trigger L[i], L[j]} :: 0 <= i < j < |L| ==> Rank(H, L[i]) < Rank(H, L[j])
  }

  ghost function Elems(L: seq<int>): set<int> {
    set x | x in L
  }

  /** L runs through just the members of S, in the order of their ranks. */
  ghost predicate Spells(H: Heap, S: set<int>, L: seq<int>) {
    Elems(L) == S && Rising(H, L)
  }

  ghost predicate Distinct(H: Heap, S: set<int>) {
    forall p, q {:trigger p in S, q in S} :: p in S && q in S && p != q ==> Rank(H, p) != Rank(H, q)
  }

  lemma {:induction false} ByRankSpells(H: Heap, S: set<int>)
    requires Distinct(H, S)
    ensures Spells(H, S, ByRank(H, S)) && |ByRank(H, S)| == |S|
    decreases |S|
  {
    hide Rank, Elems, Rising;
    var L := ByRank(H, S);
    if |S| == 0 {
      Single(H);
    } else {
      var p := L[0];
      var T := S - {p};
      ByRankSpells(H, T);
      assert L == [p] + ByRank(H, T) && Lowest(H, S, p);
      forall x | x in T ensures Rank(H, p) < Rank(H, x) {
        assert x in S && p in S;
      }
      RisingFrom(H, p, ByRank(H, T));
    }
  }

  lemma Single(H: Heap)
    ensures Elems([]) == {} && Rising(H, [])
  {}

  lemma RisingFrom(H: Heap, p: int, R: seq<int>)
    requires Rising(H, R) && forall x {:trigger x in Elems(R)} :: x in Elems(R) ==> Rank(H, p) < Rank(H, x)
    ensures Rising(H, [p] + R) && Elems([p] + R) == {p} + Elems(R)
  {
    hide Rank;
    var L := [p] + R;
    forall j | 0 < j < |L| ensures Rank(H, L[0]) < Rank(H, L[j]) {
      assert L[j] == R[j - 1] && R[j - 1] in Elems(R);
    }
  }

  /** Only one sequence does. */
  lemma {:induction false} SpelledOnce(H: Heap, S: set<int>, A: seq<int>, B: seq<int>)
    requires Spells(H, S, A) && Spells(H, S, B)
    ensures A == B
    decreases |A|
  {
    assert B != [] ==> B[0] in Elems(B);
    if A == [] {
      assert Elems(A) == {};
    } else {
      assert A[0] in Elems(A) && A[0] in Elems(B);
      assert B[0] in Elems(B) && B[0] in Elems(A);
      var i :| 0 <= i < |B| && B[i] == A[0];
      var j :| 0 <= j < |A| && A[j] == B[0];
      assert A[0] == B[0];
      SpellsRest(H, S, A);
      SpellsRest(H, S, B);
      SpelledOnce(H, S - {A[0]}, A[1..], B[1..]);
    }
  }

  lemma SpellsRest(H: Heap, S: set<int>, L: seq<int>)
    requires Spells(H, S, L) && L != []
    ensures Spells(H, S - {L[0]}, L[1..])
  {
    var R := L[1..];
    assert L == [L[0]] + R;
    forall x ensures x in Elems(R) <==> x in S - {L[0]} {
      assert x in Elems(L) <==> x == L[0] || x in R;
      if x in R {
        var i :| 0 <= i < |R| && R[i] == x;
        assert R[i] == L[i + 1];
      }
    }
  }

  ghost function Insert(L: seq<int>, k: nat, p: int): seq<int>
    requires k <= |L|
  {
    L[..k] + [p] + L[k..]
  }

  ghost function Delete(L: seq<int>, k: nat): seq<int>
    requires k < |L|
  {
    L[..k] + L[k + 1..]
  }

  lemma InsertElems(L: seq<int>, k: nat, p: int)
    requires k <= |L|
    ensures Elems(Insert(L, k, p)) == Elems(L) + {p}
  {
    assert L == L[..k] + L[k..];
  }

  lemma SpellsInsert(H: Heap, H': Heap, S: set<int>, L: seq<int>, k: nat, p: int)
    requires Spells(H, S, L) && k <= |L| && forall x {:trigger x in S} :: x in S ==> Rank(H', x) == Rank(H, x)
    requires (k > 0 ==> Rank(H, L[k - 1]) < Rank(H', p)) && (k < |L| ==> Rank(H', p) < Rank(H, L[k]))
    ensures Spells(H', S + {p}, Insert(L, k, p))
  {
    hide Rank, Elems;
    InsertElems(L, k, p);
    var L' := Insert(L, k, p);
    forall j | 0 <= j < |L|
      ensures Rank(H', L[j]) == Rank(H, L[j]) && (if j < k then Rank(H, L[j]) < Rank(H', p) else Rank(H', p) < Rank(H, L[j])) {
      ElemOf(L, j);
      assert j < k - 1 ==> Rank(H, L[j]) < Rank(H, L[k - 1]);
      assert j > k ==> Rank(H, L[k]) < Rank(H, L[j]);
    }
    forall i, j | 0 <= i < j < |L'| ensures Rank(H', L'[i]) < Rank(H', L'[j]) {
      InsertAt(L, k, p, i);
      InsertAt(L, k, p, j);
    }
  }

  lemma InsertAt(L: seq<int>, k: nat, p: int, i: nat)
    requires k <= |L| && i <= |L|
    ensures Insert(L, k, p)[i] == if i < k then L[i] else if i == k then p else L[i - 1]
  {}

  lemma DeleteAt(L: seq<int>, k: nat, i: nat)
    requires k < |L| && i < |L| - 1
    ensures Delete(L, k)[i] == if i < k then L[i] else L[i + 1]
  {}

  lemma ElemOf(L: seq<int>, j: nat)
    requires j < |L|
    ensures L[j] in Elems(L)
  {}

  lemma DeleteElems(H: Heap, L: seq<int>, k: nat)
    requires Rising(H, L) && k < |L|
    ensures Elems(Delete(L, k)) == Elems(L) - {L[k]}
  {
    hide Rank;
    assert L == L[..k] + [L[k]] + L[k + 1..];
    var L' := Delete(L, k);
    forall x ensures x in Elems(L') <==> x in Elems(L) - {L[k]} {
      assert x in L <==> x in L' || x == L[k];
      if x in L' {
        var i :| 0 <= i < |L'| && L'[i] == x;
        DeleteAt(L, k, i);
      }
    }
  }

  lemma SpellsDelete(H: Heap, H': Heap, S: set<int>, L: seq<int>, k: nat)
    requires Spells(H, S, L) && k < |L| && forall x {:trigger x in S} :: x in S && x != L[k] ==> Rank(H', x) == Rank(H, x)
    ensures Spells(H', S - {L[k]}, Delete(L, k))
  {
    hide Rank, Elems;
    var L' := Delete(L, k);
    DeleteElems(H, L, k);
    forall i, j | 0 <= i < j < |L'| ensures Rank(H', L'[i]) < Rank(H', L'[j]) {
      DeleteAt(L, k, i);
      DeleteAt(L, k, j);
      ElemOf(L', i);
      ElemOf(L', j);
      var i0, j0 := if i < k then i else i + 1, if j < k then j else j + 1;
      assert Rank(H, L[i0]) < Rank(H, L[j0]);
    }
  }

  // ---------------------------------------------------------------- the entries of a list

  ghost function Chunks(H: Heap, l: int): set<int> {
    set p | p in H && InList(H, p, l)
  }

  /** The chunks of list l, from its head on. */
  ghost function Entries(H: Heap, l: int): seq<int> {
    ByRank(H, Chunks(H, l))
  }

  ghost predicate RanksDiffer(H: Heap) {
    forall p, q {:trigger SingleOrd(H, p, q)} :: p != q ==> SingleOrd(H, p, q)
  }

  lemma EntriesSpell(H: Heap, l: int)
    requires RanksDiffer(H)
    ensures Spells(H, Chunks(H, l), Entries(H, l)) && |Entries(H, l)| == |Chunks(H, l)|
    ensures forall i {:trigger Entries(H, l)[i]} :: 0 <= i < |Entries(H, l)| ==> InList(H, Entries(H, l)[i], l)
    ensures forall x {:trigger InList(H, x, l)} :: InList(H, x, l) ==> x in Entries(H, l)
  {
    var S, L := Chunks(H, l), Entries(H, l);
    forall p, q | p in S && q in S && p != q ensures Rank(H, p) != Rank(H, q) {
      assert SingleOrd(H, p, q);
    }
    ByRankSpells(H, S);
    forall i | 0 <= i < |L| ensures InList(H, L[i], l) {
      assert L[i] in Elems(L);
    }
    forall x | InList(H, x, l) ensures x in L {
      assert x in S && x in Elems(L);
    }
  }

  lemma EntriesAre(H: Heap, l: int, L: seq<int>)
    requires RanksDiffer(H) && Spells(H, Chunks(H, l), L)
    ensures Entries(H, l) == L
  {
    EntriesSpell(H, l);
    SpelledOnce(H, Chunks(H, l), Entries(H, l), L);
  }

  /** The links of list l, decoded from the head cell on, spell out its entries; the last one is null. */
  lemma EntriesDecoded(m: Mem, H: Heap, l: int, k: nat)
    requires Lists(m, H) && Low(H) && 0 <= l < 86 && k <= |Entries(H, l)|
    ensures var L := Entries(H, l);
            Pointee(m, l, if k == 0 then Cell(l) else L[k - 1] + 16) == if k < |L| then Link(l, L[k]) else NULL
  {
    EntriesSpell(H, l);
    var L := Entries(H, l);
    var a := if k == 0 then Cell(l) else L[k - 1] + 16;
    assert k > 0 ==> InList(H, L[k - 1], l) && a != Cell(l);
    assert !InList(H, Cell(l) - 16, l);
    assert ListAt(m, H, l, a);
    var v := Pointee(m, l, a);
    if k < |L| {
      assert InList(H, L[k], l) && After(H, l, a, L[k]);
      var s := Named(l, v);
      assert InList(H, s, l) && After(H, l, a, s) && s in L;
      var j :| 0 <= j < |L| && L[j] == s;
      assert k > 0 ==> Rank(H, L[k - 1]) < Rank(H, L[j]);
      assert j >= k;
      assert Rank(H, L[j]) <= Rank(H, L[k]);
    } else {
      forall q | InList(H, q, l) ensures !After(H, l, a, q) {
        var j :| 0 <= j < |L| && L[j] == q;
        assert Rank(H, L[j]) <= Rank(H, L[k - 1]);
      }
    }
  }

  /** Where a cell stands in its list: in front of entry k. */
  lemma CellPlace(m: Mem, H: Heap, l: int, a: int) returns (k: nat)
    requires Lists(m, H) && Low(H) && 0 <= l < 86 && IsCell(H, l, a)
    ensures var L := Entries(H, l);
            && k <= |L| && a == (if k == 0 then Cell(l) else L[k - 1] + 16)
            && Pointee(m, l, a) == (if k < |L| then Link(l, L[k]) else NULL)
  {
    EntriesSpell(H, l);
    var L := Entries(H, l);
    if a == Cell(l) {
      k := 0;
    } else {
      var j :| 0 <= j < |L| && L[j] == a - 16;
      k := j + 1;
    }
    EntriesDecoded(m, H, l, k);
  }

  /** Lists that have not changed spell out what they did. */
  lemma EntriesFrame(H: Heap, H': Heap, l: int)
    requires RanksDiffer(H) && RanksDiffer(H')
    requires forall x {:trigger InList(H', x, l)} :: (InList(H, x, l) <==> InList(H', x, l)) && (InList(H, x, l) ==> H'[x] == H[x])
    ensures Entries(H', l) == Entries(H, l)
  {
    EntriesSpell(H, l);
    forall x ensures x in Chunks(H', l) <==> x in Chunks(H, l) {
      assert InList(H, x, l) <==> InList(H', x, l);
    }
    var L := Entries(H, l);
    forall i | 0 <= i < |L| ensures Rank(H', L[i]) == Rank(H, L[i]) {
      assert InList(H, L[i], l) && InList(H', L[i], l);
    }
    EntriesAre(H', l, Entries(H, l));
  }

  lemma ChunksMore(H: Heap, H': Heap, p: int, l: int, r: real)
    requires Listing(H, H', p, l, r)
    ensures Chunks(H', l) == Chunks(H, l) + {p} && Rank(H', p) == r
    ensures forall x {:trigger x in Chunks(H, l)} :: x in Chunks(H, l) ==> Rank(H', x) == Rank(H, x)
  {}

  /** A chunk comes to list l in front of entry k; the other lists are as they were. */
  lemma EntriesInsert(H: Heap, H': Heap, p: int, l: int, r: real, k: nat, l': int)
    requires RanksDiffer(H) && RanksDiffer(H') && Listing(H, H', p, l, r) && k <= |Entries(H, l)|
    requires (k > 0 ==> Rank(H, Entries(H, l)[k - 1]) < r) && (k < |Entries(H, l)| ==> r < Rank(H, Entries(H, l)[k]))
    ensures Entries(H', l') == if l' == l then Insert(Entries(H, l), k, p) else Entries(H, l')
  {
    hide Entries, SingleOrd, Spells, Insert, Chunks, Rank;
    forall x ensures InList(H', x, l') <==> InList(H, x, l') || (x == p && l' == l) {
      ListingInList(H, H', p, l, r, l', x);
    }
    if l' == l {
      EntriesSpell(H, l);
      ChunksMore(H, H', p, l, r);
      SpellsInsert(H, H', Chunks(H, l), Entries(H, l), k, p);
      EntriesAre(H', l, Insert(Entries(H, l), k, p));
    } else {
      EntriesFrame(H, H', l');
    }
  }

  /** Entry k leaves list l; the other lists are as they were. */
  lemma EntriesDelete(H: Heap, H': Heap, p: int, l: int, k: nat, l': int)
    requires RanksDiffer(H) && RanksDiffer(H') && InList(H, p, l) && Delisting(H, H', p)
    requires k < |Entries(H, l)| && Entries(H, l)[k] == p
    ensures Entries(H', l') == if l' == l then Delete(Entries(H, l), k) else Entries(H, l')
  {
    hide Entries, SingleOrd;
    forall x ensures InList(H', x, l') <==> InList(H, x, l') && x != p {
      DelistingInList(H, H', p, l', x);
    }
    if l' == l {
      EntriesSpell(H, l);
      SpellsDelete(H, H', Chunks(H, l), Entries(H, l), k);
      assert Chunks(H', l) == Chunks(H, l) - {p};
      EntriesAre(H', l, Delete(Entries(H, l), k));
    } else {
      EntriesFrame(H, H', l');
    }
  }

  /** Chunk `p` is the new first entry of list l. */
  ghost predicate EntersFront(H: Heap, H': Heap, l: int, p: int) {
    forall k {:trigger Entries(H', k)} :: Entries(H', k) == if k == l then [p] + Entries(H, k) else Entries(H, k)
  }

  /** The first entry of list l, `p`, is gone. */
  ghost predicate LeavesFront(H: Heap, H': Heap, l: int, p: int) {
    forall k {:trigger Entries(H, k)} :: Entries(H, k) == if k == l then [p] + Entries(H', k) else Entries(H', k)
  }

  /** The head cell of a list is not in a chunk. */
  lemma CellHead(H: Heap, l: int)
    requires Low(H) && l < 86
    ensures !InList(H, Cell(l) - 16, l)
  {}

  lemma FrontEnters(m: Mem, H: Heap, H': Heap, p: int, l: int, r: real)
    requires Lists(m, H) && Low(H) && RanksDiffer(H) && RanksDiffer(H') && 0 <= l < 86
    requires Listing(H, H', p, l, r) && Behind(m, H, l, Cell(l), r)
    ensures EntersFront(H, H', l, p)
  {
    hide Lists, Entries, IsCell;
    EntriesSpell(H, l);
    CellHead(H, l);
    HeadFirst(m, H, l);
    var L := Entries(H, l);
    forall k ensures Entries(H', k) == if k == l then [p] + Entries(H, k) else Entries(H, k) {
      EntriesInsert(H, H', p, l, r, 0, k);
      assert Insert(L, 0, p) == [p] + L;
    }
  }

  /** The head cell names the first entry. */
  lemma HeadFirst(m: Mem, H: Heap, l: int)
    requires Lists(m, H) && Low(H) && 0 <= l < 86
    ensures var L := Entries(H, l); Pointee(m, l, Cell(l)) == (if L == [] then NULL else Link(l, L[0])) && (L != [] ==> InList(H, L[0], l))
  {
    EntriesSpell(H, l);
    EntriesDecoded(m, H, l, 0);
  }

  lemma FrontLeaves(m: Mem, H: Heap, H': Heap, p: int, l: int)
    requires Lists(m, H) && Low(H) && RanksDiffer(H) && RanksDiffer(H') && 0 <= l < 86
    requires InList(H, p, l) && Delisting(H, H', p) && Pointee(m, l, Cell(l)) == Link(l, p)
    ensures LeavesFront(H, H', l, p)
  {
    hide Lists, Entries;
    EntriesSpell(H, l);
    HeadFirst(m, H, l);
    var L := Entries(H, l);
    forall k ensures Entries(H, k) == if k == l then [p] + Entries(H', k) else Entries(H', k) {
      EntriesDelete(H, H', p, l, 0, k);
      assert L == [p] + Delete(L, 0);
    }
  }

  /** Lists that have not changed. */
  lemma EntriesSame(H: Heap, H': Heap, l: int)
    requires RanksDiffer(H) && RanksDiffer(H') && SameListed(H, H')
    ensures Entries(H', l) == Entries(H, l)
  {
    EntriesFrame(H, H', l);
  }

  // ---------------------------------------------------------------- the chunks of a bin

  ghost function BinSet(H: Heap, b: int): set<int> {
    set p | p in H && InBin(H, p, b)
  }

  /** The chunks of bin b, from its first to its last. */
  ghost function BinEntries(H: Heap, b: int): seq<int> {
    ByRank(H, BinSet(H, b))
  }

  ghost predicate BinRanksDiffer(H: Heap) {
    forall p, q {:trigger OrdAt(H, p, q)} :: p != q ==> OrdAt(H, p, q)
  }

  lemma BinSpell(H: Heap, b: int)
    requires BinRanksDiffer(H)
    ensures Spells(H, BinSet(H, b), BinEntries(H, b)) && |BinEntries(H, b)| == |BinSet(H, b)|
    ensures forall i {:trigger BinEntries(H, b)[i]} :: 0 <= i < |BinEntries(H, b)| ==> InBin(H, BinEntries(H, b)[i], b)
    ensures forall x {:trigger InBin(H, x, b)} :: InBin(H, x, b) ==> x in BinEntries(H, b)
  {
    var S, L := BinSet(H, b), BinEntries(H, b);
    forall p, q | p in S && q in S && p != q ensures Rank(H, p) != Rank(H, q) {
      assert OrdAt(H, p, q);
    }
    ByRankSpells(H, S);
    forall i | 0 <= i < |L| ensures InBin(H, L[i], b) {
      assert L[i] in Elems(L);
    }
    forall x | InBin(H, x, b) ensures x in L {
      assert x in S && x in Elems(L);
    }
  }

  lemma BinEntriesAre(H: Heap, b: int, L: seq<int>)
    requires BinRanksDiffer(H) && Spells(H, BinSet(H, b), L)
    ensures BinEntries(H, b) == L
  {
    BinSpell(H, b);
    SpelledOnce(H, BinSet(H, b), BinEntries(H, b), L);
  }

  lemma RankOrder(H: Heap, L: seq<int>, i: nat, j: nat)
    requires Rising(H, L) && i < |L| && j < |L|
    ensures i < j <==> Rank(H, L[i]) < Rank(H, L[j])
  {}

  /** An entry that no other outranks is the last. */
  lemma NoneBehind(H: Heap, L: seq<int>, k: nat)
    requires Rising(H, L) && k < |L| && forall i {:trigger L[i]} :: 0 <= i < |L| ==> Rank(H, L[i]) <= Rank(H, L[k])
    ensures k == |L| - 1
  {
    RankOrder(H, L, k, |L| - 1);
  }

  /** The chunk of the highest rank leaves its bin. */
  lemma LastLeaves(H: Heap, H': Heap, b: int, p: int)
    requires BinRanksDiffer(H) && BinRanksDiffer(H') && InBin(H, p, b) && p in H' && H' == H[p := H'[p]] && !InBin(H', p, b)
    requires forall q {:trigger InBin(H, q, b)} :: InBin(H, q, b) ==> H[q].st.r <= H[p].st.r
    ensures BinEntries(H, b) == BinEntries(H', b) + [p]
  {
    hide BinEntries, OrdAt;
    BinSpell(H, b);
    var L := BinEntries(H, b);
    var k :| 0 <= k < |L| && L[k] == p;
    NoneBehind(H, L, k);
    forall x ensures x in BinSet(H', b) <==> x in BinSet(H, b) - {p} {
      assert x != p ==> (InBin(H', x, b) <==> InBin(H, x, b));
    }
    SpellsDelete(H, H', BinSet(H, b), L, k);
    BinEntriesAre(H', b, Delete(L, k));
    assert Delete(L, k) == L[..k] && L == L[..k] + [p];
  }

  lemma BinSame(H: Heap, H': Heap, b: int)
    requires BinRanksDiffer(H) && BinRanksDiffer(H')
    requires forall x {:trigger InBin(H', x, b)} :: (InBin(H, x, b) <==> InBin(H', x, b)) && (InBin(H, x, b) ==> H'[x] == H[x])
    ensures BinEntries(H', b) == BinEntries(H, b)
  {
    BinSpell(H, b);
    forall x ensures x in BinSet(H', b) <==> x in BinSet(H, b) {
      assert InBin(H, x, b) <==> InBin(H', x, b);
    }
    var L := BinEntries(H, b);
    forall i | 0 <= i < |L| ensures Rank(H', L[i]) == Rank(H, L[i]) {
      assert InBin(H, L[i], b) && InBin(H', L[i], b);
    }
    BinEntriesAre(H', b, L);
  }

  /** The elements of L from the last to the first. */
  function Backwards(L: seq<int>): (R: seq<int>)
    ensures |R| == |L|
  {
    seq(|L|, i requires 0 <= i < |L| => L[|L| - 1 - i])
  }
}
