/** `tcache_double_free_verify`: the walk over all bins of the thread cache that finds a block freed before. */
module DoubleFree {
  import opened Memory
  import opened Protect
  import opened Heap
  import opened Steps
  import opened Arena
  import opened FreeChunk
  import opened Tcache

  /** Block `p` is in one of the bins of the cache. */
  ghost predicate Cached(H: Heap, p: int) {
    exists t {:trigger InList(H, p, TList(t))} :: 0 <= t < TCACHE_MAX_BINS && InList(H, p, TList(t))
  }

  /** An entry, reached from cell `a` after all that rank before it. */
  ghost predicate At(s: State, t: int, a: int, tmp: int, seen: set<int>) {
    && IsCell(s.H, TList(t), a) && Pointee(s.m, TList(t), a) == tmp
    && (forall x {:trigger x in seen} :: x in seen ==> InList(s.H, x, TList(t)) && !After(s.H, TList(t), a, x))
    && (forall q {:trigger InList(s.H, q, TList(t))} :: InList(s.H, q, TList(t)) ==> q in seen || After(s.H, TList(t), a, q))
  }

  ghost predicate Visiting(s: State, t: int, tmp: int, seen: set<int>) {
    Sound(s) && 0 <= t < |s.slots| && exists a {:trigger At(s, t, a, tmp, seen)} :: At(s, t, a, tmp, seen)
  }

  lemma VisitFirst(s: State, t: int)
    requires Sound(s) && 0 <= t < |s.slots|
    ensures Visiting(s, t, s.m.e(Cell(TList(t))), {})
  {
    assert At(s, t, Cell(TList(t)), s.m.e(Cell(TList(t))), {});
  }

  /** What the checks read at an entry: it is aligned, and there are fewer than the limit before it. */
  lemma VisitFacts(s: State, t: int, tmp: int, seen: set<int>)
    requires Visiting(s, t, tmp, seen) && tmp != NULL
    ensures tmp % 16 == 0 && |seen| < TCACHE_FILL_COUNT && InList(s.H, tmp - 16, TList(t)) && tmp - 16 !in seen
  {
    hide Core, TopOk, Marks, Fresh, Slots;
    var l := TList(t);
    SoundLists(s);
    var a :| At(s, t, a, tmp, seen);
    assert ListAt(s.m, s.H, l, a);
    ChunkSize(s, tmp - 16);
    FewerSeen(s, t, seen, tmp - 16);
  }

  lemma FewerSeen(s: State, t: int, seen: set<int>, p: int)
    requires Sound(s) && 0 <= t < |s.slots| && InList(s.H, p, TList(t)) && p !in seen
    requires forall x {:trigger x in seen} :: x in seen ==> InList(s.H, x, TList(t))
    ensures |seen| < TCACHE_FILL_COUNT
  {
    hide Core, Marks, Fresh, TopOk;
    forall x | x in seen + {p} ensures x in Members(s.H, TList(t)) {
      assert InList(s.H, x, TList(t));
    }
    CardSub(seen + {p}, Members(s.H, TList(t)));
    assert s.slots[t] >= 0;
  }

  lemma VisitNext(s: State, t: int, tmp: int, seen: set<int>)
    requires Visiting(s, t, tmp, seen) && tmp != NULL
    ensures Visiting(s, t, Mask(tmp, s.m.e(tmp)), seen + {tmp - 16})
  {
    hide Marks, Fresh;
    var l := TList(t);
    var a :| At(s, t, a, tmp, seen);
    CoreLow(s.m, s.H, s.base, s.top);
    assert ListAt(s.m, s.H, l, a);
    assert !InList(s.H, Cell(l) - 16, l);
    var seen' := seen + {tmp - 16};
    forall x | x in seen' ensures InList(s.H, x, l) && !After(s.H, l, tmp, x) {
      assert x != tmp - 16 ==> x in seen && SingleOrd(s.H, x, tmp - 16);
    }
    forall q | InList(s.H, q, l) ensures q in seen' || After(s.H, l, tmp, q) {
      assert q != tmp - 16 ==> SingleOrd(s.H, q, tmp - 16);
    }
    assert At(s, t, tmp, Mask(tmp, s.m.e(tmp)), seen');
  }

  /** At the end of the chain all of the bin was seen. */
  lemma VisitLast(s: State, t: int, seen: set<int>, p: int)
    requires Visiting(s, t, NULL, seen) && p !in seen
    ensures !InList(s.H, p, TList(t))
  {
    hide Core, TopOk, Marks, Fresh, Slots;
    SoundLists(s);
    var a :| At(s, t, a, NULL, seen);
    assert ListAt(s.m, s.H, TList(t), a);
  }

  datatype Verdict = Clear | DoubleFree

  /** The loops of `tcache_double_free_verify`: block `e` is found exactly if it is in one of the bins. The
      other two checks do not fire. */
  method DoubleFreeVerify(av: MallocState, e: int) returns (verdict: Verdict)
    requires av.Ok() && |av.numSlots| == TCACHE_MAX_BINS
    ensures verdict == if Cached(av.H, e - 16) then DoubleFree else Clear
  {
    hide Sound, Visiting, InList;
    ghost var s := av.S();
    var tcIdx := 0;
    while tcIdx < TCACHE_MAX_BINS
      invariant 0 <= tcIdx <= TCACHE_MAX_BINS
      invariant forall t {:trigger InList(av.H, e - 16, TList(t))} :: 0 <= t < tcIdx ==> !InList(av.H, e - 16, TList(t))
    {
      var cnt := 0;
      VisitFirst(s, tcIdx);
      var tmp := av.m.e(Cell(TList(tcIdx)));
      ghost var seen := {};
      while tmp != NULL
        invariant Visiting(s, tcIdx, tmp, seen) && cnt == |seen| <= TCACHE_FILL_COUNT && e - 16 !in seen
        decreases TCACHE_FILL_COUNT - cnt
      {
        VisitFacts(s, tcIdx, tmp, seen);
        if cnt >= TCACHE_FILL_COUNT {
          assert false; // free(): too many chunks detected in tcache
        }
        if tmp % 16 != 0 {
          assert false; // free(): unaligned chunk detected in tcache 2
        }
        if tmp == e {
          return DoubleFree; // free(): double free detected in tcache 2
        }
        VisitNext(s, tcIdx, tmp, seen);
        seen := seen + {tmp - 16};
        tmp := Mask(tmp, av.m.e(tmp));
        cnt := cnt + 1;
      }
      VisitLast(s, tcIdx, seen, e - 16);
      tcIdx := tcIdx + 1;
    }
    return Clear;
  }

  /** A block in use is in none of the bins. */
  lemma LiveNotCached(H: Heap, p: int)
    requires p in LiveOf(H)
    ensures !Cached(H, p)
  {}
}
