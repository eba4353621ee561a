/** Packing a 48-bit pointer and a 16-bit tag into one word (ephemeral-hash-cas). */
module EHashPtr {
  import EHashStack

  datatype Pair = Pair(ptr: bv64, hash: bv64)

  /** The bit-field widths. */
  predicate Fits(p: Pair) {
    p.ptr & 0xFFFF_0000_0000_0000 == 0 && p.hash & 0xFFFF_FFFF_FFFF_0000 == 0
  }

  function ToRaw(p: Pair): bv64 {
    (p.hash << 48) | (p.ptr & 0xFFFF_FFFF_FFFF)
  }

  function FromRaw(v: bv64): (p: Pair)
    ensures Fits(p)
  {
    Pair(v & 0xFFFF_FFFF_FFFF, (v >> 48) & 0xFFFF)
  }

  lemma Bits(ptr: bv64, hash: bv64)
    requires ptr & 0xFFFF_0000_0000_0000 == 0 && hash & 0xFFFF_FFFF_FFFF_0000 == 0
    ensures ((hash << 48) | (ptr & 0xFFFF_FFFF_FFFF)) & 0xFFFF_FFFF_FFFF == ptr
    ensures (((hash << 48) | (ptr & 0xFFFF_FFFF_FFFF)) >> 48) & 0xFFFF == hash
  {}

  /** Packing and unpacking are inverse to each other. */
  lemma PackRoundTrip(p: Pair, v: bv64)
    requires Fits(p)
    ensures FromRaw(ToRaw(p)) == p && ToRaw(FromRaw(v)) == v
  {
    Bits(p.ptr, p.hash);
    Halves(v);
  }

  lemma Halves(v: bv64)
    ensures (((v >> 48) & 0xFFFF) << 48) | ((v & 0xFFFF_FFFF_FFFF) & 0xFFFF_FFFF_FFFF) == v
  {}

  /** So the comparison that the compare-and-swap makes on raw words is `ehash_full_equal`. */
  lemma RawEquality(p: Pair, q: Pair)
    requires Fits(p) && Fits(q)
    ensures ToRaw(p) == ToRaw(q) <==> p.ptr == q.ptr && p.hash == q.hash
  {
    PackRoundTrip(p, 0);
    PackRoundTrip(q, 0);
  }

  function Value(b: bv64): int { b as int }

  lemma ValueBack(b: bv64)
    ensures Value(b) as bv64 == b
  {}

  lemma ValueInjective(a: bv64, b: bv64)
    requires Value(a) == Value(b)
    ensures a == b
  {
    ValueBack(a);
    ValueBack(b);
  }

  /** The pair that the stack's transition system has for the head word. */
  function Abstract(p: Pair): EHashStack.Tagged {
    EHashStack.Tagged(Value(p.ptr), Value(p.hash))
  }

  /** The words are equal exactly if the pairs of the transition system are, so that its swaps are those
      of the code. */
  lemma SwapCompares(p: Pair, q: Pair)
    requires Fits(p) && Fits(q)
    ensures ToRaw(p) == ToRaw(q) <==> Abstract(p) == Abstract(q)
  {
    hide Fits, ToRaw, Value;
    RawEquality(p, q);
    if Abstract(p) == Abstract(q) {
      ValueInjective(p.ptr, q.ptr);
      ValueInjective(p.hash, q.hash);
    }
  }
}
