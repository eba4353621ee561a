/** The binmap: four 32-bit words, one bit a bin (mark_bin, unmark_bin, get_binmap in scalloc.c). */
module Binmap {

  const BINMAPSIZE := 4

  type Binmap = s: seq<bv32> | |s| == 4 witness [0, 0, 0, 0]

  /** `1U << k`, zero once the one has been shifted out. */
  function Bit(k: nat): bv32 {
    if k == 0 then 1 else Bit(k - 1) << 1
  }

  /** Bit k of a word is set. */
  predicate Has(w: bv32, k: nat) {
    Meets(w, Bit(k))
  }

  predicate Meets(w: bv32, bit: bv32) { w & bit != 0 }
  function Joint(w: bv32, bit: bv32): bv32 { w | bit }

  /** `bit <<= 1` and `map &= ~bit`. */
  function Shifted(bit: bv32): bv32 { bit << 1 }
  function Cleared(w: bv32, bit: bv32): bv32 { w & !bit }

  /** `(bit & map) == 0`. */
  predicate Misses(bit: bv32, w: bv32) {
    bit & w == 0
  }

  predicate Marked(s: Binmap, i: int)
    requires 0 <= i < 128
  {
    Has(s[i / 32], i % 32)
  }

  function SetBit(w: bv32, k: nat): bv32 {
    Joint(w, Bit(k))
  }

  function ClearBit(w: bv32, k: nat): bv32 {
    Cleared(w, Bit(k))
  }

  function Mark(s: Binmap, i: int): Binmap
    requires 0 <= i < 128
  {
    s[i / 32 := SetBit(s[i / 32], i % 32)]
  }

  function Unmark(s: Binmap, i: int): Binmap
    requires 0 <= i < 128
  {
    s[i / 32 := ClearBit(s[i / 32], i % 32)]
  }

  predicate OneHot(b: bv32) {
    b != 0 && b & (b - 1) == 0
  }

  lemma DoubleOneHot(b: bv32)
    requires OneHot(b)
    ensures b << 1 == 0 || (OneHot(b << 1) && b < b << 1)
    ensures b < 0x8000_0000 ==> b << 1 != 0
    ensures b << 1 == 0 <==> b == 0x8000_0000
  {}

  lemma LastBit()
    ensures Bit(31) == 0x8000_0000
  {
    assert Bit(8) == 0x100;
    assert Bit(16) == 0x1_0000;
    assert Bit(24) == 0x100_0000;
  }

  lemma {:induction false} ZeroStays(k: nat, j: nat)
    requires Bit(k) == 0 && k <= j
    ensures Bit(j) == 0
  {
    if k < j {
      ZeroStays(k, j - 1);
    }
  }

  /** The one is not shifted out before the thirty-second shift. */
  lemma NotTop(k: nat)
    requires k < 31
    ensures Bit(k) != 0x8000_0000
  {
    LastBit();
    if Bit(k) << 1 == 0 {
      ZeroStays(k + 1, 31);
    }
  }

  lemma BitNext(k: nat)
    ensures Bit(k + 1) == Bit(k) << 1 == Shifted(Bit(k))
  {}

  lemma {:induction false} BitUp(k: nat)
    requires k <= 31
    ensures OneHot(Bit(k)) && (k < 31 ==> Bit(k) < Bit(k + 1))
  {
    if k > 0 {
      BitUp(k - 1);
      DoubleOneHot(Bit(k - 1));
    }
    DoubleOneHot(Bit(k));
    if k < 31 {
      NotTop(k);
    }
  }

  lemma {:induction false} BitMonotone(j: nat, k: nat)
    requires j <= k <= 31
    ensures Bit(j) <= Bit(k) && (j < k ==> Bit(j) < Bit(k))
  {
    if j < k {
      BitMonotone(j, k - 1);
      BitUp(k - 1);
    }
  }

  lemma OneHotAbove(b: bv32, w: bv32)
    requires OneHot(b) && b > w
    ensures w & b == 0
  {}

  lemma OneHotsDiffer(a: bv32, b: bv32, w: bv32)
    requires OneHot(a) && OneHot(b)
    ensures Meets(Joint(w, b), a) <==> Meets(w, a) || a == b
    ensures Meets(Cleared(w, b), a) <==> Meets(w, a) && a != b
  {
    OneHotsRaw(a, b, w);
    hide OneHot, Joint, Cleared;
    WordOps(w, b);
    hide Meets;
    MeetsIs(w | b, a);
    MeetsIs(w & !b, a);
    MeetsIs(w, a);
  }

  lemma WordOps(w: bv32, b: bv32)
    ensures Joint(w, b) == w | b && Cleared(w, b) == w & !b
  {}

  lemma MeetsIs(w: bv32, b: bv32)
    ensures Meets(w, b) <==> w & b != 0
  {}

  lemma OneHotsRaw(a: bv32, b: bv32, w: bv32)
    requires OneHot(a) && OneHot(b)
    ensures (w | b) & a != 0 <==> (w & a != 0 || a == b)
    ensures (w & !b) & a != 0 <==> (w & a != 0 && a != b)
  {}

  /** The test `bit > map || bit == 0`. */
  predicate Spent(bit: bv32, w: bv32) {
    bit > w || bit == 0
  }

  predicate Exhausted(w: bv32, k: nat) {
    Spent(Bit(k), w)
  }

  /** Past the test, no bit from position k up is set. */
  lemma NoneAbove(w: bv32, k: nat, j: nat)
    requires k <= j <= 31 && (Exhausted(w, k) || w == 0)
    ensures !Has(w, j)
  {
    hide Bit, OneHot, Has, Exhausted;
    BitUp(k);
    BitUp(j);
    BitMonotone(k, j);
    BitAbove(w, k, j);
  }

  lemma BitAbove(w: bv32, k: nat, j: nat)
    requires OneHot(Bit(k)) && OneHot(Bit(j)) && Bit(k) <= Bit(j) && (Exhausted(w, k) || w == 0)
    ensures !Has(w, j)
  {
    hide Bit;
    OneHotsCompare(Bit(k), Bit(j), w);
  }

  lemma OneHotsCompare(a: bv32, b: bv32, w: bv32)
    requires OneHot(a) && OneHot(b) && a <= b && (a > w || a == 0 || w == 0)
    ensures w & b == 0
  {
    if w != 0 {
      OneHotAbove(b, w);
    }
  }

  lemma BelowOneHot(b: bv32, w: bv32)
    requires OneHot(b) && w & b == 0 && (b == 0x8000_0000 || w < b << 1)
    ensures w < b
  {}

  lemma ExhaustedStep(w: bv32, k: nat)
    requires k <= 31 && !Has(w, k) && (k == 31 || Exhausted(w, k + 1))
    ensures Exhausted(w, k)
  {
    BitUp(k);
    if k == 31 {
      LastBit();
    } else {
      BitUp(k + 1);
      BitNext(k);
    }
    BelowOneHot(Bit(k), w);
  }

  /** Cleared bits from position k up, the test holds. */
  lemma {:induction false} NoneSet(w: bv32, k: nat)
    requires k <= 32 && forall j: nat {:trigger Has(w, j)} :: k <= j <= 31 ==> !Has(w, j)
    ensures Exhausted(w, k)
    decreases 32 - k
  {
    hide Has, Bit, Exhausted;
    if k == 32 {
      PastEnd(w);
    } else {
      if k < 31 {
        NoneSet(w, k + 1);
      }
      ExhaustedStep(w, k);
    }
  }

  lemma PastEnd(w: bv32)
    ensures Exhausted(w, 32)
  {
    LastBit();
  }

  lemma {:induction false} BitsDiffer(j: nat, k: nat)
    requires j <= 31 && k <= 31
    ensures Bit(j) == Bit(k) <==> j == k
  {
    if j < k {
      BitMonotone(j, k);
    } else if k < j {
      BitMonotone(k, j);
    }
  }

  lemma HasSet(w: bv32, k: nat, j: nat)
    requires j <= 31 && k <= 31
    ensures Has(SetBit(w, k), j) <==> Has(w, j) || j == k
    ensures Has(ClearBit(w, k), j) <==> Has(w, j) && j != k
  {
    hide Bit, OneHot, Cleared, Joint, Meets;
    BitUp(j);
    BitUp(k);
    BitsDiffer(j, k);
    OneHotsDiffer(Bit(j), Bit(k), w);
  }

  /** Marking or unmarking a bin changes the mark of that bin and no other. */
  lemma MarkMarks(s: Binmap, i: int, j: int)
    requires 0 <= i < 128 && 0 <= j < 128
    ensures Marked(Mark(s, i), j) <==> Marked(s, j) || j == i
    ensures Marked(Unmark(s, i), j) <==> Marked(s, j) && j != i
  {
    hide Has, SetBit, ClearBit;
    if i / 32 == j / 32 {
      HasSet(s[i / 32], i % 32, j % 32);
    }
  }

  /** As long as the test fails there is a bit to find: skipping a clear one keeps it so. */
  lemma Advance(w: bv32, k: nat)
    requires !Exhausted(w, k) && Misses(Bit(k), w)
    ensures k < 31 && !Has(w, k) && !Exhausted(w, k + 1) && Bit(k + 1) != 0 && Shifted(Bit(k)) == Bit(k + 1)
  {
    hide Spent, Bit, OneHot;
    AndSymmetric(Bit(k), w);
    EndExhausted(w, k);
    BitUp(k);
    BitNext(k);
    AdvanceWord(Bit(k), w);
    LastBit();
  }

  lemma AdvanceWord(a: bv32, w: bv32)
    requires OneHot(a) && !Spent(a, w) && a & w == 0
    ensures a != 0x8000_0000 && !Spent(a << 1, w) && a << 1 != 0
  {}

  lemma AndSymmetric(a: bv32, b: bv32)
    ensures a & b == b & a
  {}

  lemma EndExhausted(w: bv32, k: nat)
    ensures k >= 32 ==> Exhausted(w, k)
  {
    if k >= 32 {
      LastBit();
      ZeroStays(32, k);
    }
  }

  lemma NotExhausted(w: bv32, k: nat)
    ensures !Exhausted(w, k) ==> Bit(k) != 0
    ensures w != 0 ==> !Exhausted(w, 0)
  {}

  /** The word written through when a false alarm is cleared. */
  lemma UnmarkWord(s: Binmap, block: int, k: nat)
    requires 0 <= block < 4 && k < 32
    ensures Unmark(s, 32 * block + k) == s[block := Cleared(s[block], Bit(k))]
  {
    hide Bit, Cleared;
    assert (32 * block + k) / 32 == block && (32 * block + k) % 32 == k;
  }

  lemma FirstBit()
    ensures Bit(0) == 1
  {}
}
