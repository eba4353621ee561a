/** Safe-linking: the next pointers of singly linked lists are masked with the page number of
    the cell that holds them (PROTECT_PTR, scalloc.c). */
module Protect {

  /** Bitwise exclusive or of two words. */
  function Xor(a: nat, b: nat): nat
    decreases a + b
  {
    if a == 0 && b == 0 then 0 else 2 * Xor(a / 2, b / 2) + (a + b) % 2
  }

  /** `PROTECT_PTR(pos, ptr)`; `REVEAL_PTR` is the same function applied to the stored word. */
  function Mask(pos: int, ptr: int): int {
    if pos < 0 || ptr < 0 then ptr else Xor(pos / 4096, ptr)
  }

  lemma {:induction false} XorBits(a: nat, b: nat)
    ensures Xor(a, b) / 2 == Xor(a / 2, b / 2) && Xor(a, b) % 2 == (a + b) % 2
    ensures a == 0 && b == 0 ==> Xor(a, b) == 0
  {}

  lemma Parity(k: nat, x: nat, y: nat)
    requires y % 2 == (k + x) % 2
    ensures (k + y) % 2 == x % 2
  {}

  lemma {:induction false} XorCancels(k: nat, x: nat)
    ensures Xor(k, Xor(k, x)) == x
    decreases k + x
  {
    hide Xor;
    var y := Xor(k, x);
    XorBits(k, x);
    if k == 0 && x == 0 {
    } else {
      XorCancels(k / 2, x / 2);
      XorBits(k, y);
      Parity(k, x, y);
    }
  }

  /** Revealing a protected pointer at the cell it was protected for gives the pointer back. */
  lemma MaskRoundTrip(pos: int, ptr: int)
    ensures Mask(pos, Mask(pos, ptr)) == ptr
  {
    if pos >= 0 && ptr >= 0 {
      XorCancels(pos / 4096, ptr);
    }
  }
}
