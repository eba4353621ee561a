/** Chunk sizes, request padding and bin indexing (scalloc.c, 64-bit configuration:
    SIZE_SZ 8, MALLOC_ALIGNMENT 16, MINSIZE 32). All sizes are in bytes. */
module Sizes {

  const MINSIZE := 32
  const CHUNK_HDR_SZ := 16
  const MIN_LARGE_SIZE := 1024
  const NBINS := 128
  const PTRDIFF_MAX := 0x7FFF_FFFF_FFFF_FFFF
  const PAGE := 4096

  /** `request2size`: room for one extra word, rounded up to 16, at least MINSIZE. */
  function Request2Size(req: nat): int {
    if req + 8 + 15 < MINSIZE then MINSIZE else (req + 8 + 15) - (req + 8 + 15) % 16
  }

  /** The usable bytes of a chunk of size `n` (`memsize`): all but the header word pair,
      plus the word it shares with its successor. */
  function UsableSize(n: int): int {
    n - CHUNK_HDR_SZ + 8
  }

  predicate InSmallRange(n: int) {
    n < MIN_LARGE_SIZE
  }

  function LargeBinIndex(n: int): int {
    if n / 64 <= 48 then 48 + n / 64
    else if n / 512 <= 20 then 91 + n / 512
    else if n / 4096 <= 10 then 110 + n / 4096
    else if n / 32768 <= 4 then 119 + n / 32768
    else if n / 262144 <= 2 then 124 + n / 262144
    else 126
  }

  function BinIndex(n: int): int {
    if InSmallRange(n) then n / 16 else LargeBinIndex(n)
  }

  function FastIndex(n: int): int {
    n / 16 - 2
  }

  function Log2(n: int): int {
    if n <= 1 then 0 else 1 + Log2(n / 2)
  }

  /** `large_csize2tidx`: thread-cache bin 64 holds sizes up to 2047, bin 65 up to 4095, and so on. */
  function LargeTidx(n: int): int {
    64 + Log2(n) - 10
  }

  function AlignUp(x: int, a: int): int
    requires a > 0
  {
    x + a - 1 - (x + a - 1) % a
  }

  function AlignDown(x: int, a: int): int
    requires a > 0
  {
    x - x % a
  }

  function Min(a: int, b: int): int {
    if a <= b then a else b
  }

  lemma PageMultiple(x: int, y: int)
    requires x % PAGE == 0 && y % 16 == 0
    ensures x % 16 == 0 && (x - y) % 16 == 0
  {
    var k, j := x / PAGE, y / 16;
    assert x == 16 * (256 * k) && x - y == 16 * (256 * k - j);
    SixteenTimes(256 * k);
    SixteenTimes(256 * k - j);
  }

  lemma SixteenTimes(q: int)
    ensures (16 * q) % 16 == 0
  {}

  lemma SixteenSum(x: int, y: int)
    requires x % 16 == 0 && y % 16 == 0
    ensures (x + y) % 16 == 0 && (x - y) % 16 == 0
  {
    var k, j := x / 16, y / 16;
    assert x + y == 16 * (k + j) && x - y == 16 * (k - j);
    SixteenTimes(k + j);
    SixteenTimes(k - j);
  }

  /** Adding and taking away whole pages. */
  lemma PageSum(x: int, y: int)
    requires x % PAGE == 0 && y % PAGE == 0
    ensures (x + y) % PAGE == 0 && (x - y) % PAGE == 0
  {
    var k, j := x / PAGE, y / PAGE;
    assert x + y == PAGE * (k + j) && x - y == PAGE * (k - j);
    PageTimes(k + j);
    PageTimes(k - j);
  }

  lemma PageTimes(q: int)
    ensures (PAGE * q) % PAGE == 0
  {}

  /** The padded size is the least legal chunk size whose usable bytes cover the request. */
  lemma Request2SizeIsLeast(req: nat, n: int)
    ensures var nb := Request2Size(req);
            && nb % 16 == 0 && nb >= MINSIZE && UsableSize(nb) >= req
            && (n % 16 == 0 && n >= MINSIZE && UsableSize(n) >= req ==> nb <= n)
  {}

  /** Padding a request of nb - MALLOC_ALIGN_MASK gives back nb. */
  lemma Request2SizeInverse(nb: int)
    requires nb % 16 == 0 && nb >= MINSIZE
    ensures Request2Size(nb - 15) == nb
  {}

  lemma {:induction false} Log2Positive(n: int)
    ensures Log2(n) >= 0
    decreases n
  {
    if n > 1 {
      Log2Positive(n / 2);
    }
  }

  /** Sizes in one class differ by less than a factor of two. */
  lemma {:induction false} Log2Double(a: int, b: int)
    requires 1 <= a <= b && Log2(a) == Log2(b)
    ensures b < 2 * a
    decreases b
  {
    if a > 1 {
      Log2Double(a / 2, b / 2);
    } else if b > 1 {
      Log2Positive(b / 2);
    }
  }

  lemma {:induction false} Log2Monotone(a: int, b: int)
    requires a <= b
    ensures Log2(a) <= Log2(b)
    decreases b
  {
    if a > 1 {
      Log2Monotone(a / 2, b / 2);
    } else {
      Log2Positive(b);
    }
  }

  /** Sizes beyond the small thread-cache bins and below 4 MB have one of the twelve large bins. */
  lemma LargeTidxRange(n: int)
    requires 1024 <= n < 0x40_0000
    ensures 64 <= LargeTidx(n) < 76
  {
    Log2Monotone(1024, n);
    Log2Monotone(n, 0x3F_FFFF);
    assert Log2(1024) == 10;
    assert Log2(0x3FF) == 9;
    assert Log2(0x3FFF) == 13;
    assert Log2(0x3_FFFF) == 17;
    assert Log2(0x3F_FFFF) == 21;
  }

  lemma LargeBinIndexMonotone(a: int, b: int)
    requires 0 <= a <= b
    ensures LargeBinIndex(a) <= LargeBinIndex(b)
  {}

  /** Bins are ordered by size: a chunk in a strictly higher bin is strictly larger. */
  lemma BinIndexMonotone(a: int, b: int)
    requires 0 <= a <= b
    ensures BinIndex(a) <= BinIndex(b)
  {
    LargeBinIndexMonotone(a, b);
    if InSmallRange(a) && !InSmallRange(b) {
      LargeBinIndexMonotone(1024, b);
    }
  }

  /** Legal chunks get a bin number between 2 and 126, small ones below 64 and large ones from 64 up. */
  lemma BinIndexRange(n: int)
    requires n >= MINSIZE
    ensures 2 <= BinIndex(n) <= 126
    ensures BinIndex(n) < 64 <==> InSmallRange(n)
  {
    if !InSmallRange(n) {
      LargeBinIndexMonotone(1024, n);
    }
  }
}
