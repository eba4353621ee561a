/** Chunks mapped directly from the system: `sysmalloc_mmap`, the header shift of `_int_memalign` and
    `munmap_chunk`, with the counters they keep. */
module Mmap {
  import opened Sizes
  import opened Memalign
  import opened Sums

  const NULL := 0
  /** The flag bit that marks a mapped chunk. */
  const IS_MMAPPED := 2

  class MmapState {
    /** The prev_size and size words of mapped chunks. */
    var prevSize: map<int, int>
    var head: map<int, int>
    var nMmaps: int
    var maxNMmaps: int
    var mmappedMem: int
    var maxMmappedMem: int
    /** The system's live mappings, base address to length. */
    var maps: map<int, int>
    /** The mapping each live chunk lies in. */
    ghost var chunks: map<int, int>

    /** The counters count the mappings and their bytes. */
    ghost predicate Valid()
      reads this
    {
      && Tables(prevSize, head, maps, chunks)
      && nMmaps == |maps.Keys| && mmappedMem == Sum(maps, maps.Keys)
      && nMmaps <= maxNMmaps && mmappedMem <= maxMmappedMem
    }

    constructor ()
      ensures Valid() && maps == map[] && chunks == map[]
    {
      prevSize, head, maps, chunks := map[], map[], map[], map[];
      nMmaps, maxNMmaps, mmappedMem, maxMmappedMem := 0, 0, 0, 0;
    }

    /** Map a chunk for nb bytes. The system's answer to the call of MMAP is `mm`: where the mapping is, or 0. */
    method SysmallocMmap(nb: int, mm: int) returns (p: int)
      requires Valid() && nb >= MINSIZE && nb % 16 == 0 && Mappable(maps, mm, AlignUp(nb + CHUNK_HDR_SZ, PAGE))
      modifies this
      ensures Valid() && p == mm
      ensures mm == 0 ==> maps == old(maps) && chunks == old(chunks) && maxNMmaps == old(maxNMmaps) && maxMmappedMem == old(maxMmappedMem)
      ensures mm != 0 ==> mm !in old(maps) && maps == old(maps)[mm := AlignUp(nb + CHUNK_HDR_SZ, PAGE)] && chunks == old(chunks)[mm := mm]
      ensures mm != 0 ==> mm in head && nb <= SizeField(head[mm])
      ensures mm != 0 ==> maxNMmaps == Max(old(maxNMmaps), |maps.Keys|) && maxMmappedMem == Max(old(maxMmappedMem), Sum(maps, maps.Keys))
    {
      hide SizeField, AlignUp, HeaderOk, Sum, Tables;
      var padding := 0;
      RoundUp(nb + CHUNK_HDR_SZ);
      var size := AlignUp(nb + padding + CHUNK_HDR_SZ, PAGE);
      if mm == 0 {
        return NULL;
      }
      p := mm + padding;
      FreshHeader(mm, size);
      NewSum(maps, mm, size);
      AddChunk(prevSize, head, maps, chunks, mm, size);
      prevSize := prevSize[p := padding];
      head := head[p := size - padding - CHUNK_HDR_SZ + IS_MMAPPED];
      maps := maps[mm := size];
      chunks := chunks[p := mm];
      Count(size);
    }

    /** The statistics of one more mapping. */
    method Count(size: int)
      requires size >= 0
      modifies this`nMmaps, this`maxNMmaps, this`mmappedMem, this`maxMmappedMem
      ensures nMmaps == old(nMmaps) + 1 && mmappedMem == old(mmappedMem) + size
      ensures maxNMmaps == Max(old(maxNMmaps), nMmaps) && maxMmappedMem == Max(old(maxMmappedMem), mmappedMem)
    {
      nMmaps := nMmaps + 1;
      if nMmaps > maxNMmaps {
        maxNMmaps := nMmaps;
      }
      mmappedMem := mmappedMem + size;
      if mmappedMem > maxMmappedMem {
        maxMmappedMem := mmappedMem;
      }
    }

    /** The chunk just mapped is handed out at an aligned address: only its header moves. */
    method ShiftHeader(p: int, alignment: int, ghost nb: int) returns (newp: int)
      requires Valid() && p in chunks && chunks[p] == p && IsPowerOf2(alignment) && alignment >= MINSIZE && (p + 16) % alignment != 0
      requires nb >= MINSIZE && nb % 16 == 0 && p in head && SizeField(head[p]) >= nb + alignment + MINSIZE
      modifies this
      ensures Valid() && maps == old(maps) && chunks == (old(chunks) - {p})[newp := p] && (newp + 16) % alignment == 0
      ensures newp in head && nb <= SizeField(head[newp])
      ensures maxNMmaps == old(maxNMmaps) && maxMmappedMem == old(maxMmappedMem)
    {
      hide SizeField, AlignedChunk, HeaderOk, IsPowerOf2, Sum, Tables;
      TableRow(prevSize, head, maps, chunks, p);
      ShiftedHeader(p, maps[p], head[p], alignment, nb);
      newp := AlignedChunk(p, alignment);
      var leadsize := newp - p;
      var newsize := SizeField(head[p]) - leadsize;
      MoveChunk(prevSize, head, maps, chunks, p, newp, newsize + IS_MMAPPED);
      prevSize := prevSize[newp := prevSize[p] + leadsize];
      head := head[newp := newsize + IS_MMAPPED];
      chunks := (chunks - {p})[newp := p];
    }

    /** Give the mapping of chunk `p` back: just what was mapped for it. The test for an invalid pointer
        does not fire. */
    method MunmapChunk(p: int)
      requires Valid() && p in chunks
      modifies this
      ensures Valid() && maps == old(maps) - {old(chunks)[p]} && chunks == old(chunks) - {p}
      ensures maxNMmaps == old(maxNMmaps) && maxMmappedMem == old(maxMmappedMem)
    {
      hide SizeField, HeaderOk, IsPowerOf2, Sum, Tables;
      TableRow(prevSize, head, maps, chunks, p);
      ghost var b := chunks[p];
      HeaderFacts(p, b, maps[b], head[p]);
      if (head[p] / 2) % 2 == 0 {
        assert false; // assert (chunk_is_mmapped (p))
      }
      var mem := p + 16;
      var block := p - prevSize[p];
      var totalSize := prevSize[p] + SizeField(head[p]) + CHUNK_HDR_SZ;
      if block % PAGE != 0 || totalSize % PAGE != 0 || !(mem % PAGE == 0 || IsPowerOf2(mem % PAGE)) {
        assert false; // munmap_chunk(): invalid pointer
      }
      OldSum(maps, b);
      nMmaps := nMmaps - 1;
      mmappedMem := mmappedMem - totalSize;
      DropChunk(prevSize, head, maps, chunks, p);
      maps := maps - {block};
      chunks := chunks - {p};
    }
  }

  function Max(a: int, b: int): int {
    if a < b then b else a
  }

  /** What MMAP returns: 0 for failure, otherwise whole pages that overlap no live mapping. */
  predicate Mappable(maps: map<int, int>, mm: int, size: int) {
    mm != 0 ==>
      && mm > 0 && mm % PAGE == 0 && mm !in maps
      && forall b {:trigger b in maps} :: b in maps ==> b + maps[b] <= mm || mm + size <= b
  }

  /** The words of a mapped chunk: its prev_size is its offset in the mapping. */
  ghost predicate Row(prevSize: map<int, int>, head: map<int, int>, maps: map<int, int>, chunks: map<int, int>, p: int) {
    p in chunks ==>
      var b := chunks[p];
      b in maps && p in prevSize && p in head && prevSize[p] == p - b && HeaderOk(p, b, maps[b], head[p]) && p + 32 <= b + maps[b]
  }

  /** Live mappings do not overlap, and each holds at most one chunk. */
  ghost predicate Tables(prevSize: map<int, int>, head: map<int, int>, maps: map<int, int>, chunks: map<int, int>) {
    && (forall p {:trigger Row(prevSize, head, maps, chunks, p)} :: Row(prevSize, head, maps, chunks, p))
    && (forall b, c {:trigger Disjoint(maps, b, c)} :: Disjoint(maps, b, c))
    && (forall p, q {:trigger OneEach(chunks, p, q)} :: OneEach(chunks, p, q))
  }

  ghost predicate Disjoint(maps: map<int, int>, b: int, c: int) {
    b in maps && c in maps && b != c ==> b + maps[b] <= c || c + maps[c] <= b
  }

  ghost predicate OneEach(chunks: map<int, int>, p: int, q: int) {
    p in chunks && q in chunks && chunks[p] == chunks[q] ==> p == q
  }

  lemma TableRow(prevSize: map<int, int>, head: map<int, int>, maps: map<int, int>, chunks: map<int, int>, p: int)
    requires Tables(prevSize, head, maps, chunks) && p in chunks
    ensures var b := chunks[p]; b in maps && p in prevSize && p in head && prevSize[p] == p - b && HeaderOk(p, b, maps[b], head[p])
  {
    assert Row(prevSize, head, maps, chunks, p);
  }

  lemma AddChunk(prevSize: map<int, int>, head: map<int, int>, maps: map<int, int>, chunks: map<int, int>, mm: int, size: int)
    requires Tables(prevSize, head, maps, chunks) && mm !in maps && size >= 32 && HeaderOk(mm, mm, size, size - CHUNK_HDR_SZ + IS_MMAPPED)
    requires forall b {:trigger b in maps} :: b in maps ==> b + maps[b] <= mm || mm + size <= b
    ensures Tables(prevSize[mm := 0], head[mm := size - CHUNK_HDR_SZ + IS_MMAPPED], maps[mm := size], chunks[mm := mm])
  {
    hide HeaderOk;
    var prevSize', head', maps', chunks' := prevSize[mm := 0], head[mm := size - CHUNK_HDR_SZ + IS_MMAPPED], maps[mm := size], chunks[mm := mm];
    forall p ensures Row(prevSize', head', maps', chunks', p) {
      assert Row(prevSize, head, maps, chunks, p);
    }
    forall b, c ensures Disjoint(maps', b, c) {
      assert Disjoint(maps, b, c);
    }
    forall p, q ensures OneEach(chunks', p, q) {
      assert OneEach(chunks, p, q) && Row(prevSize, head, maps, chunks, p) && Row(prevSize, head, maps, chunks, q);
    }
  }

  lemma MoveChunk(prevSize: map<int, int>, head: map<int, int>, maps: map<int, int>, chunks: map<int, int>, p: int, newp: int, h: int)
    requires Tables(prevSize, head, maps, chunks) && p in chunks && chunks[p] == p && newp > p && p in maps && HeaderOk(newp, p, maps[p], h) && h >= 18
    ensures p in prevSize && p in head && Tables(prevSize[newp := prevSize[p] + (newp - p)], head[newp := h], maps, (chunks - {p})[newp := p])
  {
    assert Row(prevSize, head, maps, chunks, p);
    var prevSize', head', chunks' := prevSize[newp := prevSize[p] + (newp - p)], head[newp := h], (chunks - {p})[newp := p];
    forall q ensures Row(prevSize', head', maps, chunks', q) {
      assert Row(prevSize, head, maps, chunks, q);
    }
    forall q, r ensures OneEach(chunks', q, r) {
      assert OneEach(chunks, q, r) && OneEach(chunks, q, p) && OneEach(chunks, r, p);
    }
  }

  lemma DropChunk(prevSize: map<int, int>, head: map<int, int>, maps: map<int, int>, chunks: map<int, int>, p: int)
    requires Tables(prevSize, head, maps, chunks) && p in chunks
    ensures Tables(prevSize, head, maps - {chunks[p]}, chunks - {p})
  {
    hide HeaderOk;
    var maps', chunks' := maps - {chunks[p]}, chunks - {p};
    forall q ensures Row(prevSize, head, maps', chunks', q) {
      assert Row(prevSize, head, maps, chunks, q) && OneEach(chunks, p, q);
    }
    forall b, c ensures Disjoint(maps', b, c) {
      assert Disjoint(maps, b, c);
    }
    forall q, r ensures OneEach(chunks', q, r) {
      assert OneEach(chunks, q, r);
    }
  }

  /** `chunksize`. */
  function SizeField(h: int): int {
    h - h % 8
  }

  /** The header of chunk `p` in the mapping of n bytes at b: the size is what the mapping has beyond
      the chunk's offset, but for the overhead at the end, and the offset of user memory in its page is
      one that the test in munmap_chunk accepts. */
  predicate HeaderOk(p: int, b: int, n: int, h: int) {
    && b % PAGE == 0 && n % PAGE == 0 && p >= b && (p - b) % 16 == 0
    && h == n - (p - b) - CHUNK_HDR_SZ + IS_MMAPPED && h > IS_MMAPPED && OffsetOk(p + 16 - b)
  }

  lemma FreshHeader(mm: int, size: int)
    requires mm % PAGE == 0 && size % PAGE == 0 && size > CHUNK_HDR_SZ
    ensures var h := size - CHUNK_HDR_SZ + IS_MMAPPED; HeaderOk(mm, mm, size, h) && SizeField(h) == size - CHUNK_HDR_SZ
  {
    PageMultiple(size, CHUNK_HDR_SZ);
    SizeOf(size - CHUNK_HDR_SZ + IS_MMAPPED, size - CHUNK_HDR_SZ);
    assert IsPowerOf2(16);
  }

  lemma HeaderFacts(p: int, b: int, n: int, h: int)
    requires HeaderOk(p, b, n, h)
    ensures (h / 2) % 2 == 1 && SizeField(h) == n - (p - b) - CHUNK_HDR_SZ
    ensures var mem := p + 16; mem % PAGE == 0 || IsPowerOf2(mem % PAGE)
    ensures b % PAGE == 0 && n % PAGE == 0
  {
    hide IsPowerOf2, SizeField;
    PageMultiple(n, p - b);
    SixteenSum(n - (p - b), CHUNK_HDR_SZ);
    SizeOf(h, n - (p - b) - CHUNK_HDR_SZ);
    PageRemainder(p + 16, b);
  }

  lemma ShiftedHeader(p: int, n: int, h: int, alignment: int, nb: int)
    requires HeaderOk(p, p, n, h) && IsPowerOf2(alignment) && alignment >= MINSIZE && (p + 16) % alignment != 0
    requires nb >= MINSIZE && nb % 16 == 0 && SizeField(h) >= nb + alignment + MINSIZE
    ensures var newp := AlignedChunk(p, alignment); var h' := SizeField(h) - (newp - p) + IS_MMAPPED;
            HeaderOk(newp, p, n, h') && (newp + 16) % alignment == 0 && nb <= SizeField(h') && newp > p && h' >= nb
  {
    hide AlignedChunk, IsPowerOf2, OffsetOk;
    HeaderFacts(p, p, n, h);
    PageMultiple(p, 0);
    PageMultiple(n, CHUNK_HDR_SZ);
    AlignedFits(p, alignment, nb, SizeField(h));
    AlignedOffset(p, alignment);
    var newp := AlignedChunk(p, alignment);
    SizeOf(SizeField(h) - (newp - p) + IS_MMAPPED, SizeField(h) - (newp - p));
    SixteenSum(newp, p);
  }

  /** An offset of user memory in its mapping: zero or a power of two within the page. */
  predicate OffsetOk(offset: int) {
    offset % PAGE == 0 || IsPowerOf2(offset % PAGE)
  }

  lemma RoundUp(x: int)
    requires x > 0 && x % 16 == 0
    ensures AlignUp(x, PAGE) % PAGE == 0 && AlignUp(x, PAGE) >= x && AlignUp(x, PAGE) % 16 == 0
  {
    PageMultiple(AlignUp(x, PAGE), 0);
  }

  /** A size with the flag bit gives both back. */
  lemma SizeOf(h: int, n: int)
    requires h == n + IS_MMAPPED && n % 16 == 0
    ensures SizeField(h) == n && (h / 2) % 2 == 1
  {
    var k := n / 16;
    assert h == 8 * (2 * k) + 2;
    FlagBits(2 * k);
  }

  lemma FlagBits(j: int)
    requires j % 2 == 0
    ensures (8 * j + 2) % 8 == 2 && ((8 * j + 2) / 2) % 2 == 1
  {
    var i := j / 2;
    assert j == 2 * i;
    HalfOf(8 * i + 1);
    OddTimes(4 * i);
    EightTimes(j);
  }

  lemma HalfOf(k: int)
    ensures (2 * k) / 2 == k
  {}

  lemma OddTimes(k: int)
    ensures (2 * k + 1) % 2 == 1
  {}

  lemma EightTimes(k: int)
    ensures (8 * k + 2) % 8 == 2
  {}

  lemma PageRemainder(mem: int, block: int)
    requires block % PAGE == 0
    ensures mem % PAGE == (mem - block) % PAGE
  {
    var k, q, r := block / PAGE, (mem - block) / PAGE, (mem - block) % PAGE;
    assert mem == PAGE * (q + k) + r;
    RemainderOf(q + k, r);
  }

  lemma RemainderOf(q: int, r: int)
    requires 0 <= r < PAGE
    ensures (PAGE * q + r) % PAGE == r
  {}

  lemma NewSum(maps: map<int, int>, b: int, n: int)
    requires b !in maps
    ensures maps[b := n].Keys == maps.Keys + {b} && |maps[b := n].Keys| == |maps.Keys| + 1
    ensures Sum(maps[b := n], maps[b := n].Keys) == Sum(maps, maps.Keys) + n
  {
    var m' := maps[b := n];
    SumAdd(m', maps.Keys, b);
    SumSame(m', maps, maps.Keys);
    assert m'.Keys == maps.Keys + {b};
  }

  lemma OldSum(maps: map<int, int>, b: int)
    requires b in maps
    ensures var m' := maps - {b}; |m'.Keys| == |maps.Keys| - 1 && Sum(m', m'.Keys) == Sum(maps, maps.Keys) - maps[b]
  {
    var m' := maps - {b};
    assert m'.Keys == maps.Keys - {b};
    SumRemove(maps, maps.Keys, b);
    SumSame(m', maps, m'.Keys);
  }

  /** Of two powers of two the smaller divides the larger. */
  lemma {:induction false} PowerDivides(a: int, b: int)
    requires IsPowerOf2(a) && IsPowerOf2(b) && a <= b
    ensures b % a == 0
    decreases b
  {
    if a > 1 {
      PowerDivides(a / 2, b / 2);
      DoubleMultiple(a / 2, b / 2);
    }
  }

  lemma DoubleMultiple(a: int, b: int)
    requires a > 0 && b % a == 0
    ensures (2 * b) % (2 * a) == 0
  {
    var q := b / a;
    assert 2 * b == q * (2 * a);
    MultipleOf(q, 2 * a);
  }

  lemma MultipleTrans(x: int, a: int, b: int)
    requires a > 0 && b > 0 && x % b == 0 && b % a == 0
    ensures x % a == 0
  {
    var q, k := x / b, b / a;
    assert x == q * (k * a);
    assert x == (q * k) * a;
    MultipleOf(q * k, a);
  }

  /** In a fresh mapping the aligned spot is at an offset the test in munmap_chunk accepts: the alignment
      itself, 64 if that is 32, or a page boundary. */
  lemma AlignedOffset(base: int, alignment: int)
    requires base % PAGE == 0 && IsPowerOf2(alignment) && alignment >= MINSIZE && (base + 16) % alignment != 0
    ensures OffsetOk(AlignedChunk(base, alignment) + 16 - base)
  {
    hide IsPowerOf2, AlignDown;
    PagePower();
    var x := AlignDown(base + 16 + alignment - 1, alignment);
    AlignDownFacts(base + 16 + alignment - 1, alignment);
    NextMultiple(x, alignment);
    if alignment <= PAGE {
      PowerDivides(alignment, PAGE);
      MultipleTrans(base, alignment, PAGE);
      OnlyMultiple(base, alignment, x);
      SmallOffset(alignment);
    } else {
      PowerDivides(PAGE, alignment);
      MultipleTrans(x, PAGE, alignment);
      MultipleTrans(x + alignment, PAGE, alignment);
      PageRemainder(x, base);
      PageRemainder(x + alignment, base);
    }
  }

  lemma PagePower()
    ensures IsPowerOf2(PAGE)
  {
    assert IsPowerOf2(16) && IsPowerOf2(256);
    assert IsPowerOf2(4096);
  }

  /** The multiple of a in (base + 15, base + 15 + a] is base + a. */
  lemma OnlyMultiple(base: int, a: int, x: int)
    requires a >= 32 && base % a == 0 && x % a == 0 && base + 15 < x <= base + 15 + a
    ensures x == base + a
  {
    var k, j := x / a, base / a;
    assert x == k * a && base == j * a;
    assert (k - j) * a == x - base;
    MultipleBound(k - j, a);
    MultipleBound(k - j - 1, a);
  }

  lemma SmallOffset(alignment: int)
    requires IsPowerOf2(alignment) && MINSIZE <= alignment <= PAGE
    ensures OffsetOk(alignment) && (alignment == 32 ==> OffsetOk(2 * alignment)) && (alignment > 32 ==> alignment >= 48)
  {
    hide IsPowerOf2;
    PagePower();
    PowerOf32();
    Power64();
    if alignment > 32 {
      PowerDivides(32, alignment);
    }
    assert alignment < PAGE ==> alignment % PAGE == alignment;
  }

  lemma PowerOf32()
    ensures IsPowerOf2(32)
  {
    assert IsPowerOf2(16);
  }

  lemma Power64()
    ensures IsPowerOf2(64) && 64 % PAGE == 64
  {
    assert IsPowerOf2(16);
  }
}
