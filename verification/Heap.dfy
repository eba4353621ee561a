/** The ghost heap: which chunks exist, how large they are and what they are used for,
    and the invariants that tie this picture to the words in memory. */
module Heap {
  import opened Sizes
  import opened Memory
  import opened Protect

  /** Live: handed to the client. Raw: taken off every list and owned by the operation that is
      running; its head may hold anything. Fence: an artificial 16-byte chunk at the end of an
      abandoned segment. Gap: the second, last fencepost of such a segment together with the foreign
      memory behind it; its head says 16. Listed: on the singly linked list `l`. Binned: in the
      circular list of bin `b`. Ranks order a list from its first chunk to its last. */
  datatype Status = Live | Raw | Fence | Gap | Listed(l: int, r: real) | Binned(b: int, r: real)
  datatype Chunk = Chunk(n: int, st: Status)
  type Heap = map<int, Chunk>

  // ---------------------------------------------------------------- layout

  ghost predicate Placed(H: Heap, base: int, top: int, p: int)
    requires p in H
  {
    var c := H[p];
    && base <= p && p % 16 == 0 && c.n % 16 == 0 && c.n >= 16
    && (c.st.Fence? ==> c.n == 16)
    && (c.st.Live? || c.st.Listed? || c.st.Binned? ==> c.n >= MINSIZE)
    && p + c.n <= top
    && (p + c.n == top || p + c.n in H)
    && (p + c.n in H && H[p + c.n].st.Gap? ==> c.st.Fence?)
    && (c.st.Gap? ==> p - 16 in H && H[p - 16] == Chunk(16, Fence))
  }

  ghost predicate Apart(H: Heap, p: int, q: int) {
    p in H && q in H ==> p + H[p].n <= q || q + H[q].n <= p
  }

  /** Chunks are aligned and disjoint, the first begins at `base`, and each ends where the next one
      or top begins. */
  ghost predicate Tiled(H: Heap, base: int, top: int) {
    && (base < top ==> base in H)
    && (forall p {:trigger Placed(H, base, top, p)} :: p in H ==> Placed(H, base, top, p))
    && (forall p, q {:trigger Apart(H, p, q)} :: p != q ==> Apart(H, p, q))
  }

  // ---------------------------------------------------------------- boundary tags

  /** The chunk below `p` is owned by the running operation. */
  ghost predicate RawBefore(H: Heap, p: int) {
    exists d {:trigger H[d]} :: d in H && H[d].st.Raw? && d + H[d].n == p
  }

  ghost predicate TagAt(m: Mem, H: Heap, top: int, p: int)
    requires p in H
  {
    var c := H[p];
    var q := p + c.n;
    && (!c.st.Raw? && !c.st.Gap? ==> m.Head(p) == c.n || m.Head(p) == c.n + 1)
    && (c.st.Gap? ==> m.Head(p) == 17)
    && (c.st.Live? || c.st.Listed? || c.st.Fence? || c.st.Gap? ==>
          q == top || (q in H && (H[q].st.Raw? || H[q].st.Gap? || m.Head(q) == H[q].n + 1)))
    && (c.st.Binned? ==>
          m.Head(p) == c.n + 1 && m.PrevSize(q) == c.n && q in H && !H[q].st.Raw? && m.Head(q) == H[q].n)
    && (!c.st.Raw? && !c.st.Gap? && m.Head(p) == c.n ==>
          RawBefore(H, p)
          || var d := p - m.PrevSize(p); d in H && H[d].n == m.PrevSize(p) && H[d].st.Binned?)
  }

  /** Every head holds the size of its chunk; the P bit of a chunk is clear only if the chunk
      below is binned, and then the footer gives that chunk's size; binned chunks do not touch. */
  ghost predicate Tags(m: Mem, H: Heap, top: int) {
    forall p {:trigger TagAt(m, H, top, p)} :: p in H ==> TagAt(m, H, top, p)
  }

  // ---------------------------------------------------------------- bins

  ghost predicate InBin(H: Heap, p: int, b: int) {
    p in H && H[p].st.Binned? && H[p].st.b == b
  }

  ghost predicate Node(H: Heap, x: int, b: int) {
    x == Hdr(b) || InBin(H, x, b)
  }

  ghost predicate BinOk(H: Heap, p: int)
    requires p in H
  {
    H[p].st.Binned? ==>
      H[p].n >= MINSIZE && 1 <= H[p].st.b <= 126 && (H[p].st.b == UNSORTED || H[p].st.b == BinIndex(H[p].n))
  }

  /** Ranks within a bin are distinct, and large bins are sorted, largest chunk first. */
  ghost predicate OrdAt(H: Heap, p: int, q: int) {
    p in H && q in H && H[p].st.Binned? && H[q].st.Binned? && H[p].st.b == H[q].st.b ==>
      && H[p].st.r != H[q].st.r
      && (H[p].st.b >= 64 && H[p].st.r < H[q].st.r ==> H[p].n >= H[q].n)
  }

  ghost predicate Ordered(H: Heap) {
    && (forall p {:trigger BinOk(H, p)} :: p in H ==> BinOk(H, p))
    && (forall p, q {:trigger OrdAt(H, p, q)} :: p != q ==> OrdAt(H, p, q))
  }

  /** y is the node right after x in ring b: no chunk of the bin ranks strictly between them. */
  ghost predicate Follows(H: Heap, b: int, x: int, y: int) {
    && Node(H, x, b) && Node(H, y, b)
    && (InBin(H, x, b) && InBin(H, y, b) ==> H[x].st.r < H[y].st.r)
    && (forall q {:trigger InBin(H, q, b)} :: InBin(H, q, b) ==>
          (InBin(H, x, b) && H[q].st.r <= H[x].st.r) || (InBin(H, y, b) && H[y].st.r <= H[q].st.r))
  }

  ghost predicate RingAt(m: Mem, H: Heap, b: int, x: int) {
    Node(H, x, b) ==>
      && Follows(H, b, x, m.Fd(x)) && m.Bk(m.Fd(x)) == x
      && Follows(H, b, m.Bk(x), x) && m.Fd(m.Bk(x)) == x
  }

  /** Each bin is a circular doubly linked list through its header, in rank order. */
  ghost predicate Rings(m: Mem, H: Heap) {
    forall b, x {:trigger RingAt(m, H, b, x)} :: 1 <= b <= 127 ==> RingAt(m, H, b, x)
  }

  // ---------------------------------------------------------------- large bins

  /** A chunk of a large bin with non-null nextsize links. */
  ghost predicate Lead(m: Mem, H: Heap, p: int, b: int) {
    InBin(H, p, b) && m.FdNext(p) != NULL
  }

  /** f has the next smaller size after p in bin b, or p has the smallest and f the largest. */
  ghost predicate NextLower(H: Heap, b: int, p: int, f: int)
    requires InBin(H, p, b) && InBin(H, f, b)
  {
    || (H[f].n < H[p].n
        && forall q {:trigger InBin(H, q, b)} :: InBin(H, q, b) ==> H[p].n <= H[q].n || H[q].n <= H[f].n)
    || (forall q {:trigger InBin(H, q, b)} :: InBin(H, q, b) ==> H[p].n <= H[q].n <= H[f].n)
  }

  ghost predicate FirstOfSize(H: Heap, b: int, p: int)
    requires InBin(H, p, b)
  {
    forall q {:trigger InBin(H, q, b)} :: InBin(H, q, b) && H[q].n == H[p].n ==> H[p].st.r <= H[q].st.r
  }

  ghost predicate NextSizeAt(m: Mem, H: Heap, b: int, p: int) {
    InBin(H, p, b) && !InSmallRange(H[p].n) ==>
      if b == UNSORTED then
        m.FdNext(p) == NULL && m.BkNext(p) == NULL
      else if m.FdNext(p) == NULL then
        m.BkNext(p) == NULL && exists q {:trigger Lead(m, H, q, b)} :: Lead(m, H, q, b) && H[q].n == H[p].n && H[q].st.r < H[p].st.r
      else
        var f, k := m.FdNext(p), m.BkNext(p);
        && Lead(m, H, f, b) && m.BkNext(f) == p
        && Lead(m, H, k, b) && m.FdNext(k) == p
        && FirstOfSize(H, b, p) && NextLower(H, b, p, f)
  }

  /** The first chunk of each size in a large bin is on the nextsize ring, which runs through
      strictly decreasing sizes and wraps around; every other large chunk has null links. */
  ghost predicate NextSizes(m: Mem, H: Heap) {
    forall b, p {:trigger NextSizeAt(m, H, b, p)} :: NextSizeAt(m, H, b, p)
  }

  // ---------------------------------------------------------------- singly linked lists

  const NFASTBINS := 10
  const TCACHE_SMALL_BINS := 64
  const TCACHE_MAX_BINS := 76

  /** The chain malloc_consolidate has detached from a fastbin; its head is a local variable. */
  const DETACHED := -1

  /** Lists 0 to 9 are the fastbins, lists 10 to 85 the bins of the thread cache.
      `Cell(l)` is the word that holds the head pointer of list l. */
  function Cell(l: int): int {
    16 * (l + 1)
  }

  /** Fastbin links point at chunks, thread-cache links at user memory. */
  function Link(l: int, p: int): int {
    if l < NFASTBINS then p else p + 16
  }

  ghost predicate InList(H: Heap, p: int, l: int) {
    p in H && H[p].st.Listed? && H[p].st.l == l
  }

  /** What the link word at `a` points to: heads are stored plainly, links are masked. */
  function Pointee(m: Mem, l: int, a: int): int {
    if a == Cell(l) then m.e(a) else Mask(a, m.e(a))
  }

  ghost predicate After(H: Heap, l: int, a: int, q: int)
    requires InList(H, q, l)
  {
    a == Cell(l) || (InList(H, a - 16, l) && H[a - 16].st.r < H[q].st.r)
  }

  /** A link word of list l: its head, or the fd word of one of its chunks. */
  ghost predicate IsCell(H: Heap, l: int, a: int) {
    (a == Cell(l) && 0 <= l) || InList(H, a - 16, l)
  }

  ghost predicate ListAt(m: Mem, H: Heap, l: int, a: int) {
    IsCell(H, l, a) ==>
      var v := Pointee(m, l, a);
      if v == NULL then
        forall q {:trigger InList(H, q, l)} :: InList(H, q, l) ==> !After(H, l, a, q)
      else
        var s := if l < NFASTBINS then v else v - 16;
        && InList(H, s, l) && After(H, l, a, s)
        && forall q {:trigger InList(H, q, l)} :: InList(H, q, l) && After(H, l, a, q) ==> H[s].st.r <= H[q].st.r
  }

  /** The size class of list l. */
  predicate ListSize(l: int, n: int) {
    if l == DETACHED then n >= MINSIZE
    else if l < 0 then false
    else if l < NFASTBINS then l <= 6 && n == 16 * (l + 2)
    else if l < NFASTBINS + TCACHE_SMALL_BINS then n == 16 * (l - NFASTBINS) + MINSIZE
    else l < NFASTBINS + TCACHE_MAX_BINS && LargeTidx(n) == l - NFASTBINS
  }

  ghost predicate SingleOk(H: Heap, p: int)
    requires p in H
  {
    H[p].st.Listed? ==> ListSize(H[p].st.l, H[p].n)
  }

  /** Ranks within a list are distinct; a large thread-cache bin is sorted, smallest chunk first. */
  ghost predicate SingleOrd(H: Heap, p: int, q: int) {
    p in H && q in H && H[p].st.Listed? && H[q].st.Listed? && H[p].st.l == H[q].st.l ==>
      && H[p].st.r != H[q].st.r
      && (H[p].st.r < H[q].st.r ==> H[p].n <= H[q].n)
  }

  ghost predicate Lists(m: Mem, H: Heap) {
    && (forall p {:trigger SingleOk(H, p)} :: p in H ==> SingleOk(H, p))
    && (forall p, q {:trigger SingleOrd(H, p, q)} :: p != q ==> SingleOrd(H, p, q))
    && (forall l, a {:trigger ListAt(m, H, l, a)} :: DETACHED <= l < 86 ==> ListAt(m, H, l, a))
  }

  // ---------------------------------------------------------------- all lists together

  ghost predicate Low(H: Heap) {
    forall p {:trigger p in H} :: p in H ==> p >= HEAP_MIN
  }

  ghost predicate Links(m: Mem, H: Heap) {
    Ordered(H) && Rings(m, H) && NextSizes(m, H) && Lists(m, H)
  }
}
