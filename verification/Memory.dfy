/** Memory of 8-byte words, and the chunk fields stored in it.

    Addresses are byte addresses. The word at an address divisible by 16 is kept in bank `e`,
    the word 8 bytes above it in bank `o`; both banks are indexed by the multiple of 16.
    A chunk at `p` therefore has mchunk_prev_size in e(p), mchunk_size in o(p), fd in e(p + 16),
    bk in o(p + 16), fd_nextsize in e(p + 32) and bk_nextsize in o(p + 32).
    The arena's own tables live in low memory, below HEAP_MIN. */
module Memory {

  type Bank = int -> int

  const NULL := 0
  const HEAP_MIN := 8192

  /** `bin_at(av, b)`: a pretend chunk whose fd and bk are the b-th pair of av->bins, so that
      its fd_nextsize is the fd of bin b + 1. Bin 1 is the unsorted list. */
  function Hdr(b: int): int {
    2048 + 16 * b
  }

  const UNSORTED := 1

  function Put(b: Bank, a: int, v: int): Bank {
    x => if x == a then v else b(x)
  }

  datatype Mem = Mem(e: Bank, o: Bank) {
    function PrevSize(p: int): int { e(p) }
    function Head(p: int): int { o(p) }
    /** `chunksize`: the head with its three low flag bits masked off. */
    function Size(p: int): int { o(p) - o(p) % 8 }
    predicate PrevInuse(p: int) { o(p) % 2 == 1 }
    function Fd(p: int): int { e(p + 16) }
    function Bk(p: int): int { o(p + 16) }
    function FdNext(p: int): int { e(p + 32) }
    function BkNext(p: int): int { o(p + 32) }

    function SetPrevSize(p: int, v: int): Mem { Mem(Put(e, p, v), o) }
    function SetHead(p: int, v: int): Mem { Mem(e, Put(o, p, v)) }
    function SetFd(p: int, v: int): Mem { Mem(Put(e, p + 16, v), o) }
    function SetBk(p: int, v: int): Mem { Mem(e, Put(o, p + 16, v)) }
    function SetFdNext(p: int, v: int): Mem { Mem(Put(e, p + 32, v), o) }
    function SetBkNext(p: int, v: int): Mem { Mem(e, Put(o, p + 32, v)) }
    /** The four assignments that link `p` in between `bck` and `fwd`. */
    function Insert(p: int, bck: int, fwd: int): Mem {
      SetBk(p, bck).SetFd(p, fwd).SetFd(bck, p).SetBk(fwd, p)
    }
    /** `set_inuse_bit_at_offset` and `clear_inuse_bit_at_offset` on the chunk at `p`. */
    function SetPrevInuse(p: int): Mem { if PrevInuse(p) then this else Mem(e, Put(o, p, o(p) + 1)) }
    function ClearPrevInuse(p: int): Mem { if PrevInuse(p) then Mem(e, Put(o, p, o(p) - 1)) else this }
  }

  lemma WordDecodes(w: int, n: int)
    requires n % 16 == 0 && (w == n || w == n + 1)
    ensures w % 8 == w - n && w % 2 == w - n
  {
    var k := n / 16;
    assert n == 8 * (2 * k) && n == 2 * (8 * k);
    EvenTimes(2 * k);
    EvenTimes(8 * k);
  }

  lemma EvenTimes(q: int)
    ensures (8 * q) % 8 == 0 && (8 * q + 1) % 8 == 1 && (2 * q) % 2 == 0 && (2 * q + 1) % 2 == 1
  {}

  /** Memory that was never written. */
  const ZEROS := Mem(_ => 0, _ => 0)

  /** A head word made of a size and a P bit gives both back. */
  lemma HeadDecodes(m: Mem, p: int, n: int)
    requires n % 16 == 0 && (m.Head(p) == n || m.Head(p) == n + 1)
    ensures m.Size(p) == n && (m.PrevInuse(p) <==> m.Head(p) == n + 1)
  {
    WordDecodes(m.Head(p), n);
  }

  lemma OtherHead(m: Mem, q: int, v: int, p: int)
    requires q != p
    ensures m.SetHead(q, v).PrevInuse(p) == m.PrevInuse(p)
  {}

  /** The head written for the front part of a chunk that is cut says that the chunk below is in use. */
  lemma CutHead(m: Mem, p: int, n: int, r: int, v: int, f: int, w: int)
    requires n % 16 == 0 && r != p
    ensures m.SetHead(p, n + 1).SetHead(r, v).SetPrevSize(f, w).PrevInuse(p) && m.SetHead(p, n + 1).SetHead(r, v).PrevInuse(p)
  {
    HeadDecodes(m.SetHead(p, n + 1).SetHead(r, v), p, n);
  }
}
