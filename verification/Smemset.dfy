/** `smemset`: the aligned, unrolled word fill does what a byte-by-byte fill does (section 7.24.6.1 of
    ISO/IEC 9899:2018), within the size limits. 64-bit words, little-endian. */
module Smemset {

  const NULL := 0
  const OPSIZ := 8
  const LIMIT_GENERIC := 1048576

  datatype Context = Generic | Ethernet | Ip | Snmp | Udp | Tcp

  /** The largest length a context allows: never more than the generic limit. */
  function MaxAllowed(context: Context): (limit: int)
    ensures 0 < limit <= LIMIT_GENERIC
  {
    match context
    case Ethernet => 1518
    case Ip => 65535
    case Snmp => 1472
    case Udp => 65507
    case Tcp => 1460
    case Generic => LIMIT_GENERIC
  }

  /** The limits are those of the protocols: a frame has 1500 bytes of payload, a header of 14 and a checksum of 4; a
      datagram less than 2^16 bytes; and IP, UDP and TCP headers take at least 20, 8 and 20. */
  lemma LimitsOfProtocols()
    ensures var payload := MaxAllowed(Ethernet) - 14 - 4;
            && payload == 1500 && MaxAllowed(Snmp) == payload - 20 - 8 && MaxAllowed(Tcp) == payload - 20 - 20
            && MaxAllowed(Ip) == 0x1_0000 - 1 && MaxAllowed(Udp) == MaxAllowed(Ip) - 20 - 8 && MaxAllowed(Generic) == 1024 * 1024
  {}

  /** `smemset_validate_params_limited`: 0 if valid, -1 for NULL, -2 for too large. */
  function Validate(dst: int, len: nat, limit: int): int {
    if dst == NULL then -1
    else if len == 0 then 0
    else if len > limit then -2
    else 0
  }

  /** `(unsigned char)c`: what is left of c when multiples of 256 are taken away. */
  function Byte(c: int): (b: bv8)
    ensures (c - b as int) % 256 == 0
  {
    Remainder(c);
    (c % 256) as bv8
  }

  lemma Remainder(c: int)
    ensures (c - ((c % 256) as bv8) as int) % 256 == 0
  {
    assert c - ((c % 256) as bv8) as int == 256 * (c / 256);
  }

  /** The bytes s with those from k to k + n set to b. */
  function Filled(s: seq<bv8>, k: nat, n: nat, b: bv8): (r: seq<bv8>)
    requires k + n <= |s|
    ensures |r| == |s|
    ensures forall i :: 0 <= i < |s| ==> r[i] == if k <= i < k + n then b else s[i]
  {
    s[..k] + seq(n, _ => b) + s[k + n..]
  }

  lemma FilledMore(s: seq<bv8>, k: nat, n: nat, b: bv8)
    requires k + n < |s|
    ensures Filled(s, k, n + 1, b) == Filled(s, k, n, b)[k + n := b]
  {}

  lemma FilledNone(s: seq<bv8>, k: nat, b: bv8)
    requires k <= |s|
    ensures Filled(s, k, 0, b) == s
  {}

  // ---------------------------------------------------------------- words

  /** Byte i of a word, counted from the low end. */
  function ByteOf(w: bv64, i: int): bv8
    requires 0 <= i < OPSIZ
  {
    match i
    case 0 => (w & 0xFF) as bv8
    case 1 => ((w >> 8) & 0xFF) as bv8
    case 2 => ((w >> 16) & 0xFF) as bv8
    case 3 => ((w >> 24) & 0xFF) as bv8
    case 4 => ((w >> 32) & 0xFF) as bv8
    case 5 => ((w >> 40) & 0xFF) as bv8
    case 6 => ((w >> 48) & 0xFF) as bv8
    case _ => ((w >> 56) & 0xFF) as bv8
  }

  /** The byte copied into all eight places of a word, as the source builds it up. */
  function Spread(b: bv8): bv64 {
    var w := b as bv64;
    var w2 := w | (w << 8);
    var w4 := w2 | (w2 << 16);
    w4 | ((w4 << 16) << 16)
  }

  lemma SpreadBytes(b: bv8, i: int)
    requires 0 <= i < OPSIZ
    ensures ByteOf(Spread(b), i) == b
  {}

  /** A word store; its address is a multiple of the word size. */
  method StoreWord(mem: array<bv8>, at: nat, p: nat, w: bv64)
    requires p % OPSIZ == 0 && at <= p && p + OPSIZ <= at + mem.Length
    modifies mem
    ensures forall i :: 0 <= i < mem.Length ==> mem[i] == if p - at <= i < p - at + OPSIZ then ByteOf(w, i - (p - at)) else old(mem[i])
  {
    var k := p - at;
    mem[k], mem[k + 1], mem[k + 2], mem[k + 3] := ByteOf(w, 0), ByteOf(w, 1), ByteOf(w, 2), ByteOf(w, 3);
    mem[k + 4], mem[k + 5], mem[k + 6], mem[k + 7] := ByteOf(w, 4), ByteOf(w, 5), ByteOf(w, 6), ByteOf(w, 7);
  }

  /** Storing the spread byte fills eight bytes more. */
  method FillWord(mem: array<bv8>, at: nat, p: nat, b: bv8, cccc: bv64, ghost s: seq<bv8>, ghost k: nat, ghost n: nat)
    requires p % OPSIZ == 0 && at <= p && p + OPSIZ <= at + mem.Length && cccc == Spread(b)
    requires |s| == mem.Length && p - at == k + n && mem[..] == Filled(s, k, n, b)
    modifies mem
    ensures mem[..] == Filled(s, k, n + OPSIZ, b)
  {
    hide ByteOf, Spread;
    StoreWord(mem, at, p, cccc);
    forall i | 0 <= i < OPSIZ ensures ByteOf(cccc, i) == b {
      SpreadBytes(b, i);
    }
  }

  /** A byte store fills one byte more. */
  method StoreByte(mem: array<bv8>, at: nat, p: nat, b: bv8, ghost s: seq<bv8>, ghost k: nat, ghost n: nat)
    requires at <= p < at + mem.Length && |s| == mem.Length && p - at == k + n && mem[..] == Filled(s, k, n, b)
    modifies mem
    ensures mem[..] == Filled(s, k, n + 1, b)
  {
    hide Filled;
    FilledMore(s, k, n, b);
    mem[p - at] := b;
  }

  // ---------------------------------------------------------------- smemset

  /** Set len bytes from address `dst` to c. The array holds the bytes at the addresses from `at` on; if
      the call is valid the destination lies within it. */
  method Smemset(mem: array<bv8>, at: nat, dst: nat, c: int, len0: nat) returns (r: nat)
    requires at > 0 && (Validate(dst, len0, LIMIT_GENERIC) == 0 ==> at <= dst && dst + len0 <= at + mem.Length)
    modifies mem
    ensures Validate(dst, len0, LIMIT_GENERIC) != 0 ==> r == NULL && mem[..] == old(mem[..])
    ensures Validate(dst, len0, LIMIT_GENERIC) == 0 ==> r == dst && mem[..] == Filled(old(mem[..]), dst - at, len0, Byte(c))
  {
    hide ByteOf, Spread, Filled, Byte;
    if Validate(dst, len0, LIMIT_GENERIC) != 0 {
      return NULL;
    }
    ghost var s, k := mem[..], dst - at;
    var b := Byte(c);
    var dstp, len := dst, len0;
    FilledNone(s, k, b);
    if len >= 8 {
      var cccc := Spread(b);
      while dstp % OPSIZ != 0 && len > 0
        invariant dst <= dstp && dstp + len == dst + len0
        invariant mem[..] == Filled(s, k, dstp - dst, b)
        decreases len
      {
        StoreByte(mem, at, dstp, b, s, k, dstp - dst);
        dstp := dstp + 1;
        len := len - 1;
      }
      dstp, len := FillWords(mem, at, dst, dstp, len0, len, b, cccc, s);
    }
    while len > 0
      invariant dst <= dstp && dstp + len == dst + len0
      invariant mem[..] == Filled(s, k, dstp - dst, b)
      decreases len
    {
      StoreByte(mem, at, dstp, b, s, k, dstp - dst);
      dstp := dstp + 1;
      len := len - 1;
    }
    return dst;
  }

  /** The two word loops: eight words a round, then single words; less than a word is left. */
  method FillWords(mem: array<bv8>, at: nat, ghost dst: nat, dstp0: nat, ghost total: nat, len0: nat, b: bv8, cccc: bv64, ghost s: seq<bv8>)
    returns (dstp: nat, len: nat)
    requires at <= dst <= dstp0 && dstp0 + len0 == dst + total <= at + mem.Length && cccc == Spread(b) && |s| == mem.Length
    requires dstp0 % OPSIZ == 0 || len0 == 0
    requires mem[..] == Filled(s, dst - at, dstp0 - dst, b)
    modifies mem
    ensures dst <= dstp && dstp + len == dst + total && len < OPSIZ && mem[..] == Filled(s, dst - at, dstp - dst, b)
  {
    hide ByteOf, Spread, Filled;
    dstp, len := dstp0, len0;
    var xlen := len / (OPSIZ * 8);
    ghost var rounds := xlen;
    Quotient(len, 64);
    while xlen > 0
      invariant 0 <= xlen <= rounds && dstp == dstp0 + 64 * (rounds - xlen) && (rounds > 0 ==> dstp % OPSIZ == 0)
      invariant mem[..] == Filled(s, dst - at, dstp - dst, b)
      decreases xlen
    {
      FillEight(mem, at, dst, dstp, b, cccc, s);
      dstp := dstp + 8 * OPSIZ;
      xlen := xlen - 1;
    }
    len := len % (OPSIZ * 8);
    dstp, len := FillSingles(mem, at, dst, dstp, total, len, b, cccc, s);
  }

  lemma Quotient(len: nat, w: nat)
    requires w > 0
    ensures len == w * (len / w) + len % w && 0 <= len % w < w && (len / w > 0 ==> len > 0)
  {}

  /** The loop over single words. */
  method FillSingles(mem: array<bv8>, at: nat, ghost dst: nat, dstp0: nat, ghost total: nat, len0: nat, b: bv8, cccc: bv64, ghost s: seq<bv8>)
    returns (dstp: nat, len: nat)
    requires at <= dst <= dstp0 && dstp0 + len0 == dst + total <= at + mem.Length && cccc == Spread(b) && |s| == mem.Length
    requires dstp0 % OPSIZ == 0 || len0 == 0
    requires mem[..] == Filled(s, dst - at, dstp0 - dst, b)
    modifies mem
    ensures dst <= dstp && dstp + len == dst + total && len < OPSIZ && mem[..] == Filled(s, dst - at, dstp - dst, b)
  {
    hide Spread, Filled;
    dstp, len := dstp0, len0;
    var xlen := len / OPSIZ;
    ghost var rounds := xlen;
    Quotient(len, 8);
    while xlen > 0
      invariant 0 <= xlen <= rounds && dstp == dstp0 + 8 * (rounds - xlen) && (rounds > 0 ==> dstp % OPSIZ == 0)
      invariant mem[..] == Filled(s, dst - at, dstp - dst, b)
      decreases xlen
    {
      FillWord(mem, at, dstp, b, cccc, s, dst - at, dstp - dst);
      dstp := dstp + OPSIZ;
      xlen := xlen - 1;
    }
    len := len % OPSIZ;
  }

  /** One round of the unrolled loop. */
  method FillEight(mem: array<bv8>, at: nat, ghost dst: nat, dstp: nat, b: bv8, cccc: bv64, ghost s: seq<bv8>)
    requires at <= dst <= dstp && dstp % OPSIZ == 0 && dstp + 64 <= at + mem.Length && cccc == Spread(b) && |s| == mem.Length
    requires mem[..] == Filled(s, dst - at, dstp - dst, b)
    modifies mem
    ensures mem[..] == Filled(s, dst - at, dstp + 64 - dst, b)
  {
    hide Spread, Filled;
    for i := 0 to 8
      invariant mem[..] == Filled(s, dst - at, dstp - dst + i * OPSIZ, b)
    {
      FillWord(mem, at, dstp + i * OPSIZ, b, cccc, s, dst - at, dstp - dst + i * OPSIZ);
    }
  }

  /** `smemset_ex`: the limit of the context applies first. */
  method SmemsetEx(mem: array<bv8>, at: nat, dst: nat, c: int, len: nat, context: Context) returns (r: nat)
    requires at > 0 && (Validate(dst, len, MaxAllowed(context)) == 0 ==> at <= dst && dst + len <= at + mem.Length)
    modifies mem
    ensures Validate(dst, len, MaxAllowed(context)) != 0 ==> r == NULL && mem[..] == old(mem[..])
    ensures Validate(dst, len, MaxAllowed(context)) == 0 ==> r == dst && mem[..] == Filled(old(mem[..]), dst - at, len, Byte(c))
  {
    hide Filled, Byte;
    if Validate(dst, len, MaxAllowed(context)) != 0 {
      return NULL;
    }
    r := Smemset(mem, at, dst, c, len);
  }
}
