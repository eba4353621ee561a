/** The xorshift generator behind the stack's tags (ephemeral-hash-cas): its step is a bijection, and
    any interleaving of compare-and-swap loops over it draws the sequential outputs, once each. */
module HashGenerator {

  function Right12(s: bv64): bv64 { s ^ (s >> 12) }
  function Left25(s: bv64): bv64 { s ^ (s << 25) }
  function Right27(s: bv64): bv64 { s ^ (s >> 27) }

  /** The three assignments of a round. */
  function Step(s: bv64): bv64 {
    Right27(Left25(Right12(s)))
  }

  /** The 16 bits handed out for a new state. */
  function Output(s: bv64): bv64 {
    (s * 0x2545_F491_4F6C_DD1D) >> 48
  }

  /** The factor below is the inverse of the generator's modulo 2^64: each 64-bit word x is the product of
      one state, and the tag of that state is the top 16 bits of x. */
  lemma OutputUndone(x: bv64)
    ensures Output(x * 0x5907_1D96_D81E_CD35) == x >> 48
  {}

  lemma FactorsInverse(s: bv64)
    ensures (s * 0x2545_F491_4F6C_DD1D) * 0x5907_1D96_D81E_CD35 == s
  {}

  function Undo12(s: bv64): bv64 { s ^ (s >> 12) ^ (s >> 24) ^ (s >> 36) ^ (s >> 48) ^ (s >> 60) }
  function Undo25(s: bv64): bv64 { s ^ (s << 25) ^ (s << 50) }
  function Undo27(s: bv64): bv64 { s ^ (s >> 27) ^ (s >> 54) }

  function Unstep(s: bv64): bv64 {
    Undo12(Undo25(Undo27(s)))
  }

  lemma Undoes27(s: bv64)
    ensures Undo27(s ^ (s >> 27)) == s
  {}

  lemma Redoes27(s: bv64)
    ensures Right27(s ^ (s >> 27) ^ (s >> 54)) == s
  {}

  lemma Unfold27(s: bv64)
    ensures Right27(s) == s ^ (s >> 27) && Undo27(s) == s ^ (s >> 27) ^ (s >> 54)
  {}

  lemma Shift27(s: bv64)
    ensures Undo27(Right27(s)) == s && Right27(Undo27(s)) == s
  {
    hide Right27, Undo27;
    Undoes27(s);
    Redoes27(s);
    Unfold27(s);
  }

  lemma Undoes25(s: bv64)
    ensures Undo25(s ^ (s << 25)) == s
  {}

  lemma Redoes25(s: bv64)
    ensures Left25(s ^ (s << 25) ^ (s << 50)) == s
  {}

  lemma Unfold25(s: bv64)
    ensures Left25(s) == s ^ (s << 25) && Undo25(s) == s ^ (s << 25) ^ (s << 50)
  {}

  lemma Shift25(s: bv64)
    ensures Undo25(Left25(s)) == s && Left25(Undo25(s)) == s
  {
    hide Left25, Undo25;
    Undoes25(s);
    Redoes25(s);
    Unfold25(s);
  }

  lemma Undoes12(s: bv64)
    ensures Undo12(s ^ (s >> 12)) == s
  {}

  lemma Redoes12(s: bv64)
    ensures Right12(s ^ (s >> 12) ^ (s >> 24) ^ (s >> 36) ^ (s >> 48) ^ (s >> 60)) == s
  {}

  lemma Unfold12(s: bv64)
    ensures Right12(s) == s ^ (s >> 12) && Undo12(s) == s ^ (s >> 12) ^ (s >> 24) ^ (s >> 36) ^ (s >> 48) ^ (s >> 60)
  {}

  lemma Shift12(s: bv64)
    ensures Undo12(Right12(s)) == s && Right12(Undo12(s)) == s
  {
    hide Right12, Undo12;
    Undoes12(s);
    Redoes12(s);
    Unfold12(s);
  }

  lemma StepBack(s: bv64)
    ensures Unstep(Step(s)) == s
  {
    hide Right12, Left25, Right27, Undo12, Undo25, Undo27;
    Shift12(s);
    Shift25(Right12(s));
    Shift27(Left25(Right12(s)));
  }

  lemma StepForth(s: bv64)
    ensures Step(Unstep(s)) == s
  {
    hide Right12, Left25, Right27, Undo12, Undo25, Undo27;
    Shift27(s);
    Shift25(Undo27(s));
    Shift12(Undo25(Undo27(s)));
  }

  /** The step is a bijection on 64-bit words that fixes zero, so a non-zero state stays non-zero. */
  lemma StepBijective(a: bv64, b: bv64)
    ensures Step(a) == Step(b) <==> a == b
    ensures Step(a) == 0 <==> a == 0
    ensures Step(Unstep(a)) == a
  {
    hide Step, Unstep;
    StepBack(a);
    StepBack(b);
    StepForth(a);
    StepBack(0);
    ZeroFixed();
  }

  lemma ZeroFixed()
    ensures Step(0) == 0
  {}

  // ---------------------------------------------------------------- many threads

  /** A thread outside the loop, or with the state it loaded last; the new state is computed from that. */
  datatype Pc = Idle | Loaded(seen: bv64)

  datatype Gen = Gen(state: bv64, pcs: map<int, Pc>, drawn: seq<bv64>)

  /** Thread t takes its next step: load the state, or compare and swap. A failed swap reloads. */
  function Move(g: Gen, t: int): Gen {
    if t !in g.pcs || g.pcs[t].Idle? then
      g.(pcs := g.pcs[t := Loaded(g.state)])
    else if g.state == g.pcs[t].seen then
      var s := Step(g.pcs[t].seen);
      Gen(s, g.pcs[t := Idle], g.drawn + [Output(s)])
    else
      g.(pcs := g.pcs[t := Loaded(g.state)])
  }

  /** The threads move in the order of the schedule. */
  function Run(g: Gen, schedule: seq<int>): Gen
    decreases |schedule|
  {
    if schedule == [] then g else Run(Move(g, schedule[0]), schedule[1..])
  }

  function Iterate(seed: bv64, n: nat): bv64 {
    if n == 0 then seed else Step(Iterate(seed, n - 1))
  }

  ghost predicate Sequential(g: Gen, seed: bv64) {
    && g.state == Iterate(seed, |g.drawn|)
    && forall i {:trigger g.drawn[i]} :: 0 <= i < |g.drawn| ==> g.drawn[i] == Output(Iterate(seed, i + 1))
  }

  lemma MoveSequential(g: Gen, t: int, seed: bv64)
    requires Sequential(g, seed)
    ensures Sequential(Move(g, t), seed) && |g.drawn| <= |Move(g, t).drawn| <= |g.drawn| + 1
  {
    hide Step, Output;
  }

  /** For every number of threads and every schedule: after n successful draws the state is the n-th
      iterate of the seed, and the draws are the first n outputs of the sequential generator, in order. */
  lemma {:induction false} RunSequential(g: Gen, schedule: seq<int>, seed: bv64)
    requires Sequential(g, seed)
    ensures Sequential(Run(g, schedule), seed)
    decreases |schedule|
  {
    hide Step, Output, Sequential;
    if schedule != [] {
      MoveSequential(g, schedule[0], seed);
      RunSequential(Move(g, schedule[0]), schedule[1..], seed);
    }
  }

  lemma {:induction false} IterateNonzero(seed: bv64, n: nat)
    requires seed != 0
    ensures Iterate(seed, n) != 0
  {
    hide Step;
    if n > 0 {
      IterateNonzero(seed, n - 1);
      StepBijective(Iterate(seed, n - 1), 0);
    }
  }

  /** From any non-zero seed the state never becomes zero, whatever the threads do. */
  lemma RunNonzero(seed: bv64, schedule: seq<int>)
    requires seed != 0
    ensures Run(Gen(seed, map[], []), schedule).state != 0
  {
    hide Step, Output;
    var g := Gen(seed, map[], []);
    RunSequential(g, schedule, seed);
    IterateNonzero(seed, |Run(g, schedule).drawn|);
  }

  // ---------------------------------------------------------------- repetition

  /** Among more than n numbers below n two are equal. */
  lemma {:induction false} Pigeonhole(s: seq<int>, n: nat) returns (i: nat, j: nat)
    requires |s| > n && forall k :: 0 <= k < |s| ==> 0 <= s[k] < n
    ensures i < j < |s| && s[i] == s[j]
  {
    assert 0 <= s[0] < n;
    if k :| 0 <= k < |s| && s[k] == n - 1 {
      if l :| 0 <= l < |s| && l != k && s[l] == n - 1 {
        return if k < l then k else l, if k < l then l else k;
      }
      i, j := Pigeonhole(s[..k] + s[k + 1..], n - 1);
      i, j := if i < k then i else i + 1, if j < k then j else j + 1;
    } else {
      i, j := Pigeonhole(s, n - 1);
    }
  }

  function Short(b: bv64): bv16
    requires b < 0x1_0000
  {
    b as bv16
  }

  function Value(b: bv16): (v: int)
    ensures 0 <= v < 0x1_0000
  {
    b as int
  }

  lemma TagBelow(s: bv64)
    ensures Output(s) < 0x1_0000
  {}

  lemma ShortInjective(a: bv64, b: bv64)
    requires a < 0x1_0000 && b < 0x1_0000 && Short(a) == Short(b)
    ensures a == b
  {}

  lemma ValueBack(b: bv16)
    ensures Value(b) as bv16 == b
  {}

  lemma ValueInjective(a: bv16, b: bv16)
    requires Value(a) == Value(b)
    ensures a == b
  {
    ValueBack(a);
    ValueBack(b);
  }

  /** Tags have 16 bits: whatever the seed and the interleaving, two of any 65537 tags drawn are equal. */
  lemma TagsRepeat(seed: bv64, schedule: seq<int>) returns (i: nat, j: nat)
    requires |Run(Gen(seed, map[], []), schedule).drawn| > 0x1_0000
    ensures var drawn := Run(Gen(seed, map[], []), schedule).drawn; i < j < |drawn| && drawn[i] == drawn[j]
  {
    hide Step, Output, Short, Value, Run, Iterate;
    var g := Gen(seed, map[], []);
    ZeroIterate(seed);
    RunSequential(g, schedule, seed);
    var drawn := Run(g, schedule).drawn;
    forall k | 0 <= k < |drawn| ensures drawn[k] < 0x1_0000 {
      TagBelow(Iterate(seed, k + 1));
    }
    i, j := Pigeonhole(seq(|drawn|, k requires 0 <= k < |drawn| => Value(Short(drawn[k]))), 0x1_0000);
    ValueInjective(Short(drawn[i]), Short(drawn[j]));
    ShortInjective(drawn[i], drawn[j]);
  }

  /** The k-th tag drawn from a seed, as a number. */
  function Tag(seed: bv64, k: nat): int {
    TagBelow(Iterate(seed, k + 1));
    Value(Short(Output(Iterate(seed, k + 1))))
  }

  /** Whatever the seed, there are two equal tags with at least three draws in between. */
  lemma SpacedRepeat(seed: bv64) returns (i: nat, j: nat)
    ensures 4 <= i && i + 4 <= j && Tag(seed, i) == Tag(seed, j)
  {
    hide Tag, Iterate;
    var tags := seq(0x1_0001, k requires 0 <= k => Tag(seed, 4 * (k + 1)));
    forall k | 0 <= k < |tags| ensures 0 <= tags[k] < 0x1_0000 {
      TagRange(seed, 4 * (k + 1));
    }
    i, j := Pigeonhole(tags, 0x1_0000);
    i, j := 4 * (i + 1), 4 * (j + 1);
  }

  lemma TagRange(seed: bv64, k: nat)
    ensures 0 <= Tag(seed, k) < 0x1_0000
  {
    hide Iterate, Output;
  }

  lemma ZeroIterate(seed: bv64)
    ensures Iterate(seed, 0) == seed
  {}
}
