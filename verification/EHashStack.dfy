/** The lock-free stack of ephemeral-hash-cas: any number of threads pushing and popping, step by step.
    The head pairs a pointer with a tag; tags are whatever the generator happens to draw, and may repeat. */
module EHashStack {

  const NULL := 0

  datatype Tagged = Tagged(ptr: int, hash: int)

  /** Where a thread stands. `stale` is bookkeeping: since this pop loaded the head, some swap has
      installed just the pair it loaded. */
  datatype Pc =
    | Idle
    | PushLoad(node: int)
    | PushLink(node: int, seen: Tagged)
    | PushDraw(node: int, seen: Tagged)
    | PushSwap(node: int, seen: Tagged, tag: int)
    | PopLoad
    | PopRead(seen: Tagged, stale: bool)
    | PopDraw(seen: Tagged, next: int, stale: bool)
    | PopSwap(seen: Tagged, next: int, tag: int, stale: bool)

  /** The shared words, the threads, and what the run amounts to: the stack as it should be, how often
      each node was pushed, and all nodes pushed and popped. */
  datatype Sys = Sys(head: Tagged, next: map<int, int>, pcs: map<int, Pc>,
                     stack: seq<int>, pushes: map<int, nat>, pushed: multiset<int>, popped: multiset<int>)

  datatype Action =
    | StartPush(t: int, node: int)
    | StartPop(t: int)
    | Advance(t: int, tag: int)

  const Init := Sys(Tagged(NULL, 0), map[], map[], [], map[], multiset{}, multiset{})

  function PcOf(s: Sys, t: int): Pc {
    if t in s.pcs then s.pcs[t] else Idle
  }

  function NextOf(next: map<int, int>, p: int): int {
    if p in next then next[p] else NULL
  }

  function Pushes(s: Sys, node: int): nat {
    if node in s.pushes then s.pushes[node] else 0
  }

  predicate Pushing(pc: Pc) {
    pc.PushLoad? || pc.PushLink? || pc.PushDraw? || pc.PushSwap?
  }

  predicate Popping(pc: Pc) {
    pc.PopRead? || pc.PopDraw? || pc.PopSwap?
  }

  /** A thread may push a node that is its own: not in the stack and not being pushed by anyone. */
  predicate MayPush(s: Sys, t: int, node: int) {
    && PcOf(s, t).Idle? && node != NULL && node !in s.stack
    && forall u {:trigger s.pcs[u]} :: u in s.pcs && Pushing(s.pcs[u]) ==> s.pcs[u].node != node
  }

  /** Another thread's view of a swap that installs `v`. */
  function Noticed(pc: Pc, v: Tagged): Pc {
    match pc
    case PopRead(seen, stale) => PopRead(seen, stale || seen == v)
    case PopDraw(seen, next, stale) => PopDraw(seen, next, stale || seen == v)
    case PopSwap(seen, next, tag, stale) => PopSwap(seen, next, tag, stale || seen == v)
    case _ => pc
  }

  function Notify(pcs: map<int, Pc>, v: Tagged): map<int, Pc> {
    map u | u in pcs :: Noticed(pcs[u], v)
  }

  /** A successful swap of a push by thread t. */
  function Pushed(s: Sys, t: int, node: int, tag: int): Sys {
    var v := Tagged(node, tag);
    s.(head := v, pcs := Notify(s.pcs, v)[t := Idle], stack := [node] + s.stack, pushed := s.pushed + multiset{node})
  }

  /** A successful swap of a pop by thread t that takes `node`. */
  function Popped(s: Sys, t: int, node: int, next: int, tag: int): Sys {
    var v := Tagged(next, tag);
    s.(head := v, pcs := Notify(s.pcs, v)[t := Idle],
       stack := if s.stack == [] then [] else s.stack[1..], popped := s.popped + multiset{node})
  }

  /** The effect of one action; an action that is not possible changes nothing. */
  function Apply(s: Sys, a: Action): Sys {
    match a
    case StartPush(t, node) =>
      if MayPush(s, t, node) then s.(pcs := s.pcs[t := PushLoad(node)], pushes := s.pushes[node := Pushes(s, node) + 1]) else s
    case StartPop(t) =>
      if PcOf(s, t).Idle? then s.(pcs := s.pcs[t := PopLoad]) else s
    case Advance(t, tag) =>
      match PcOf(s, t)
      case Idle => s
      case PushLoad(node) => s.(pcs := s.pcs[t := PushLink(node, s.head)])
      case PushLink(node, seen) => s.(next := s.next[node := seen.ptr], pcs := s.pcs[t := PushDraw(node, seen)])
      case PushDraw(node, seen) => s.(pcs := s.pcs[t := PushSwap(node, seen, tag)])
      case PushSwap(node, seen, drawn) =>
        if s.head == seen then Pushed(s, t, node, drawn) else s.(pcs := s.pcs[t := PushLoad(node)])
      case PopLoad =>
        if s.head.ptr == NULL then s.(pcs := s.pcs[t := Idle]) else s.(pcs := s.pcs[t := PopRead(s.head, false)])
      case PopRead(seen, stale) => s.(pcs := s.pcs[t := PopDraw(seen, NextOf(s.next, seen.ptr), stale)])
      case PopDraw(seen, next, stale) => s.(pcs := s.pcs[t := PopSwap(seen, next, tag, stale)])
      case PopSwap(seen, next, drawn, stale) =>
        if s.head == seen then Popped(s, t, seen.ptr, next, drawn) else s.(pcs := s.pcs[t := PopLoad])
  }

  /** The list that starts at `p` and follows the next words is L. */
  predicate Chain(next: map<int, int>, p: int, L: seq<int>)
    decreases |L|
  {
    if L == [] then p == NULL else p == L[0] && p != NULL && Chain(next, NextOf(next, p), L[1..])
  }

  /** The condition on a pop about to swap: the pair it loaded was not installed again since, or the
      node it is about to take was pushed only once. */
  predicate Sheltered(s: Sys, t: int) {
    var pc := PcOf(s, t);
    pc.PopSwap? && s.head == pc.seen ==> !pc.stale || Pushes(s, pc.seen.ptr) <= 1
  }

  predicate Careful(s: Sys, a: Action) {
    a.Advance? ==> Sheltered(s, a.t)
  }

  // ---------------------------------------------------------------- the invariant

  predicate Distinct(L: seq<int>) {
    forall i, j {:trigger L[i], L[j]} :: 0 <= i < j < |L| ==> L[i] != L[j]
  }

  /** A pushing thread's node is outside the stack; once it is linked, the link is what the thread saw. */
  predicate PushOk(s: Sys, t: int) {
    var pc := PcOf(s, t);
    Pushing(pc) ==>
      && pc.node != NULL && pc.node !in s.stack && Pushes(s, pc.node) >= 1
      && (pc.PushDraw? || pc.PushSwap? ==> NextOf(s.next, pc.node) == pc.seen.ptr)
  }

  /** A popping thread has seen a node that was pushed. Its reading of the next word is good as long as
      the pair it loaded stayed the head, or came to be the head only once. */
  predicate PopOk(s: Sys, t: int) {
    var pc := PcOf(s, t);
    Popping(pc) ==>
      && pc.seen.ptr != NULL && Pushes(s, pc.seen.ptr) >= 1
      && (pc.PopDraw? || pc.PopSwap? ==>
            && (!pc.stale && s.head == pc.seen ==> pc.next == NextOf(s.next, pc.seen.ptr))
            && (Pushes(s, pc.seen.ptr) == 1 ==> pc.next == NextOf(s.next, pc.seen.ptr)))
  }

  /** Two threads never push the same node at a time. */
  predicate Owned(s: Sys, t: int, u: int) {
    t != u && Pushing(PcOf(s, t)) && Pushing(PcOf(s, u)) ==> PcOf(s, t).node != PcOf(s, u).node
  }

  /** A node that a pop has seen and that is being pushed is being pushed again. */
  predicate Again(s: Sys, t: int, u: int) {
    Popping(PcOf(s, t)) && Pushing(PcOf(s, u)) && PcOf(s, u).node == PcOf(s, t).seen.ptr ==> Pushes(s, PcOf(s, u).node) >= 2
  }

  ghost predicate Threads(s: Sys) {
    && (forall t {:trigger PushOk(s, t)} :: PushOk(s, t))
    && (forall t {:trigger PopOk(s, t)} :: PopOk(s, t))
    && (forall t, u {:trigger Owned(s, t, u)} :: Owned(s, t, u))
    && (forall t, u {:trigger Again(s, t, u)} :: Again(s, t, u))
  }

  ghost predicate Stacked(s: Sys) {
    && Chain(s.next, s.head.ptr, s.stack) && Distinct(s.stack)
    && (forall i {:trigger s.stack[i]} :: 0 <= i < |s.stack| ==> s.stack[i] != NULL && Pushes(s, s.stack[i]) >= 1)
    && s.pushed == s.popped + multiset(s.stack)
  }

  ghost predicate Inv(s: Sys) {
    Stacked(s) && Threads(s)
  }

  /** A store to the next word of a node outside the list leaves the list alone. */
  lemma {:induction false} ChainFrame(next: map<int, int>, p: int, L: seq<int>, node: int, v: int)
    requires Chain(next, p, L) && node !in L
    ensures Chain(next[node := v], p, L)
    decreases |L|
  {
    if L != [] {
      ChainFrame(next, NextOf(next, p), L[1..], node, v);
    }
  }

  /** The pointer determines the list. */
  lemma {:induction false} ChainUnique(next: map<int, int>, p: int, A: seq<int>, B: seq<int>)
    requires Chain(next, p, A) && Chain(next, p, B)
    ensures A == B
    decreases |A|
  {
    if A != [] && B != [] {
      ChainUnique(next, NextOf(next, p), A[1..], B[1..]);
      assert A == [A[0]] + A[1..] && B == [B[0]] + B[1..];
    }
  }

  /** Where thread t is in a push: its node is not null, and once the link is written it is what the
      thread saw. */
  predicate Linked(s: Sys, t: int) {
    var pc := PcOf(s, t);
    Pushing(pc) ==> pc.node != NULL && (pc.PushDraw? || pc.PushSwap? ==> NextOf(s.next, pc.node) == pc.seen.ptr)
  }

  /** What holds in every run, whatever the tags and however the pops go wrong. */
  ghost predicate PushInv(s: Sys) {
    && (forall t {:trigger Linked(s, t)} :: Linked(s, t))
    && (forall t, u {:trigger Owned(s, t, u)} :: Owned(s, t, u))
  }

  lemma AnyStepKeeps(s: Sys, a: Action)
    requires PushInv(s)
    ensures PushInv(Apply(s, a))
  {
    var s' := Apply(s, a);
    forall u ensures Linked(s', u) {
      AnyStepLinked(s, a, u);
    }
    forall u, w ensures Owned(s', u, w) {
      AnyStepOwned(s, a, u, w);
    }
  }

  /** A step pushes no other nodes than before, and another thread's push stays as far as it was. */
  lemma SamePushes(s: Sys, t: int, tag: int, u: int)
    ensures var pc, pc' := PcOf(s, u), PcOf(Apply(s, Advance(t, tag)), u);
            Pushing(pc') ==> Pushing(pc) && pc'.node == pc.node && (u != t ==> pc' == pc)
  {}

  lemma AnyStepLinked(s: Sys, a: Action, u: int)
    requires PushInv(s)
    ensures Linked(Apply(s, a), u)
  {
    assert Linked(s, u);
    if a.Advance? {
      SamePushes(s, a.t, a.tag, u);
      assert Owned(s, a.t, u);
      NextSteps(s, a.t, a.tag, u);
    }
  }

  /** The next words of the nodes other threads push are left alone. */
  lemma NextSteps(s: Sys, t: int, tag: int, u: int)
    requires Owned(s, t, u) && Linked(s, u)
    ensures Linked(Apply(s, Advance(t, tag)), u)
  {
    hide Notify, Noticed;
    SamePushes(s, t, tag, u);
  }

  lemma AnyStepOwned(s: Sys, a: Action, u: int, w: int)
    requires PushInv(s)
    ensures Owned(Apply(s, a), u, w)
  {
    assert Owned(s, u, w);
    if a.Advance? {
      hide Apply;
      SamePushes(s, a.t, a.tag, u);
      SamePushes(s, a.t, a.tag, w);
    } else if a.StartPush? && MayPush(s, a.t, a.node) {
      assert u != a.t && Pushing(PcOf(s, u)) ==> u in s.pcs && s.pcs[u].node != a.node;
      assert w != a.t && Pushing(PcOf(s, w)) ==> w in s.pcs && s.pcs[w].node != a.node;
    }
  }

  lemma {:induction false} AnyRunKeeps(s: Sys, actions: seq<Action>)
    requires PushInv(s)
    ensures PushInv(Run(s, actions))
    decreases |actions|
  {
    hide PushInv, Apply;
    if actions != [] {
      AnyStepKeeps(s, actions[0]);
      AnyRunKeeps(Apply(s, actions[0]), actions[1..]);
    }
  }

  /** In any run from the empty stack, by any number of threads, with any tags, and whatever pops have done
      to the list before: a push whose swap succeeds turns the list L into its node followed by L. */
  lemma PushAlways(actions: seq<Action>, t: int, tag: int, L: seq<int>)
    requires var s := Run(Init, actions); PcOf(s, t).PushSwap? && s.head == PcOf(s, t).seen && Chain(s.next, s.head.ptr, L)
    ensures var s := Run(Init, actions); var s' := Apply(s, Advance(t, tag));
            s'.next == s.next && Chain(s'.next, s'.head.ptr, [PcOf(s, t).node] + L)
  {
    var s := Run(Init, actions);
    AnyRunKeeps(Init, actions);
    assert Linked(s, t);
    assert ([PcOf(s, t).node] + L)[1..] == L;
  }

  /** A successful pop takes off just the first node if and only if what it read as the next pointer is
      the next pointer at the time of the swap. */
  lemma PopExact(s: Sys, t: int, tag: int, L: seq<int>)
    requires var pc := PcOf(s, t); pc.PopSwap? && s.head == pc.seen
    requires L != [] && Chain(s.next, s.head.ptr, L)
    ensures var s' := Apply(s, Advance(t, tag));
            Chain(s'.next, s'.head.ptr, L[1..]) <==> PcOf(s, t).next == NextOf(s.next, s.head.ptr)
  {
    var n := NextOf(s.next, s.head.ptr);
    assert Chain(s.next, n, L[1..]);
    var next := PcOf(s, t).next;
    if Chain(s.next, next, L[1..]) {
      assert L[1..] == [] ==> n == NULL && next == NULL;
      assert L[1..] != [] ==> n == L[1..][0] && next == L[1..][0];
    }
  }

  // ---------------------------------------------------------------- when the memory is right

  /** The words in memory hold the stack that the linearized operations build. */
  predicate Holds(s: Sys) {
    Chain(s.next, s.head.ptr, s.stack)
  }

  /** If the action is the swap of a pop that succeeds, the next pointer it read is still the head's. */
  predicate Current(s: Sys, a: Action) {
    a.Advance? && PcOf(s, a.t).PopSwap? && s.head == PcOf(s, a.t).seen ==> PcOf(s, a.t).next == NextOf(s.next, s.head.ptr)
  }

  /** In any run nodes being pushed are outside the stack, and pops go on only from a node. */
  predicate Placed(s: Sys, t: int) {
    var pc := PcOf(s, t);
    (Pushing(pc) ==> pc.node !in s.stack) && (Popping(pc) ==> pc.seen.ptr != NULL)
  }

  ghost predicate AnyInv(s: Sys) {
    PushInv(s) && forall t {:trigger Placed(s, t)} :: Placed(s, t)
  }

  lemma AnyInvKept(s: Sys, a: Action)
    requires AnyInv(s)
    ensures AnyInv(Apply(s, a))
  {
    AnyStepKeeps(s, a);
    forall u ensures Placed(Apply(s, a), u) {
      AnyStepPlaced(s, a, u);
    }
  }

  lemma AnyStepPlaced(s: Sys, a: Action, u: int)
    requires AnyInv(s)
    ensures Placed(Apply(s, a), u)
  {
    hide Linked;
    assert Placed(s, u);
    if a.Advance? {
      hide Apply;
      assert Placed(s, a.t) && Owned(s, a.t, u);
      SamePushes(s, a.t, a.tag, u);
      PopsFrom(s, a.t, a.tag, u);
      StackFrom(s, a.t, a.tag);
    }
  }

  lemma PopsFrom(s: Sys, t: int, tag: int, u: int)
    requires Placed(s, u)
    ensures var pc := PcOf(Apply(s, Advance(t, tag)), u); Popping(pc) ==> pc.seen.ptr != NULL
  {
    hide Notify, Noticed;
    var pc := PcOf(s, t);
    if (pc.PushSwap? || pc.PopSwap?) && s.head == pc.seen {
      var v := Tagged(if pc.PushSwap? then pc.node else pc.next, pc.tag);
      SwappedPcs(s, v, t, Apply(s, Advance(t, tag)));
      NoticedSeen(PcOf(s, u), v);
    }
  }

  lemma NoticedSeen(pc: Pc, v: Tagged)
    ensures Popping(Noticed(pc, v)) ==> Popping(pc) && Noticed(pc, v).seen == pc.seen
  {}

  /** What a step puts on the stack is a node that its thread has finished pushing. */
  lemma StackFrom(s: Sys, t: int, tag: int)
    ensures var s' := Apply(s, Advance(t, tag));
            forall x :: x in s'.stack ==> x in s.stack || (Pushing(PcOf(s, t)) && x == PcOf(s, t).node && !Pushing(PcOf(s', t)))
  {}

  /** A step keeps the memory right if and only if it is current. */
  lemma StepExact(s: Sys, a: Action)
    requires AnyInv(s) && Holds(s)
    ensures Holds(Apply(s, a)) <==> Current(s, a)
  {
    if a.Advance? {
      var pc := PcOf(s, a.t);
      assert Placed(s, a.t) && Linked(s, a.t);
      if pc.PushLink? {
        ChainFrame(s.next, s.head.ptr, s.stack, pc.node, pc.seen.ptr);
      } else if pc.PushSwap? && s.head == pc.seen {
        assert ([pc.node] + s.stack)[1..] == s.stack;
      } else if pc.PopSwap? && s.head == pc.seen {
        PopExact(s, a.t, a.tag, s.stack);
      }
    }
  }

  predicate AllHold(s: Sys, actions: seq<Action>)
    decreases |actions|
  {
    Holds(s) && (actions == [] || AllHold(Apply(s, actions[0]), actions[1..]))
  }

  predicate AllCurrent(s: Sys, actions: seq<Action>)
    decreases |actions|
  {
    actions == [] || (Current(s, actions[0]) && AllCurrent(Apply(s, actions[0]), actions[1..]))
  }

  lemma {:induction false} AllExact(s: Sys, actions: seq<Action>)
    requires AnyInv(s) && Holds(s)
    ensures AllHold(s, actions) <==> AllCurrent(s, actions)
    decreases |actions|
  {
    hide AnyInv, Apply, Holds, Current;
    if actions != [] {
      AnyInvKept(s, actions[0]);
      StepExact(s, actions[0]);
      if Current(s, actions[0]) {
        AllExact(Apply(s, actions[0]), actions[1..]);
      } else {
        assert !Holds(Apply(s, actions[0]));
      }
    }
  }

  /** In a run from the empty stack, with any tags, memory holds the stack all along if and only if for every
      pop that succeeds the next pointer it read is still the head's when it swaps. */
  lemma RunExact(actions: seq<Action>)
    ensures AllHold(Init, actions) <==> AllCurrent(Init, actions)
  {
    AllExact(Init, actions);
  }

  // ---------------------------------------------------------------- every step keeps it

  /** Thread t alone moves, and if it goes on pushing or popping, it is the same node or pair. */
  ghost predicate Alone(s: Sys, s': Sys, t: int) {
    && s'.head == s.head && s'.next == s.next && s'.stack == s.stack && s'.pushes == s.pushes
    && s'.pushed == s.pushed && s'.popped == s.popped && (forall u {:trigger PcOf(s', u)} :: u != t ==> PcOf(s', u) == PcOf(s, u))
    && (Pushing(PcOf(s', t)) ==> Pushing(PcOf(s, t)) && PcOf(s, t).node == PcOf(s', t).node)
    && (Popping(PcOf(s', t)) ==> Popping(PcOf(s, t)) && PcOf(s, t).seen == PcOf(s', t).seen)
  }

  lemma AloneKeeps(s: Sys, s': Sys, t: int)
    requires Inv(s) && Alone(s, s', t) && PushOk(s', t) && PopOk(s', t)
    ensures Inv(s')
  {
    forall u ensures PushOk(s', u) && PopOk(s', u) {
      assert PushOk(s, u) && PopOk(s, u);
      assert u != t ==> PcOf(s', u) == PcOf(s, u);
    }
    forall u, w ensures Owned(s', u, w) && Again(s', u, w) {
      assert Owned(s, u, w) && Again(s, u, w);
      assert u != t ==> PcOf(s', u) == PcOf(s, u);
      assert w != t ==> PcOf(s', w) == PcOf(s, w);
    }
  }

  lemma StartPushKeeps(s: Sys, t: int, node: int)
    requires Inv(s) && MayPush(s, t, node)
    ensures Inv(Apply(s, StartPush(t, node)))
  {
    var s' := Apply(s, StartPush(t, node));
    forall u ensures PushOk(s', u) && PopOk(s', u) {
      assert PushOk(s, u) && PopOk(s, u);
    }
    forall u, w ensures Owned(s', u, w) && Again(s', u, w) {
      assert Owned(s, u, w) && Again(s, u, w) && PopOk(s, u);
      assert u != t && Pushing(PcOf(s, u)) ==> u in s.pcs && s.pcs[u].node != node;
      assert w != t && Pushing(PcOf(s, w)) ==> w in s.pcs && s.pcs[w].node != node;
    }
  }

  lemma LinkKeeps(s: Sys, t: int, tag: int)
    requires Inv(s) && PcOf(s, t).PushLink?
    ensures Inv(Apply(s, Advance(t, tag)))
  {
    var s' := Apply(s, Advance(t, tag));
    var node, v := PcOf(s, t).node, PcOf(s, t).seen.ptr;
    assert PushOk(s, t);
    ChainFrame(s.next, s.head.ptr, s.stack, node, v);
    forall u ensures PushOk(s', u) && PopOk(s', u) {
      LinkThread(s, t, tag, u);
    }
    forall u, w ensures Owned(s', u, w) && Again(s', u, w) {
      assert Owned(s, u, w) && Again(s, u, w);
    }
  }

  lemma LinkThread(s: Sys, t: int, tag: int, u: int)
    requires Inv(s) && PcOf(s, t).PushLink?
    ensures var s' := Apply(s, Advance(t, tag)); PushOk(s', u) && PopOk(s', u)
  {
    assert PushOk(s, u) && PopOk(s, u) && PushOk(s, t) && Owned(s, t, u) && Again(s, u, t);
    assert s.stack != [] ==> s.stack[0] == s.head.ptr;
  }

  /** A swap by thread t: the others only take note of it. */
  lemma SwappedPcs(s: Sys, v: Tagged, t: int, s': Sys)
    requires s'.pcs == Notify(s.pcs, v)[t := Idle]
    ensures forall u {:trigger PcOf(s', u)} :: PcOf(s', u) == if u == t then Idle else Noticed(PcOf(s, u), v)
  {}

  lemma SwapPairs(s: Sys, v: Tagged, t: int, s': Sys, u: int, w: int)
    requires Threads(s) && s'.pcs == Notify(s.pcs, v)[t := Idle] && s'.pushes == s.pushes
    ensures Owned(s', u, w) && Again(s', u, w)
  {
    SwappedPcs(s, v, t, s');
    assert Owned(s, u, w) && Again(s, u, w);
    assert PcOf(s', u) == if u == t then Idle else Noticed(PcOf(s, u), v);
    assert PcOf(s', w) == if w == t then Idle else Noticed(PcOf(s, w), v);
  }

  lemma PushKeeps(s: Sys, t: int)
    requires Inv(s) && PcOf(s, t).PushSwap? && s.head == PcOf(s, t).seen
    ensures Inv(Pushed(s, t, PcOf(s, t).node, PcOf(s, t).tag))
  {
    hide Stacked, Notify;
    var s' := Pushed(s, t, PcOf(s, t).node, PcOf(s, t).tag);
    PushStacked(s, t);
    SwappedPcs(s, s'.head, t, s');
    forall u ensures PushOk(s', u) && PopOk(s', u) {
      PushThread(s, t, u);
    }
    forall u, w ensures Owned(s', u, w) && Again(s', u, w) {
      SwapPairs(s, s'.head, t, s', u, w);
    }
  }

  lemma PushThread(s: Sys, t: int, u: int)
    requires Threads(s) && PcOf(s, t).PushSwap? && s.head == PcOf(s, t).seen
    ensures var s' := Pushed(s, t, PcOf(s, t).node, PcOf(s, t).tag); PushOk(s', u) && PopOk(s', u)
  {
    var s' := Pushed(s, t, PcOf(s, t).node, PcOf(s, t).tag);
    SwappedPcs(s, s'.head, t, s');
    assert PushOk(s, u) && PopOk(s, u) && Owned(s, t, u);
    assert PcOf(s', u) == if u == t then Idle else Noticed(PcOf(s, u), s'.head);
  }

  lemma PushStacked(s: Sys, t: int)
    requires Inv(s) && PcOf(s, t).PushSwap? && s.head == PcOf(s, t).seen
    ensures Stacked(Pushed(s, t, PcOf(s, t).node, PcOf(s, t).tag))
  {
    hide Notify, Noticed;
    var node := PcOf(s, t).node;
    assert PushOk(s, t);
    assert ([node] + s.stack)[1..] == s.stack;
    Prepended(s.stack, node, s.pushed, s.popped);
  }

  lemma Prepended(L: seq<int>, node: int, pushed: multiset<int>, popped: multiset<int>)
    requires Distinct(L) && node !in L && pushed == popped + multiset(L)
    ensures Distinct([node] + L) && pushed + multiset{node} == popped + multiset([node] + L)
  {
    assert multiset([node] + L) == multiset{node} + multiset(L);
  }

  /** Under the condition the swap of a pop is right. */
  lemma ShelteredRight(s: Sys, t: int)
    requires Inv(s) && PcOf(s, t).PopSwap? && s.head == PcOf(s, t).seen && Sheltered(s, t)
    ensures s.stack != [] && s.stack[0] == s.head.ptr && PcOf(s, t).next == NextOf(s.next, s.head.ptr)
  {
    assert PopOk(s, t);
  }

  lemma PopKeeps(s: Sys, t: int)
    requires Inv(s) && PcOf(s, t).PopSwap? && s.head == PcOf(s, t).seen && Sheltered(s, t)
    ensures var pc := PcOf(s, t); Inv(Popped(s, t, pc.seen.ptr, pc.next, pc.tag))
  {
    hide Notify;
    var pc := PcOf(s, t);
    var s' := Popped(s, t, pc.seen.ptr, pc.next, pc.tag);
    ShelteredRight(s, t);
    PopStacked(s, t);
    hide Stacked;
    SwappedPcs(s, s'.head, t, s');
    forall u ensures PushOk(s', u) && PopOk(s', u) {
      PopThread(s, t, u);
    }
    forall u, w ensures Owned(s', u, w) && Again(s', u, w) {
      SwapPairs(s, s'.head, t, s', u, w);
    }
  }

  lemma PopThread(s: Sys, t: int, u: int)
    requires Threads(s) && PcOf(s, t).PopSwap? && s.head == PcOf(s, t).seen && s.stack != []
    ensures var pc := PcOf(s, t); var s' := Popped(s, t, pc.seen.ptr, pc.next, pc.tag); PushOk(s', u) && PopOk(s', u)
  {
    var pc := PcOf(s, t);
    var s' := Popped(s, t, pc.seen.ptr, pc.next, pc.tag);
    SwappedPcs(s, s'.head, t, s');
    assert PushOk(s, u) && PopOk(s, u);
    assert PcOf(s', u) == if u == t then Idle else Noticed(PcOf(s, u), s'.head);
  }

  lemma PopStacked(s: Sys, t: int)
    requires Inv(s) && PcOf(s, t).PopSwap? && s.head == PcOf(s, t).seen && Sheltered(s, t)
    ensures var pc := PcOf(s, t); Stacked(Popped(s, t, pc.seen.ptr, pc.next, pc.tag))
  {
    ShelteredRight(s, t);
    hide Threads, Notify, Noticed;
    assert Chain(s.next, NextOf(s.next, s.head.ptr), s.stack[1..]);
    Beheaded(s.stack, s.pushed, s.popped);
  }

  lemma Beheaded(L: seq<int>, pushed: multiset<int>, popped: multiset<int>)
    requires L != [] && Distinct(L) && pushed == popped + multiset(L)
    ensures Distinct(L[1..]) && pushed == popped + multiset{L[0]} + multiset(L[1..])
  {
    assert L == [L[0]] + L[1..];
    assert multiset(L) == multiset{L[0]} + multiset(L[1..]);
  }

  lemma LoadKeeps(s: Sys, t: int, tag: int)
    requires Inv(s) && PcOf(s, t).PopLoad? && s.head.ptr != NULL
    ensures Inv(Apply(s, Advance(t, tag)))
  {
    var s' := Apply(s, Advance(t, tag));
    assert s.stack[0] == s.head.ptr;
    forall u ensures PushOk(s', u) && PopOk(s', u) {
      assert PushOk(s, u) && PopOk(s, u);
    }
    forall u, w ensures Owned(s', u, w) && Again(s', u, w) {
      assert Owned(s, u, w) && Again(s, u, w) && PushOk(s, w);
    }
  }

  /** Every step of every thread keeps the invariant, if pops are careful. */
  lemma StepKeeps(s: Sys, a: Action)
    requires Inv(s) && Careful(s, a)
    ensures Inv(Apply(s, a))
  {
    var s' := Apply(s, a);
    match a
    case StartPush(t, node) =>
      if MayPush(s, t, node) {
        StartPushKeeps(s, t, node);
      }
    case StartPop(t) =>
      if PcOf(s, t).Idle? {
        AloneKeeps(s, s', t);
      }
    case Advance(t, tag) =>
      AdvanceKeeps(s, t, tag);
  }

  lemma AdvanceKeeps(s: Sys, t: int, tag: int)
    requires Inv(s) && Sheltered(s, t)
    ensures Inv(Apply(s, Advance(t, tag)))
  {
    hide Inv;
    var pc := PcOf(s, t);
    if pc.PushLink? {
      LinkKeeps(s, t, tag);
    } else if pc.PushSwap? && s.head == pc.seen {
      PushKeeps(s, t);
    } else if pc.PopSwap? && s.head == pc.seen {
      PopKeeps(s, t);
    } else if pc.PopLoad? && s.head.ptr != NULL {
      LoadKeeps(s, t, tag);
    } else if !pc.Idle? {
      PrivateStep(s, t, tag);
      AloneKeeps(s, Apply(s, Advance(t, tag)), t);
    }
  }

  /** The steps that touch no shared word. */
  lemma PrivateStep(s: Sys, t: int, tag: int)
    requires Inv(s)
    requires var pc := PcOf(s, t);
             !pc.Idle? && !pc.PushLink? && !(pc.PushSwap? && s.head == pc.seen) && !(pc.PopSwap? && s.head == pc.seen)
             && !(pc.PopLoad? && s.head.ptr != NULL)
    ensures var s' := Apply(s, Advance(t, tag)); Alone(s, s', t) && PushOk(s', t) && PopOk(s', t)
  {
    assert PushOk(s, t) && PopOk(s, t);
  }

  // ---------------------------------------------------------------- runs

  function Run(s: Sys, actions: seq<Action>): Sys
    decreases |actions|
  {
    if actions == [] then s else Run(Apply(s, actions[0]), actions[1..])
  }

  predicate CarefulRun(s: Sys, actions: seq<Action>)
    decreases |actions|
  {
    actions == [] || (Careful(s, actions[0]) && CarefulRun(Apply(s, actions[0]), actions[1..]))
  }

  /** For every interleaving of any number of threads in which each successful pop is careful: the words
      in memory hold just the stack that the linearized operations build, without cycles, and the nodes
      pushed are the nodes popped together with those in the stack. */
  lemma {:induction false} RunKeeps(s: Sys, actions: seq<Action>)
    requires Inv(s) && CarefulRun(s, actions)
    ensures Inv(Run(s, actions))
    decreases |actions|
  {
    hide Inv, Careful, Apply;
    if actions != [] {
      StepKeeps(s, actions[0]);
      RunKeeps(Apply(s, actions[0]), actions[1..]);
    }
  }

  lemma InitInv()
    ensures Inv(Init)
  {}

  /** No node is pushed a second time in this run. */
  predicate PushedOnce(s: Sys, actions: seq<Action>)
    decreases |actions|
  {
    actions == [] || ((actions[0].StartPush? ==> Pushes(s, actions[0].node) == 0) && PushedOnce(Apply(s, actions[0]), actions[1..]))
  }

  predicate AtMostOnce(s: Sys) {
    forall n {:trigger s.pushes[n]} :: n in s.pushes ==> s.pushes[n] <= 1
  }

  /** If no node is ever pushed twice, every pop is careful, whatever tags are drawn. */
  lemma {:induction false} OnceCareful(s: Sys, actions: seq<Action>)
    requires AtMostOnce(s) && PushedOnce(s, actions)
    ensures CarefulRun(s, actions)
    decreases |actions|
  {
    if actions != [] {
      OnceCareful(Apply(s, actions[0]), actions[1..]);
    }
  }

  /** No swap installs a pair that a pop under way has loaded. */
  predicate Unrepeated(s: Sys, actions: seq<Action>)
    decreases |actions|
  {
    NoneStale(s) && (actions == [] || Unrepeated(Apply(s, actions[0]), actions[1..]))
  }

  predicate NoneStale(s: Sys) {
    forall t {:trigger s.pcs[t]} :: t in s.pcs && Popping(s.pcs[t]) ==> !s.pcs[t].stale
  }

  lemma {:induction false} UnrepeatedCareful(s: Sys, actions: seq<Action>)
    requires Unrepeated(s, actions)
    ensures CarefulRun(s, actions)
    decreases |actions|
  {
    if actions != [] {
      UnrepeatedCareful(Apply(s, actions[0]), actions[1..]);
    }
  }

  /** Either condition, over a whole run from the empty stack, is enough. */
  lemma EitherSuffices(actions: seq<Action>)
    requires PushedOnce(Init, actions) || Unrepeated(Init, actions)
    ensures var s := Run(Init, actions); Chain(s.next, s.head.ptr, s.stack) && Distinct(s.stack) && s.pushed == s.popped + multiset(s.stack)
  {
    InitInv();
    if PushedOnce(Init, actions) {
      OnceCareful(Init, actions);
    } else {
      UnrepeatedCareful(Init, actions);
    }
    RunKeeps(Init, actions);
  }

  // ---------------------------------------------------------------- undisturbed operations

  function PushSteps(t: int, node: int, tag: int): seq<Action> {
    [StartPush(t, node), Advance(t, 0), Advance(t, 0), Advance(t, tag), Advance(t, 0)]
  }

  function PopSteps(t: int, tag: int): seq<Action> {
    [StartPop(t), Advance(t, 0), Advance(t, 0), Advance(t, tag), Advance(t, 0)]
  }

  lemma {:induction false} RunAppend(s: Sys, a: seq<Action>, b: seq<Action>)
    ensures Run(s, a + b) == Run(Run(s, a), b)
    decreases |a|
  {
    if a == [] {
      assert a + b == b;
    } else {
      assert (a + b)[0] == a[0] && (a + b)[1..] == a[1..] + b;
      RunAppend(Apply(s, a[0]), a[1..], b);
    }
  }

  lemma RunRest(s: Sys, a: seq<Action>, i: nat)
    requires i < |a|
    ensures Run(s, a[i..]) == Run(Apply(s, a[i]), a[i + 1..])
  {
    assert a[i..][1..] == a[i + 1..];
  }

  lemma RunFour(s: Sys, a: seq<Action>)
    requires |a| >= 4
    ensures Run(s, a) == Run(Apply(Apply(Apply(Apply(s, a[0]), a[1]), a[2]), a[3]), a[4..])
  {
    hide Apply, Run;
    assert a[0..] == a;
    RunRest(s, a, 0);
    var s1 := Apply(s, a[0]);
    RunRest(s1, a, 1);
    var s2 := Apply(s1, a[1]);
    RunRest(s2, a, 2);
    RunRest(Apply(s2, a[2]), a, 3);
  }

  lemma RunFive(s: Sys, a: seq<Action>)
    requires |a| == 5
    ensures Run(s, a) == Apply(Apply(Apply(Apply(Apply(s, a[0]), a[1]), a[2]), a[3]), a[4])
  {
    hide Apply;
    RunFour(s, a);
    RunRest(Apply(Apply(Apply(Apply(s, a[0]), a[1]), a[2]), a[3]), a, 4);
  }

  /** The first steps of a pop, up to the swap. */
  function HalfPop(t: int, tag: int): seq<Action> {
    [StartPop(t), Advance(t, 0), Advance(t, 0), Advance(t, tag)]
  }

  /** Nothing but the place of thread t and what the push writes has changed. */
  ghost predicate Ready(s: Sys, s': Sys, t: int, pc: Pc) {
    && s'.head == s.head && s'.stack == s.stack && PcOf(s', t) == pc
    && forall u {:trigger PcOf(s', u)} :: u != t ==> PcOf(s', u) == PcOf(s, u)
  }

  lemma ReadyPush(s: Sys, t: int, node: int, tag: int)
    requires MayPush(s, t, node)
    ensures var s' := Apply(Apply(Apply(Apply(s, StartPush(t, node)), Advance(t, 0)), Advance(t, 0)), Advance(t, tag));
            Ready(s, s', t, PushSwap(node, s.head, tag)) && s'.next == s.next[node := s.head.ptr]
  {}

  lemma ReadyPop(s: Sys, t: int, tag: int)
    requires PcOf(s, t).Idle? && s.head.ptr != NULL
    ensures var s' := Apply(Apply(Apply(Apply(s, StartPop(t)), Advance(t, 0)), Advance(t, 0)), Advance(t, tag));
            Ready(s, s', t, PopSwap(s.head, NextOf(s.next, s.head.ptr), tag, false)) && s'.next == s.next
  {}

  lemma HalfPopIs(s: Sys, t: int, tag: int)
    requires PcOf(s, t).Idle? && s.head.ptr != NULL
    ensures var s' := Run(s, HalfPop(t, tag)); Ready(s, s', t, PopSwap(s.head, NextOf(s.next, s.head.ptr), tag, false)) && s'.next == s.next
  {
    hide Apply, Ready;
    RunFour(s, HalfPop(t, tag));
    assert HalfPop(t, tag)[4..] == [];
    ReadyPop(s, t, tag);
  }

  /** What the others see of a finished operation. */
  ghost predicate Finished(s: Sys, s': Sys, t: int, v: Tagged) {
    && s'.head == v && PcOf(s', t).Idle?
    && forall u {:trigger PcOf(s', u)} :: u != t ==> PcOf(s', u) == Noticed(PcOf(s, u), v)
  }

  lemma LastStep(s: Sys, s4: Sys, t: int, pc: Pc)
    requires Ready(s, s4, t, pc) && ((pc.PushSwap? || pc.PopSwap?) && pc.seen == s.head)
    ensures var s' := Apply(s4, Advance(t, 0));
            && Finished(s, s', t, Tagged(if pc.PushSwap? then pc.node else pc.next, pc.tag)) && s'.next == s4.next
            && s'.stack == (if pc.PushSwap? then [pc.node] + s.stack else if s.stack == [] then [] else s.stack[1..])
  {
    SwappedPcs(s4, Tagged(if pc.PushSwap? then pc.node else pc.next, pc.tag), t, Apply(s4, Advance(t, 0)));
  }

  /** An uninterrupted push. */
  lemma SoloPush(s: Sys, t: int, node: int, tag: int)
    requires MayPush(s, t, node)
    ensures var s' := Run(s, PushSteps(t, node, tag));
            && Finished(s, s', t, Tagged(node, tag)) && s'.next == s.next[node := s.head.ptr] && s'.stack == [node] + s.stack
  {
    hide Apply, Ready, Finished, MayPush;
    RunFive(s, PushSteps(t, node, tag));
    ReadyPush(s, t, node, tag);
    LastStep(s, Apply(Apply(Apply(Apply(s, StartPush(t, node)), Advance(t, 0)), Advance(t, 0)), Advance(t, tag)), t, PushSwap(node, s.head, tag));
  }

  /** An uninterrupted pop of a node in the stack. */
  lemma SoloPop(s: Sys, t: int, tag: int)
    requires PcOf(s, t).Idle? && s.head.ptr != NULL && s.stack != []
    ensures var s' := Run(s, PopSteps(t, tag));
            && Finished(s, s', t, Tagged(NextOf(s.next, s.head.ptr), tag)) && s'.next == s.next && s'.stack == s.stack[1..]
  {
    hide Apply, Ready, Finished;
    RunFive(s, PopSteps(t, tag));
    ReadyPop(s, t, tag);
    LastStep(s, Apply(Apply(Apply(Apply(s, StartPop(t)), Advance(t, 0)), Advance(t, 0)), Advance(t, tag)), t,
             PopSwap(s.head, NextOf(s.next, s.head.ptr), tag, false));
  }

  lemma LastSwap(s: Sys, t: int)
    requires PcOf(s, t).PopSwap? && s.head == PcOf(s, t).seen && |s.stack| == 1
    ensures var s' := Run(s, [Advance(t, 0)]); s'.stack == [] && s'.head.ptr == PcOf(s, t).next
  {
    assert [Advance(t, 0)][1..] == [];
  }

  /** With only thread w under way, and not pushing, an outside node may be pushed. */
  lemma MayPushBut(s: Sys, t: int, node: int, w: int)
    requires PcOf(s, t).Idle? && node != NULL && node !in s.stack
    requires forall u {:trigger PcOf(s, u)} :: u != w ==> !Pushing(PcOf(s, u))
    requires !Pushing(PcOf(s, w))
    ensures MayPush(s, t, node)
  {
    forall u | u in s.pcs ensures !Pushing(s.pcs[u]) {
      assert PcOf(s, u) == s.pcs[u];
    }
  }
}
