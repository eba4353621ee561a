/** Whatever seed the stack is given, there is a run, with the tags its generator draws, that loses. */
module EHashRepeat {
  import opened EHashStack
  import HashGenerator

  /** The tags drawn along a run, in order. */
  function Drawn(s: Sys, actions: seq<Action>): seq<int>
    decreases |actions|
  {
    if actions == [] then [] else
      var a := actions[0];
      (if a.Advance? && (PcOf(s, a.t).PushDraw? || PcOf(s, a.t).PopDraw?) then [a.tag] else []) + Drawn(Apply(s, a), actions[1..])
  }

  /** They are what `g` yields, one after the other. */
  predicate Follows(g: nat -> int, tags: seq<int>) {
    forall k {:trigger tags[k]} :: 0 <= k < |tags| ==> tags[k] == g(k)
  }

  lemma {:induction false} DrawnAppend(s: Sys, a: seq<Action>, b: seq<Action>)
    ensures Drawn(s, a + b) == Drawn(s, a) + Drawn(Run(s, a), b)
    decreases |a|
  {
    hide Apply;
    if a == [] {
      assert a + b == b;
    } else {
      assert (a + b)[0] == a[0] && (a + b)[1..] == a[1..] + b;
      DrawnAppend(Apply(s, a[0]), a[1..], b);
    }
  }

  lemma DrawnRest(s: Sys, a: seq<Action>, i: nat)
    requires i < |a|
    ensures Drawn(s, a[i..]) == (if a[i].Advance? && (PcOf(s, a[i].t).PushDraw? || PcOf(s, a[i].t).PopDraw?) then [a[i].tag] else [])
                               + Drawn(Apply(s, a[i]), a[i + 1..])
  {
    assert a[i..][1..] == a[i + 1..];
  }

  /** A thread draws a tag in its third step after the first. */
  lemma StagesPush(s: Sys, t: int, node: int)
    requires MayPush(s, t, node)
    ensures var s1 := Apply(s, StartPush(t, node)); var s2 := Apply(s1, Advance(t, 0)); var s3 := Apply(s2, Advance(t, 0));
            PcOf(s1, t).PushLoad? && PcOf(s2, t).PushLink? && PcOf(s3, t).PushDraw?
  {}

  lemma StagesPop(s: Sys, t: int)
    requires PcOf(s, t).Idle? && s.head.ptr != NULL
    ensures var s1 := Apply(s, StartPop(t)); var s2 := Apply(s1, Advance(t, 0)); var s3 := Apply(s2, Advance(t, 0));
            PcOf(s1, t).PopLoad? && PcOf(s2, t).PopRead? && PcOf(s3, t).PopDraw?
  {}

  lemma StageLast(s: Sys, t: int, tag: int)
    requires PcOf(s, t).PushDraw? || PcOf(s, t).PopDraw?
    ensures var pc := PcOf(Apply(s, Advance(t, tag)), t); pc.PushSwap? || pc.PopSwap?
  {}

  /** A push or pop that meets no obstacle draws one tag, before its swap. */
  lemma DrawnOne(s: Sys, a: seq<Action>, t: int, tag: int)
    requires |a| == 4 || (|a| == 5 && a[4] == Advance(t, 0))
    requires a[1] == a[2] == Advance(t, 0) && a[3] == Advance(t, tag)
    requires (a[0].StartPush? && a[0].t == t && MayPush(s, t, a[0].node)) || (a[0] == StartPop(t) && PcOf(s, t).Idle? && s.head.ptr != NULL)
    ensures Drawn(s, a) == [tag]
  {
    hide MayPush, Drawn, Apply, PcOf;
    if a[0].StartPush? {
      StagesPush(s, t, a[0].node);
    } else {
      StagesPop(s, t);
    }
    assert a[0..] == a;
    DrawnRest(s, a, 0);
    var s1 := Apply(s, a[0]);
    DrawnRest(s1, a, 1);
    var s2 := Apply(s1, a[1]);
    DrawnRest(s2, a, 2);
    var s3 := Apply(s2, a[2]);
    DrawnRest(s3, a, 3);
    var s4 := Apply(s3, a[3]);
    StageLast(s3, t, tag);
    DrawnNone(s4);
    if |a| == 5 {
      DrawnRest(s4, a, 4);
      DrawnNone(Apply(s4, a[4]));
    }
  }

  lemma DrawnNone(s: Sys)
    ensures Drawn(s, []) == []
  {}

  // ---------------------------------------------------------------- runs with given tags

  /** After the actions the stack is `s` and the first n tags of `g` were drawn. */
  ghost predicate Reached(g: nat -> int, actions: seq<Action>, n: nat, s: Sys) {
    Run(Init, actions) == s && |Drawn(Init, actions)| == n && Follows(g, Drawn(Init, actions))
  }

  lemma ReachedMore(g: nat -> int, actions: seq<Action>, n: nat, s: Sys, more: seq<Action>)
    requires Reached(g, actions, n, s) && Drawn(s, more) == [g(n)]
    ensures Reached(g, actions + more, n + 1, Run(s, more))
  {
    hide Run, Drawn;
    RunAppend(Init, actions, more);
    DrawnAppend(Init, actions, more);
  }

  ghost predicate NonePushing(s: Sys) {
    forall u {:trigger PcOf(s, u)} :: !Pushing(PcOf(s, u))
  }

  /** Threads from t on have not begun. */
  ghost predicate Unused(s: Sys, t: int) {
    forall u {:trigger PcOf(s, u)} :: u >= t ==> PcOf(s, u).Idle?
  }

  /** A push by a thread at rest, with the next tag. */
  lemma PushNext(g: nat -> int, actions: seq<Action>, n: nat, s: Sys, t: int, node: int)
    returns (actions': seq<Action>, s': Sys)
    requires Reached(g, actions, n, s) && PcOf(s, t).Idle? && NonePushing(s) && node != NULL && node !in s.stack
    ensures Reached(g, actions', n + 1, s') && Finished(s, s', t, Tagged(node, g(n))) && NonePushing(s')
    ensures s'.next == s.next[node := s.head.ptr] && s'.stack == [node] + s.stack
  {
    hide Run, Drawn, Apply, Reached;
    MayPushBut(s, t, node, t);
    SoloPush(s, t, node, g(n));
    DrawnOne(s, PushSteps(t, node, g(n)), t, g(n));
    ReachedMore(g, actions, n, s, PushSteps(t, node, g(n)));
    actions', s' := actions + PushSteps(t, node, g(n)), Run(s, PushSteps(t, node, g(n)));
    NonePushingAfter(s, s', t, Tagged(node, g(n)));
  }

  lemma NonePushingAfter(s: Sys, s': Sys, t: int, v: Tagged)
    requires NonePushing(s) && Finished(s, s', t, v)
    ensures NonePushing(s') && (forall u :: Unused(s, u) && t < u ==> Unused(s', u))
  {}

  lemma PopNext(g: nat -> int, actions: seq<Action>, n: nat, s: Sys, t: int) returns (actions': seq<Action>, s': Sys)
    requires Reached(g, actions, n, s) && PcOf(s, t).Idle? && NonePushing(s) && s.head.ptr != NULL && s.stack != []
    ensures Reached(g, actions', n + 1, s') && Finished(s, s', t, Tagged(NextOf(s.next, s.head.ptr), g(n))) && NonePushing(s')
    ensures s'.next == s.next && s'.stack == s.stack[1..]
  {
    hide Run, Drawn, Apply, Reached;
    SoloPop(s, t, g(n));
    DrawnOne(s, PopSteps(t, g(n)), t, g(n));
    ReachedMore(g, actions, n, s, PopSteps(t, g(n)));
    actions', s' := actions + PopSteps(t, g(n)), Run(s, PopSteps(t, g(n)));
    NonePushingAfter(s, s', t, Tagged(NextOf(s.next, s.head.ptr), g(n)));
  }

  /** A pop that stops before its swap. */
  lemma HalfNext(g: nat -> int, actions: seq<Action>, n: nat, s: Sys, t: int) returns (actions': seq<Action>, s': Sys)
    requires Reached(g, actions, n, s) && PcOf(s, t).Idle? && NonePushing(s) && s.head.ptr != NULL
    ensures Reached(g, actions', n + 1, s') && NonePushing(s')
    ensures Ready(s, s', t, PopSwap(s.head, NextOf(s.next, s.head.ptr), g(n), false)) && s'.next == s.next
  {
    hide Run, Drawn, Apply, Reached;
    HalfPopIs(s, t, g(n));
    DrawnOne(s, HalfPop(t, g(n)), t, g(n));
    ReachedMore(g, actions, n, s, HalfPop(t, g(n)));
    actions', s' := actions + HalfPop(t, g(n)), Run(s, HalfPop(t, g(n)));
  }

  /** The others stand where they did. */
  ghost predicate Below(s: Sys, s': Sys, t: int) {
    && s'.head == s.head && s'.stack == s.stack && s'.next == s.next
    && forall u {:trigger PcOf(s', u)} :: u < t ==> PcOf(s', u) == PcOf(s, u)
  }

  /** Fresh threads use up b tags. */
  lemma {:induction false} Burn(g: nat -> int, actions: seq<Action>, n: nat, s: Sys, t: int, b: nat)
    returns (actions': seq<Action>, s': Sys)
    requires Reached(g, actions, n, s) && Unused(s, t) && NonePushing(s) && s.head.ptr != NULL
    ensures Reached(g, actions', n + b, s') && Unused(s', t + b) && NonePushing(s') && Below(s, s', t)
    decreases b
  {
    hide Reached;
    if b == 0 {
      return actions, s;
    }
    assert PcOf(s, t).Idle?;
    var s1;
    actions', s1 := HalfNext(g, actions, n, s, t);
    actions', s' := Burn(g, actions', n + 1, s1, t + 1, b - 1);
  }

  // ---------------------------------------------------------------- the losing run

  /** Nodes 20 and 10 are pushed, 10 under the i-th tag. Thread 1 stops before its swap while thread 2 pops
      both and pushes 10 back under the j-th tag, which is the same. The swap goes through, and the head is
      a node that is not in the stack. */
  lemma RepeatLoses(g: nat -> int, i: nat, j: nat) returns (actions: seq<Action>)
    requires 1 <= i && i + 4 <= j && g(i) == g(j)
    ensures Follows(g, Drawn(Init, actions))
    ensures var s := Run(Init, actions); s.stack == [] && s.head.ptr == 20 && !Chain(s.next, s.head.ptr, s.stack)
  {
    hide Reached, Apply, Run, Drawn;
    InitReached(g);
    var s;
    actions, s := PushNext(g, [], 0, Init, 2, 20);
    actions, s := Burn(g, actions, 1, s, 3, i - 1);
    assert PcOf(s, 1).Idle? && PcOf(s, 2).Idle? && s.stack == [20];
    actions, s := Swindle(g, actions, i, j, s);
  }

  lemma InitReached(g: nat -> int)
    ensures Reached(g, [], 0, Init)
  {}

  lemma Swindle(g: nat -> int, actions0: seq<Action>, i: nat, j: nat, s0: Sys) returns (actions: seq<Action>, s: Sys)
    requires Reached(g, actions0, i, s0) && 1 <= i && i + 4 <= j && g(i) == g(j)
    requires s0.stack == [20] && s0.head.ptr == 20 && NextOf(s0.next, 20) == NULL && NonePushing(s0)
    requires PcOf(s0, 1).Idle? && PcOf(s0, 2).Idle? && Unused(s0, i + 2)
    ensures Follows(g, Drawn(Init, actions)) && Run(Init, actions) == s
    ensures s.stack == [] && s.head.ptr == 20 && !Chain(s.next, s.head.ptr, s.stack)
  {
    hide Reached, Apply, Run, Drawn;
    actions, s := PushNext(g, actions0, i, s0, 2, 10);
    assert Unused(s, i + 2) && s.head == Tagged(10, g(i));
    actions, s := HalfNext(g, actions, i + 1, s, 1);
    assert Waiting(s, g(i));
    actions, s := Burn(g, actions, i + 2, s, i + 2, j - i - 4);
    assert Waiting(s, g(i)) && PcOf(s, 2).Idle? && s.stack == [10, 20];
    actions, s := PopNext(g, actions, j - 2, s, 2);
    assert s.stack == [20] && s.head.ptr == 20;
    actions, s := PopNext(g, actions, j - 1, s, 2);
    actions, s := PushNext(g, actions, j, s, 2, 10);
    assert Waiting(s, g(i)) && s.head == Tagged(10, g(i)) && s.stack == [10];
    LastSwap(s, 1);
    LastReached(g, actions, j + 1, s);
    actions, s := actions + [Advance(1, 0)], Run(s, [Advance(1, 0)]);
  }

  /** Thread 1 is about to swap. */
  predicate Waiting(s: Sys, tag: int) {
    PcOf(s, 1).PopSwap? && PcOf(s, 1).seen == Tagged(10, tag) && PcOf(s, 1).next == 20
  }

  lemma LastReached(g: nat -> int, actions: seq<Action>, n: nat, s: Sys)
    requires Reached(g, actions, n, s) && PcOf(s, 1).PopSwap?
    ensures var actions' := actions + [Advance(1, 0)];
            Run(Init, actions') == Run(s, [Advance(1, 0)]) && Follows(g, Drawn(Init, actions'))
  {
    hide Apply;
    RunAppend(Init, actions, [Advance(1, 0)]);
    DrawnAppend(Init, actions, [Advance(1, 0)]);
    DrawnNone(Apply(s, Advance(1, 0)));
    assert [Advance(1, 0)][1..] == [];
  }

  function TagsOf(seed: bv64): nat -> int {
    (k: nat) => HashGenerator.Tag(seed, k)
  }

  /** With any seed at all, and the tags its generator draws, some run of some threads loses: the stack
      should be empty, and the head names a node. */
  lemma EverySeedLoses(seed: bv64) returns (actions: seq<Action>)
    ensures Follows(TagsOf(seed), Drawn(Init, actions))
    ensures var s := Run(Init, actions); s.stack == [] && s.head.ptr == 20 && !Chain(s.next, s.head.ptr, s.stack)
  {
    hide Run, Drawn, HashGenerator.Tag, Follows, Chain;
    var i, j := HashGenerator.SpacedRepeat(seed);
    actions := RepeatLoses(TagsOf(seed), i, j);
  }
}
