/** Freeing a list of several blocks while other threads take and return blocks.  `free(st, en)` splices along the
    links of the free list, and those of blocks that were taken apart from each other do not follow the list. */
module ChainSplices {
  import opened Chains
  import opened FreeListSteps
  import FreeList

  /** The links of the free list lead from each block to the next. */
  predicate Follows(lv: seq<nat>, blks: seq<nat>)
    requires forall i | 0 <= i < |blks| :: blks[i] < |lv|
  {
    forall i {:trigger lv[blks[i]]} | 0 <= i < |blks| - 1 :: lv[blks[i]] == After(blks, i)
  }

  predicate HandedOut(s: State, blks: seq<nat>)
    requires Shape(s)
  {
    blks != [] && Distinct(blks) && forall i | 0 <= i < |blks| :: blks[i] < |s.lv| && s.place[blks[i]] == Out
  }

  /** The winning swap of free(st, en): the link of the last block leads to the old head, the head to the first. */
  function Spliced(s: State, blks: seq<nat>): State
    requires Shape(s) && HandedOut(s, blks)
  {
    s.(lv := s.lv[blks[|blks| - 1] := s.head.idx], head := Head(s.head.ver + 1, blks[0]))
  }

  /** The splice puts just the blocks of the list, in their order, in front of the free list. */
  ghost predicate Whole(s: State, blks: seq<nat>)
    requires Shape(s) && HandedOut(s, blks)
  {
    Chain(Spliced(s, blks).lv, blks[0], blks + s.list)
  }

  lemma WholeIffFollows(s: State, blks: seq<nat>)
    requires Inv(s) && HandedOut(s, blks)
    ensures Whole(s, blks) <==> Follows(s.lv, blks)
  {
    if Follows(s.lv, blks) {
      forall i | 0 <= i < |blks| ensures blks[i] !in s.list { assert PlaceOk(s, blks[i]); }
      FreeList.RunIsChain(s.lv, Spliced(s, blks).lv, s.head.idx, s.list, blks);
    }
    if Whole(s, blks) {
      var lv, all := Spliced(s, blks).lv, blks + s.list;
      forall i | 0 <= i < |blks| - 1 ensures s.lv[blks[i]] == After(blks, i) {
        assert all[i] == blks[i] && lv[all[i]] == After(all, i);
      }
    }
  }

  // ---------------------------------------------------------------- the link of a block that is handed out

  /** What stood behind b on the free list when b was last taken. */
  ghost function NextAtPop(n: nat, threads: nat, sched: seq<Tick>, b: nat): nat
    requires 0 < n < LIST_END
  {
    if sched == [] then LIST_END
    else
      var rest, k := sched[..|sched| - 1], sched[|sched| - 1];
      var s := Run(n, threads, rest);
      if k.t < |s.pcs| && Pops(s, k.t, b) then (if |s.list| > 1 then s.list[1] else LIST_END)
      else NextAtPop(n, threads, rest, b)
  }

  lemma LinkAtStep(s: State, k: Tick, b: nat)
    requires Inv(s) && b < |s.lv| == |Step(s, k).place| && Step(s, k).place[b] == Out
    ensures |Step(s, k).lv| == |s.lv| && Step(s, k).lv[b] == s.lv[b]
    ensures k.t < |s.pcs| && Pops(s, k.t, b) ==> s.lv[b] == if |s.list| > 1 then s.list[1] else LIST_END
    ensures !(k.t < |s.pcs| && Pops(s, k.t, b)) ==> s.place[b] == Out
  {
    if k.t < |s.pcs| {
      assert PcOk(s, k.t);
      if s.pcs[k.t].PopLinked? && s.head == s.pcs[k.t].cur {
        PopWinInv(s, k.t);
        assert s.lv[s.list[0]] == After(s.list, 0);
      }
    }
  }

  /** In every run, the link of a block that is handed out still names what stood behind it when it was taken. */
  lemma {:induction false} LinkIsNextAtPop(n: nat, threads: nat, sched: seq<Tick>, b: nat)
    requires 0 < n < LIST_END && b < n && Run(n, threads, sched).place[b] == Out
    ensures Run(n, threads, sched).lv[b] == NextAtPop(n, threads, sched, b)
  {
    if sched != [] {
      var rest, k := sched[..|sched| - 1], sched[|sched| - 1];
      LinkAtStep(Run(n, threads, rest), k, b);
      if Run(n, threads, rest).place[b] == Out { LinkIsNextAtPop(n, threads, rest, b); }
    }
  }

  /** In every run, freeing a list of blocks gives back just these blocks if and only if each of them stood right
      behind the one before it on the free list when that one was taken. */
  lemma WholeIffTakenInOrder(n: nat, threads: nat, sched: seq<Tick>, blks: seq<nat>)
    requires 0 < n < LIST_END && HandedOut(Run(n, threads, sched), blks)
    ensures Whole(Run(n, threads, sched), blks) <==>
      forall i | 0 <= i < |blks| - 1 :: NextAtPop(n, threads, sched, blks[i]) == blks[i + 1]
  {
    var s := Run(n, threads, sched);
    WholeIffFollows(s, blks);
    forall i | 0 <= i < |blks| ensures s.lv[blks[i]] == NextAtPop(n, threads, sched, blks[i]) {
      LinkIsNextAtPop(n, threads, sched, blks[i]);
    }
  }

  // ---------------------------------------------------------------- blocks taken together, and apart

  /** The three steps of a nxt() that nobody disturbs. */
  function PopAlone(t: nat): seq<Tick> { [Tick(t, Pop), Tick(t, Continue), Tick(t, Continue)] }

  /** k of them, as alloc takes k blocks. */
  function PopsAlone(t: nat, k: nat): seq<Tick> {
    if k == 0 then [] else PopsAlone(t, k - 1) + PopAlone(t)
  }

  /** Thread t took the first k blocks of the list of s and nothing else has changed. */
  predicate Took(s: State, s': State, k: nat) {
    && k <= |s.list| && s'.list == s.list[k..] && s'.lv == s.lv && s'.pcs == s.pcs && |s'.place| == |s.place|
    && (forall b | 0 <= b < |s.place| :: s'.place[b] == if b in s.list[..k] then Out else s.place[b])
  }

  lemma OnePop(s: State, t: nat)
    requires Inv(s) && t < |s.pcs| && s.pcs[t].Idle? && s.list != []
    ensures Inv(Step(s, Tick(t, Pop))) && Inv(Step(Step(s, Tick(t, Pop)), Tick(t, Continue)))
    ensures Took(s, Step(Step(Step(s, Tick(t, Pop)), Tick(t, Continue)), Tick(t, Continue)), 1)
  {
    var s1 := Step(s, Tick(t, Pop));
    StepInv(s, Tick(t, Pop));
    StepInv(s1, Tick(t, Continue));
    PopWinInv(Step(s1, Tick(t, Continue)), t);
  }

  lemma RunNext(n: nat, threads: nat, sched: seq<Tick>, k: Tick)
    requires 0 < n < LIST_END
    ensures Run(n, threads, sched + [k]) == Step(Run(n, threads, sched), k)
  {
    assert (sched + [k])[..|sched|] == sched;
  }

  lemma RunPopAlone(n: nat, threads: nat, sched: seq<Tick>, t: nat, s: State)
    requires 0 < n < LIST_END && s == Run(n, threads, sched)
    ensures var s1 := Step(s, Tick(t, Pop));
      && Inv(s1) && Inv(Step(s1, Tick(t, Continue)))
      && Run(n, threads, sched + PopAlone(t)) == Step(Step(s1, Tick(t, Continue)), Tick(t, Continue))
  {
    var a := sched + [Tick(t, Pop)];
    RunNext(n, threads, sched, Tick(t, Pop));
    RunNext(n, threads, a, Tick(t, Continue));
    RunNext(n, threads, a + [Tick(t, Continue)], Tick(t, Continue));
    assert sched + PopAlone(t) == a + [Tick(t, Continue)] + [Tick(t, Continue)];
  }

  lemma RunOnePop(n: nat, threads: nat, sched: seq<Tick>, t: nat, s: State)
    requires 0 < n < LIST_END && t < threads && s == Run(n, threads, sched) && s.pcs[t].Idle? && s.list != []
    ensures Took(s, Run(n, threads, sched + PopAlone(t)), 1)
  {
    RunPopAlone(n, threads, sched, t, s);
    OnePop(s, t);
  }

  lemma TookMore(s: State, s1: State, s2: State, k: nat)
    requires Took(s, s1, k) && Took(s1, s2, 1)
    ensures Took(s, s2, k + 1)
  {
    assert s.list[..k + 1] == s.list[..k] + [s.list[k]] && s1.list[..1] == [s.list[k]];
  }

  lemma TookIsWhole(s: State, s': State, k: nat)
    requires Inv(s) && Inv(s') && 0 < k && Took(s, s', k)
    ensures HandedOut(s', s.list[..k]) && Whole(s', s.list[..k])
  {
    forall i | 0 <= i < k - 1 ensures s'.lv[s.list[i]] == s.list[i + 1] { assert s.lv[s.list[i]] == After(s.list, i); }
    WholeIffFollows(s', s.list[..k]);
  }

  /** Thread t took the first k blocks, and they can be freed together. */
  ghost predicate TookTogether(s: State, s': State, k: nat)
    requires Shape(s')
  {
    Took(s, s', k) && (k > 0 ==> HandedOut(s', s.list[..k]) && Whole(s', s.list[..k]))
  }

  lemma PopsAloneMore(sched: seq<Tick>, t: nat, k: nat)
    requires 0 < k
    ensures sched + PopsAlone(t, k) == sched + PopsAlone(t, k - 1) + PopAlone(t)
  {
  }

  /** An alloc that nobody disturbs takes blocks that can be freed together. */
  lemma {:induction false} TakenTogether(n: nat, threads: nat, sched: seq<Tick>, t: nat, k: nat)
    requires 0 < n < LIST_END && t < threads
    requires var s := Run(n, threads, sched); s.pcs[t].Idle? && k <= |s.list|
    ensures TookTogether(Run(n, threads, sched), Run(n, threads, sched + PopsAlone(t, k)), k)
  {
    if k == 0 {
      assert sched + PopsAlone(t, 0) == sched;
    } else {
      var before := sched + PopsAlone(t, k - 1);
      TakenTogether(n, threads, sched, t, k - 1);
      OneMore(n, threads, before, t, k, Run(n, threads, sched), Run(n, threads, before));
      PopsAloneMore(sched, t, k);
    }
  }

  lemma OneMore(n: nat, threads: nat, before: seq<Tick>, t: nat, k: nat, s: State, s1: State)
    requires 0 < n < LIST_END && t < threads && 0 < k <= |s.list| && t < |s.pcs| && s.pcs[t].Idle? && Inv(s)
    requires s1 == Run(n, threads, before) && Took(s, s1, k - 1)
    ensures TookTogether(s, Run(n, threads, before + PopAlone(t)), k)
  {
    RunOnePop(n, threads, before, t, s1);
    var s' := Run(n, threads, before + PopAlone(t));
    TookMore(s, s1, s', k - 1);
    TookIsWhole(s, s', k);
  }

  /** Two threads that take blocks in turn: the first frees its two blocks, and the block of the other one stands on
      the free list behind the first of them. */
  lemma TakenApart(n: nat)
    requires 3 <= n < LIST_END
    ensures var s := Run(n, 2, PopAlone(0) + PopAlone(1) + PopAlone(0));
      && HandedOut(s, [0, 2]) && s.place[1] == Out && !Whole(s, [0, 2])
      && Spliced(s, [0, 2]).head.idx == 0 && Spliced(s, [0, 2]).lv[0] == 1
  {
    var one, two := PopAlone(0), PopAlone(0) + PopAlone(1);
    var s0, s1, s2, s3 := Init(n, 2), Run(n, 2, one), Run(n, 2, two), Run(n, 2, two + one);
    RunOnePop(n, 2, [], 0, s0);
    assert [] + one == one;
    RunOnePop(n, 2, one, 1, s1);
    TookMore(s0, s1, s2, 1);
    RunOnePop(n, 2, two, 0, s2);
    TookMore(s0, s2, s3, 2);
    ThirdIsBehindSecond(s0, s3);
  }

  lemma ThirdIsBehindSecond(s: State, s': State)
    requires Inv(s') && Took(s, s', 3) && s.list[..3] == [0, 1, 2] && 3 <= |s.lv| && s.lv[0] == 1
    ensures HandedOut(s', [0, 2]) && s'.place[1] == Out && !Whole(s', [0, 2])
    ensures Spliced(s', [0, 2]).head.idx == 0 && Spliced(s', [0, 2]).lv[0] == 1
  {
    assert 0 in s.list[..3] && 1 in s.list[..3] && 2 in s.list[..3];
    WholeIffFollows(s', [0, 2]);
    assert After([0, 2], 0) == 2;
  }
}
