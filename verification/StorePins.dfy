/** What is never undone: blocks that a get with too small a buffer, or a put that gave up, leaves behind. */
module StorePins {
  import opened StoreSteps
  import opened StoreInvariant
  import opened StoreProbe
  import opened StoreAlloc
  import opened StoreRuns
  import FL = FreeListSteps

  /** Reader counts without an owner stay on a list for good. */
  predicate Pinned(s: State, b: nat, v: nat)
    requires Shape(s)
  {
    b < |s.bls| && v != 0 && s.bls[b].version == v && s.leaks[b] > 0
  }

  lemma PinAtAlloc(s: State, t: nat, b: nat, v: nat)
    requires Inv(s) && Pinned(s, b, v) && t < |s.th| && (s.th[t].pc.Popping? || Filling(s.th[t].pc))
    requires Shape(AllocStep(s, t))
    ensures Pinned(AllocStep(s, t), b, v)
  {
    assert PcOk(s, t) && BlockOk(s, b);
  }

  lemma PinAtFree(s: State, t: nat, b: nat, v: nat)
    requires Inv(s) && Pinned(s, b, v) && t < |s.th| && AtFree(s.th[t].pc)
    requires Shape(FreeStep(s, t))
    ensures Pinned(FreeStep(s, t), b, v)
  {
    assert PcOk(s, t) && BlockOk(s, b) && ReadersOk(s, b);
  }

  predicate Reading(pc: Pc) { pc.GetInc? || pc.RdInc? || pc.RdCopy? || pc.RdDec? || pc.GetDec? }

  /** The other steps change neither versions nor, except upwards, the counts left behind. */
  lemma PinAtCheck(s: State, t: nat, b: nat, v: nat)
    requires Shape(s) && Pinned(s, b, v) && t < |s.th|
    requires var pc := s.th[t].pc; pc.LoadSlot? || pc.CkHash? || pc.CkVer? || pc.CkLen?
    requires Shape(ProbeStep(s, t))
    ensures Pinned(ProbeStep(s, t), b, v)
  {
    assert ThreadShape(s.bs, |s.bls|, s.th[t]);
  }

  lemma PinAtCompare(s: State, t: nat, b: nat, v: nat)
    requires Shape(s) && Pinned(s, b, v) && t < |s.th|
    requires var pc := s.th[t].pc; pc.CmpInc? || pc.CmpRead? || pc.CmpDec?
    requires Shape(ProbeStep(s, t))
    ensures Pinned(ProbeStep(s, t), b, v)
  {
    assert ThreadShape(s.bs, |s.bls|, s.th[t]);
  }

  lemma PinAtOther(s: State, k: Tick, b: nat, v: nat)
    requires Inv(s) && Pinned(s, b, v) && k.t < |s.th| && Shape(Step(s, k))
    requires var pc := s.th[k.t].pc;
      pc.Idle? || pc.Done? || pc.SwapSlot? || pc.Unlink? || Reading(pc)
    ensures Pinned(Step(s, k), b, v)
  {
    assert ThreadShape(s.bs, |s.bls|, s.th[k.t]);
  }

  lemma PinStep(s: State, k: Tick, b: nat, v: nat)
    requires Inv(s) && Pinned(s, b, v)
    ensures Inv(Step(s, k)) && Pinned(Step(s, k), b, v)
  {
    StepKeeps(s, k);
    if k.t < |s.th| {
      var pc := s.th[k.t].pc;
      if pc.Popping? || Filling(pc) { PinAtAlloc(s, k.t, b, v); }
      else if AtFree(pc) { PinAtFree(s, k.t, b, v); }
      else if pc.Idle? || pc.Done? || pc.SwapSlot? || pc.Unlink? || Reading(pc) { PinAtOther(s, k, b, v); }
      else if pc.LoadSlot? || pc.CkHash? || pc.CkVer? || pc.CkLen? { PinAtCheck(s, k.t, b, v); }
      else { PinAtCompare(s, k.t, b, v); }
    }
  }

  ghost function From(s: State, sched: seq<Tick>): (s': State)
    requires Inv(s)
    ensures Inv(s')
  {
    if sched == [] then s
    else
      var u := From(s, sched[..|sched| - 1]);
      StepKeeps(u, sched[|sched| - 1]);
      Step(u, sched[|sched| - 1])
  }

  /** After a get whose buffer was too small, the block of the list it looked at never comes back: in no
      continuation does it return to the free list or serve another list. */
  lemma {:induction false} PinnedForever(s: State, sched: seq<Tick>, b: nat, v: nat)
    requires Inv(s) && Pinned(s, b, v)
    ensures Pinned(From(s, sched), b, v) && b !in From(s, sched).fl.list
  {
    if sched != [] {
      PinnedForever(s, sched[..|sched| - 1], b, v);
      PinStep(From(s, sched[..|sched| - 1]), sched[|sched| - 1], b, v);
    }
    var s' := From(s, sched);
    assert BlockOk(s', b) && FL.PlaceOk(s'.fl, b) && s'.fl.place[b] == Below(s', b);
  }

  /** The step that does it. */
  lemma TooSmallPins(s: State, k: Tick)
    requires Inv(s) && k.t < |s.th| && s.th[k.t].pc.GetInc? && s.th[k.t].pc.vi.ver != 0
    requires Step(s, k).th[k.t].pc == Done(TooBig)
    ensures Shape(Step(s, k)) && Pinned(Step(s, k), s.th[k.t].pc.vi.idx, s.th[k.t].pc.vi.ver)
  {
    StepKeeps(s, k);
  }

  // ---------------------------------------------------------------- a put that gave up

  predicate Stray(s: State, b: nat, v: nat)
    requires Shape(s)
  {
    b < |s.place| && s.place[b] == Lost(v)
  }

  lemma StrayAtAlloc(s: State, t: nat, b: nat, v: nat)
    requires Inv(s) && Stray(s, b, v) && t < |s.th| && (s.th[t].pc.Popping? || Filling(s.th[t].pc))
    requires Shape(AllocStep(s, t))
    ensures Stray(AllocStep(s, t), b, v)
  {
    assert PcOk(s, t) && FlPcOk(s, t) && s.fl.place[b] == Below(s, b);
    if s.th[t].pc.Popping? && s.fl.pcs[t].PopLinked? && s.fl.head == s.fl.pcs[t].cur {
      FL.PopWinInv(s.fl, t);
      assert FL.PlaceOk(s.fl, s.fl.head.idx) && s.fl.list[0] in s.fl.list;
    }
  }

  lemma StrayAtSwap(s: State, t: nat, b: nat, v: nat)
    requires Inv(s) && Stray(s, b, v) && t < |s.th| && (s.th[t].pc.SwapSlot? || s.th[t].pc.Unlink?)
    requires Shape(SwapStep(s, t))
    ensures Stray(SwapStep(s, t), b, v)
  {
    var pc := s.th[t].pc;
    assert PcOk(s, t) && ThreadShape(s.bs, |s.bls|, s.th[t]);
    if pc.SwapSlot? { assert SlotOk(s, pc.i); }
  }

  lemma StrayAtFree(s: State, t: nat, b: nat, v: nat)
    requires Inv(s) && Stray(s, b, v) && t < |s.th| && AtFree(s.th[t].pc)
    requires Shape(FreeStep(s, t))
    ensures Stray(FreeStep(s, t), b, v)
  {
    assert PcOk(s, t);
  }

  lemma StrayAtRead(s: State, t: nat, b: nat, v: nat)
    requires Inv(s) && Stray(s, b, v) && t < |s.th|
    requires var pc := s.th[t].pc; pc.GetInc? || pc.RdInc? || pc.RdCopy? || pc.RdDec? || pc.GetDec?
    requires Shape(ReadStep(s, t))
    ensures Stray(ReadStep(s, t), b, v)
  {
    var pc := s.th[t].pc;
    assert PcOk(s, t);
    if Holds(pc, pc.vi) > 0 { HeldIsShared(s, t, pc.vi); assert BlockOk(s, pc.vi.idx); }
  }

  lemma StrayAtProbe(s: State, t: nat, b: nat, v: nat)
    requires Inv(s) && Stray(s, b, v) && t < |s.th|
    requires var pc := s.th[t].pc;
      pc.LoadSlot? || pc.CkHash? || pc.CkVer? || pc.CkLen? || pc.CmpInc? || pc.CmpRead?
    requires Shape(ProbeStep(s, t))
    ensures Stray(ProbeStep(s, t), b, v)
  {
    assert PcOk(s, t);
    ProbePlaces(s, t);
  }

  lemma StrayAtDrop(s: State, t: nat, b: nat, v: nat)
    requires Inv(s) && Stray(s, b, v) && t < |s.th| && s.th[t].pc.CmpDec?
    requires Shape(ProbeStep(s, t))
    ensures Stray(ProbeStep(s, t), b, v)
  {
    var vi := s.th[t].pc.vi;
    assert PcOk(s, t) && ThreadShape(s.bs, |s.bls|, s.th[t]);
    HeldIsShared(s, t, vi);
    assert BlockOk(s, vi.idx);
  }

  lemma StrayStep(s: State, k: Tick, b: nat, v: nat)
    requires Inv(s) && Stray(s, b, v)
    ensures Inv(Step(s, k)) && Stray(Step(s, k), b, v)
  {
    StepKeeps(s, k);
    if k.t < |s.th| {
      var pc := s.th[k.t].pc;
      if pc.Popping? || Filling(pc) { StrayAtAlloc(s, k.t, b, v); }
      else if pc.SwapSlot? || pc.Unlink? { StrayAtSwap(s, k.t, b, v); }
      else if AtFree(pc) { StrayAtFree(s, k.t, b, v); }
      else if pc.GetInc? || pc.RdInc? || pc.RdCopy? || pc.RdDec? || pc.GetDec? { StrayAtRead(s, k.t, b, v); }
      else if pc.CmpDec? { StrayAtDrop(s, k.t, b, v); }
      else if !pc.Idle? && !pc.Done? { StrayAtProbe(s, k.t, b, v); }
    }
  }

  /** The list of a put that gave up is in no slot and never will be, and its block never comes back. */
  lemma {:induction false} LostForever(s: State, sched: seq<Tick>, b: nat, v: nat)
    requires Inv(s) && Stray(s, b, v)
    ensures Stray(From(s, sched), b, v) && b !in From(s, sched).fl.list && v !in From(s, sched).pub
  {
    if sched != [] {
      LostForever(s, sched[..|sched| - 1], b, v);
      StrayStep(From(s, sched[..|sched| - 1]), sched[|sched| - 1], b, v);
    }
    var s' := From(s, sched);
    assert BlockOk(s', b) && FL.PlaceOk(s'.fl, b) && s'.fl.place[b] == Below(s', b);
  }
}
