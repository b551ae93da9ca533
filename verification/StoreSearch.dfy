/** A put looking for a slot: what each of its steps does, how far it has come, and what it leaves behind. */
module StoreSearch {
  import opened Options
  import Circle
  import opened Handles
  import opened StoreSteps
  import opened StoreInvariant
  import opened StoreProbe
  import opened StoreAlloc
  import opened StoreRuns
  import opened StorePins

  /** The slot a probe stands at, and the live handle it found there, if it has loaded one. */
  datatype Spot = Spot(i: nat, seen: Option<VerIdx>)

  function Where(pc: Pc): Option<Spot> {
    match pc
    case LoadSlot(i) => Some(Spot(i, None))
    case CkHash(i, vi) => Some(Spot(i, Some(vi)))
    case CkVer(i, vi) => Some(Spot(i, Some(vi)))
    case CkLen(i, vi) => Some(Spot(i, Some(vi)))
    case CmpInc(i, vi) => Some(Spot(i, Some(vi)))
    case CmpRead(i, vi) => Some(Spot(i, Some(vi)))
    case CmpDec(i, vi, _) => Some(Spot(i, Some(vi)))
    case SwapSlot(i, vi) => Some(Spot(i, if Live(vi) then Some(vi) else None))
    case Clear(_, k) => WhereTo(k)
    case ToPush(_, k) => WhereTo(k)
    case Pushing(_, k) => WhereTo(k)
    case _ => None
  }

  function WhereTo(k: Then): Option<Spot> { if k.Probe? then Some(Spot(k.i, None)) else None }

  /** The put has given up, or frees a list it was the last to read before it returns. */
  predicate GivenUp(pc: Pc) {
    pc == Done(GaveUp) || (AtFree(pc) && pc.k == Return(GaveUp))
  }

  predicate Settled(pc: Pc) {
    pc == Done(Stored) || pc.Unlink? || (AtFree(pc) && pc.k == Return(Stored))
  }

  /** From its first look at a slot until it returns. */
  predicate Searching(th: Thread) {
    th.job.Put? && (Where(th.pc).Some? || GivenUp(th.pc) || Settled(th.pc))
  }

  // ---------------------------------------------------------------- the steps of a search

  /** It stays at its slot; a live handle it holds there is the one it had or the one it loads. */
  predicate Stays(s: State, s': State, t: nat)
    requires t < |s.th| == |s'.th|
  {
    var a, b := Where(s.th[t].pc), Where(s'.th[t].pc);
    && a.Some? && b.Some? && a.value.i == b.value.i && s'.slots == s.slots
    && (b.value.seen.Some? ==>
          || b.value.seen == a.value.seen
          || (a.value.i < |s.slots| && Live(s.slots[a.value.i]) && b.value.seen == Some(s.slots[a.value.i])))
  }

  /** It leaves a slot whose live list did not match, for the next one, or for good after the last. */
  predicate Passes(s: State, s': State, t: nat)
    requires t < |s.th| == |s'.th| && 0 < |s.bls|
  {
    var a, n := Where(s.th[t].pc), |s.bls|;
    && a.Some? && a.value.seen.Some? && s'.slots == s.slots && !Settled(s'.th[t].pc)
    && if a.value.i == EndIdx(n, s.th[t].job) then Where(s'.th[t].pc) == None && GivenUp(s'.th[t].pc)
       else Where(s'.th[t].pc) == Some(Spot(Circle.Next(n, a.value.i), None)) && !GivenUp(s'.th[t].pc)
  }

  /** It takes its slot. */
  predicate Takes(s: State, s': State, t: nat)
    requires t < |s.th| == |s'.th|
  {
    var pc := s.th[t].pc;
    && pc.SwapSlot? && pc.i < |s.slots| && s.slots[pc.i] == pc.vi && s'.slots == s.slots[pc.i := s.th[t].mine]
    && Settled(s'.th[t].pc) && Where(s'.th[t].pc) == None && !GivenUp(s'.th[t].pc)
  }

  /** It is on its way out. */
  predicate Leaves(s: State, s': State, t: nat)
    requires t < |s.th| == |s'.th|
  {
    var pc, pc' := s.th[t].pc, s'.th[t].pc;
    && Where(pc) == None && Where(pc') == None && s'.slots == s.slots
    && (GivenUp(pc') <==> GivenUp(pc)) && (Settled(pc') <==> Settled(pc))
  }

  predicate Moves(s: State, s': State, t: nat)
    requires t < |s.th| == |s'.th| && 0 < |s.bls|
  {
    && s'.th[t].job == s.th[t].job && s'.th[t].mine == s.th[t].mine
    && (Stays(s, s', t) || Passes(s, s', t) || Takes(s, s', t) || Leaves(s, s', t))
  }

  lemma LookMoves(s: State, t: nat)
    requires Shape(s) && t < |s.th| && s.th[t].job.Put?
    requires var pc := s.th[t].pc; pc.LoadSlot? || pc.CkHash? || pc.CkVer? || pc.CkLen?
    ensures |ProbeStep(s, t).th| == |s.th| && Moves(s, ProbeStep(s, t), t)
  {
    assert ThreadShape(s.bs, |s.bls|, s.th[t]);
  }

  lemma CompareMoves(s: State, t: nat)
    requires Shape(s) && t < |s.th| && s.th[t].job.Put?
    requires var pc := s.th[t].pc; pc.CmpInc? || pc.CmpRead?
    ensures |ProbeStep(s, t).th| == |s.th| && Moves(s, ProbeStep(s, t), t)
  {
    assert ThreadShape(s.bs, |s.bls|, s.th[t]);
  }

  lemma LastDropMoves(s: State, t: nat)
    requires Shape(s) && t < |s.th| && s.th[t].job.Put? && s.th[t].pc.CmpDec?
    requires var vi := s.th[t].pc.vi; vi.idx < |s.bls| && LastOut(s.bls[vi.idx], vi.ver)
    ensures |ProbeStep(s, t).th| == |s.th| && Moves(s, ProbeStep(s, t), t)
  {
    assert ThreadShape(s.bs, |s.bls|, s.th[t]);
  }

  lemma DropMoves(s: State, t: nat)
    requires Shape(s) && t < |s.th| && s.th[t].job.Put? && s.th[t].pc.CmpDec? && Live(s.th[t].pc.vi)
    ensures |ProbeStep(s, t).th| == |s.th| && Moves(s, ProbeStep(s, t), t)
  {
    assert ThreadShape(s.bs, |s.bls|, s.th[t]);
    if LastOut(s.bls[s.th[t].pc.vi.idx], s.th[t].pc.vi.ver) { LastDropMoves(s, t); }
  }

  lemma SwapMoves(s: State, t: nat)
    requires Shape(s) && t < |s.th| && s.th[t].job.Put? && (s.th[t].pc.SwapSlot? || s.th[t].pc.Unlink?)
    ensures |SwapStep(s, t).th| == |s.th| && Moves(s, SwapStep(s, t), t)
  {
    assert ThreadShape(s.bs, |s.bls|, s.th[t]);
  }

  lemma FreeMoves(s: State, t: nat)
    requires Shape(s) && t < |s.th| && AtFree(s.th[t].pc)
    ensures |FreeStep(s, t).th| == |s.th| && Moves(s, FreeStep(s, t), t)
  {
    assert ThreadShape(s.bs, |s.bls|, s.th[t]);
  }

  /** Every step of a searching put, up to its return, is one of these. */
  lemma SearchMoves(s: State, k: Tick)
    requires Inv(s) && k.t < |s.th| && Searching(s.th[k.t]) && !s.th[k.t].pc.Done?
    ensures |Step(s, k).th| == |s.th| && Moves(s, Step(s, k), k.t)
  {
    var t, pc := k.t, s.th[k.t].pc;
    if AtFree(pc) { FreeMoves(s, t); }
    else if pc.SwapSlot? || pc.Unlink? { SwapMoves(s, t); }
    else if pc.CmpDec? { KnownIsLive(s, t); DropMoves(s, t); }
    else if pc.CmpInc? || pc.CmpRead? { CompareMoves(s, t); }
    else { LookMoves(s, t); }
  }

  lemma KnownIsLive(s: State, t: nat)
    requires Inv(s) && t < |s.th| && s.th[t].pc.CmpDec?
    ensures Live(s.th[t].pc.vi)
  {
    assert ThreadShape(s.bs, |s.bls|, s.th[t]);
  }

  /** A search begins at the home of its key, right after the bytes were copied. */
  lemma SearchBegins(s: State, k: Tick, t: nat)
    requires Inv(s) && t < |s.th| && Shape(Step(s, k)) && |Step(s, k).th| == |s.th|
    requires !Searching(s.th[t]) && Searching(Step(s, k).th[t])
    ensures k.t == t && s.th[t].pc.Titled? && Step(s, k).slots == s.slots
    ensures Where(Step(s, k).th[t].pc) == Some(Spot(Home(|s.bls|, Step(s, k).th[t].job), None))
    ensures !GivenUp(Step(s, k).th[t].pc)
  {
    var pc := s.th[t].pc;
    if k.t != t {
      OthersStay(s, k, t);
    } else if pc.Idle? || pc.Done? || pc.Popping? || pc.Popped? || pc.Numbered? || pc.Recorded? || pc.Titled? {
      BeginsAlloc(s, k);
    } else {
      BeginsOther(s, k);
    }
  }

  lemma BeginsAlloc(s: State, k: Tick)
    requires Shape(s) && k.t < |s.th| && !Searching(s.th[k.t]) && Shape(Step(s, k)) && |Step(s, k).th| == |s.th|
    requires var pc := s.th[k.t].pc;
      pc.Idle? || pc.Done? || pc.Popping? || pc.Popped? || pc.Numbered? || pc.Recorded? || pc.Titled?
    ensures Searching(Step(s, k).th[k.t]) ==>
      && s.th[k.t].pc.Titled? && Step(s, k).slots == s.slots
      && Where(Step(s, k).th[k.t].pc) == Some(Spot(Home(|s.bls|, Step(s, k).th[k.t].job), None))
    ensures !GivenUp(Step(s, k).th[k.t].pc)
  {
    assert ThreadShape(s.bs, |s.bls|, s.th[k.t]);
    if !s.th[k.t].pc.Idle? && !s.th[k.t].pc.Done? { BeginsFilling(s, k.t); }
  }

  lemma BeginsFilling(s: State, t: nat)
    requires Shape(s) && t < |s.th| && (s.th[t].pc.Popping? || Filling(s.th[t].pc))
    ensures |AllocStep(s, t).th| == |s.th| && AllocStep(s, t).slots == s.slots && !GivenUp(AllocStep(s, t).th[t].pc)
    ensures Searching(AllocStep(s, t).th[t]) ==>
      && s.th[t].pc.Titled?
      && Where(AllocStep(s, t).th[t].pc) == Some(Spot(Home(|s.bls|, AllocStep(s, t).th[t].job), None))
  {
    assert ThreadShape(s.bs, |s.bls|, s.th[t]);
  }

  lemma BeginsProbe(s: State, t: nat)
    requires Shape(s) && t < |s.th| && !s.th[t].job.Put?
    requires var pc := s.th[t].pc;
      pc.LoadSlot? || pc.CkHash? || pc.CkVer? || pc.CkLen? || pc.CmpInc? || pc.CmpRead? || pc.CmpDec?
    ensures var s' := ProbeStep(s, t);
      |s'.th| == |s.th| && s'.th[t].job == s.th[t].job && !GivenUp(s'.th[t].pc)
  {
    assert ThreadShape(s.bs, |s.bls|, s.th[t]);
    NextSlotIsStep(|s.bls|, s.th[t].job, s.th[t].pc.i);
  }

  lemma BeginsRead(s: State, t: nat)
    requires Shape(s) && t < |s.th| && Reading(s.th[t].pc)
    ensures var s' := ReadStep(s, t);
      |s'.th| == |s.th| && !Searching(s'.th[t]) && !GivenUp(s'.th[t].pc)
  {
    assert ThreadShape(s.bs, |s.bls|, s.th[t]);
  }

  lemma BeginsSwap(s: State, t: nat)
    requires Shape(s) && t < |s.th| && !s.th[t].job.Put? && (s.th[t].pc.SwapSlot? || s.th[t].pc.Unlink?)
    ensures var s' := SwapStep(s, t);
      |s'.th| == |s.th| && s'.th[t].job == s.th[t].job && !GivenUp(s'.th[t].pc)
  {
    assert ThreadShape(s.bs, |s.bls|, s.th[t]);
  }

  lemma BeginsOther(s: State, k: Tick)
    requires Inv(s) && k.t < |s.th| && !Searching(s.th[k.t]) && Shape(Step(s, k)) && |Step(s, k).th| == |s.th|
    requires var pc := s.th[k.t].pc;
      !(pc.Idle? || pc.Done? || pc.Popping? || pc.Popped? || pc.Numbered? || pc.Recorded? || pc.Titled?)
    ensures !Searching(Step(s, k).th[k.t])
    ensures GivenUp(Step(s, k).th[k.t].pc) ==> GivenUp(s.th[k.t].pc)
  {
    var pc := s.th[k.t].pc;
    if Reading(pc) { BeginsRead(s, k.t); }
    else if AtFree(pc) { FreeMoves(s, k.t); }
    else if pc.SwapSlot? || pc.Unlink? { BeginsSwap(s, k.t); }
    else { BeginsProbe(s, k.t); }
  }

  // ---------------------------------------------------------------- giving up

  predicate Abandons(s: State, vi: VerIdx) {
    vi.idx < |s.place| && s.place[vi.idx] == Lost(vi.ver)
  }

  lemma GivingUpAtLook(s: State, t: nat)
    requires Shape(s) && t < |s.th| && s.th[t].job.Put?
    requires var pc := s.th[t].pc; pc.LoadSlot? || pc.CkHash? || pc.CkVer? || pc.CkLen? || pc.CmpInc? || pc.CmpRead?
    ensures var s' := ProbeStep(s, t);
      t < |s'.th| && (GivenUp(s'.th[t].pc) ==> Abandons(s', s.th[t].mine))
  {
    assert ThreadShape(s.bs, |s.bls|, s.th[t]);
  }

  lemma GivingUpAtDrop(s: State, t: nat)
    requires Shape(s) && t < |s.th| && s.th[t].job.Put? && s.th[t].pc.CmpDec? && s.th[t].pc.vi.idx != s.th[t].mine.idx
    ensures var s' := ProbeStep(s, t);
      t < |s'.th| && (GivenUp(s'.th[t].pc) ==> Abandons(s', s.th[t].mine))
  {
    assert ThreadShape(s.bs, |s.bls|, s.th[t]);
  }

  lemma HeldIsNotMine(s: State, t: nat)
    requires Inv(s) && t < |s.th| && s.th[t].job.Put? && s.th[t].pc.CmpDec?
    ensures s.th[t].pc.vi.idx != s.th[t].mine.idx
  {
    assert PcOk(s, t);
    HeldIsShared(s, t, s.th[t].pc.vi);
  }

  lemma NoGivingUpAtExit(s: State, t: nat)
    requires Shape(s) && t < |s.th| && s.th[t].job.Put? && !GivenUp(s.th[t].pc)
    requires var pc := s.th[t].pc; AtFree(pc) || pc.SwapSlot? || pc.Unlink?
    ensures var s' := if AtFree(s.th[t].pc) then FreeStep(s, t) else SwapStep(s, t);
      t < |s'.th| && !GivenUp(s'.th[t].pc)
  {
    if AtFree(s.th[t].pc) { FreeMoves(s, t); } else { SwapMoves(s, t); }
  }

  /** Whichever step makes a put give up, or begins a free on the way to it: its list is lost from then on. */
  lemma GivingUpLoses(s: State, k: Tick)
    requires Inv(s) && k.t < |s.th| && Shape(Step(s, k)) && |Step(s, k).th| == |s.th|
    requires !GivenUp(s.th[k.t].pc) && GivenUp(Step(s, k).th[k.t].pc)
    ensures Searching(s.th[k.t]) && Abandons(Step(s, k), s.th[k.t].mine)
  {
    var t, pc := k.t, s.th[k.t].pc;
    assert ThreadShape(s.bs, |s.bls|, s.th[t]);
    if !Searching(s.th[t]) {
      NoGivingUpOutside(s, k);
    } else if pc.Done? {
      assert false;
    } else if AtFree(pc) || pc.SwapSlot? || pc.Unlink? {
      NoGivingUpAtExit(s, t);
    } else if pc.CmpDec? {
      HeldIsNotMine(s, t);
      GivingUpAtDrop(s, t);
    } else {
      GivingUpAtLook(s, t);
    }
  }

  lemma NoGivingUpOutside(s: State, k: Tick)
    requires Inv(s) && k.t < |s.th| && !Searching(s.th[k.t]) && Shape(Step(s, k)) && |Step(s, k).th| == |s.th|
    ensures GivenUp(Step(s, k).th[k.t].pc) ==> GivenUp(s.th[k.t].pc)
  {
    var pc := s.th[k.t].pc;
    if pc.Idle? || pc.Done? || pc.Popping? || pc.Popped? || pc.Numbered? || pc.Recorded? || pc.Titled? {
      BeginsAlloc(s, k);
    } else {
      BeginsOther(s, k);
    }
  }

  // ---------------------------------------------------------------- what was passed, and why

  /** The list vi is live, not marked deleted, and stored under the key and hash of this job. */
  predicate Stores(s: State, vi: VerIdx, job: Job) {
    && Current(s, vi) && !s.bls[vi.idx].deleted
    && vi.ver in s.incs && s.incs[vi.ver].key == job.key && s.incs[vi.ver].hash == job.hash
  }

  /** A comparison that failed compared different keys. */
  predicate Compared(s: State, t: nat)
    requires t < |s.th|
  {
    var pc := s.th[t].pc;
    pc.CmpDec? && !pc.eq ==> pc.vi.ver in s.incs && s.incs[pc.vi.ver].key != s.th[t].job.key
  }

  lemma CompareTells(s: State, t: nat)
    requires Inv(s) && t < |s.th| && s.th[t].pc.CmpRead?
    ensures |ProbeStep(s, t).th| == |s.th| && Compared(ProbeStep(s, t), t)
  {
    var vi := s.th[t].pc.vi;
    assert PcOk(s, t) && ThreadShape(s.bs, |s.bls|, s.th[t]);
    HeldIsShared(s, t, vi);
    var inc, d := s.incs[vi.ver], s.dat[vi.idx];
    assert d[..|inc.key| + |inc.val|][..|inc.key|] == inc.key;
    assert d[..|inc.key|] == d[..|inc.key| + |inc.val|][..|inc.key|];
  }

  predicate Checking(pc: Pc) { pc.CkHash? || pc.CkVer? || pc.CkLen? || pc.CmpInc? || pc.CmpDec? }

  /** The next step of thread t finds that the list it looks at does not match, or is gone. */
  predicate Fails(s: State, t: nat)
    requires t < |s.th| && Checking(s.th[t].pc) && s.th[t].pc.vi.idx < |s.bls|
  {
    var r, job := s.bls[s.th[t].pc.vi.idx], s.th[t].job;
    match s.th[t].pc
    case CkHash(_, vi) => r.hash != job.hash
    case CkVer(_, vi) => r.version != vi.ver
    case CkLen(_, vi) => r.klen != |job.key|
    case CmpInc(_, vi) => !Admits(r, vi.ver) || r.len == 0
    case CmpDec(_, vi, eq) => LastOut(r, vi.ver) || r.version != vi.ver || !eq
  }

  lemma CheckTells(s: State, t: nat)
    requires Inv(s) && t < |s.th| && ThreadShape(s.bs, |s.bls|, s.th[t])
    requires var pc := s.th[t].pc; (pc.CkHash? || pc.CkVer? || pc.CkLen?) && Fails(s, t)
    ensures !Stores(s, s.th[t].pc.vi, s.th[t].job)
  {
    var vi := s.th[t].pc.vi;
    assert PcOk(s, t);
    if Current(s, vi) { CurrentIsFilled(s, vi); }
  }

  lemma TakingTells(s: State, t: nat)
    requires Inv(s) && t < |s.th| && ThreadShape(s.bs, |s.bls|, s.th[t]) && s.th[t].pc.CmpInc? && Fails(s, t)
    ensures !Stores(s, s.th[t].pc.vi, s.th[t].job)
  {
    var vi := s.th[t].pc.vi;
    assert PcOk(s, t);
    if Current(s, vi) { CurrentIsFilled(s, vi); KnownIsNumbered(s, vi); assert ReadersOk(s, vi.idx); }
  }

  /** Whatever check fails, the list does not, or no longer, store the key. */
  lemma FailingTells(s: State, t: nat)
    requires Inv(s) && t < |s.th| && Compared(s, t) && ThreadShape(s.bs, |s.bls|, s.th[t])
    requires Checking(s.th[t].pc) && Fails(s, t)
    ensures !Stores(s, s.th[t].pc.vi, s.th[t].job)
  {
    var pc := s.th[t].pc;
    if pc.CmpInc? { TakingTells(s, t); } else if !pc.CmpDec? { CheckTells(s, t); }
  }

  /** A put passes a slot only when the list it found there does not, or no longer, store its key. */
  lemma PassesOnMismatch(s: State, k: Tick)
    requires Inv(s) && k.t < |s.th| && Shape(Step(s, k)) && |Step(s, k).th| == |s.th| && Passes(s, Step(s, k), k.t)
    requires Searching(s.th[k.t]) && !s.th[k.t].pc.Done? && Compared(s, k.t)
    ensures Live(Where(s.th[k.t].pc).value.seen.value)
    ensures !Stores(s, Where(s.th[k.t].pc).value.seen.value, s.th[k.t].job)
  {
    PassesFrom(s, Step(s, k), k.t);
    var pc := s.th[k.t].pc;
    if pc.CmpRead? || pc.SwapSlot? {
      NeverPasses(s, k);
    } else {
      ProbeIsStep(s, k);
      PassesFails(s, k.t);
      FailingTells(s, k.t);
    }
  }

  lemma PassesFrom(s: State, s': State, t: nat)
    requires t < |s.th| == |s'.th| && 0 < |s.bls| && Passes(s, s', t)
    ensures var pc := s.th[t].pc;
      (Checking(pc) || pc.CmpRead? || pc.SwapSlot?) && Where(pc).value.seen == Some(pc.vi)
  {
  }

  lemma ProbeIsStep(s: State, k: Tick)
    requires Shape(s) && k.t < |s.th| && Checking(s.th[k.t].pc)
    ensures Step(s, k) == ProbeStep(s, k.t)
  {
  }

  lemma PassesFails(s: State, t: nat)
    requires Shape(s) && t < |s.th| && Checking(s.th[t].pc)
    requires |ProbeStep(s, t).th| == |s.th| && Passes(s, ProbeStep(s, t), t)
    ensures ThreadShape(s.bs, |s.bls|, s.th[t]) && s.th[t].pc.vi.idx < |s.bls| && Fails(s, t)
  {
    assert ThreadShape(s.bs, |s.bls|, s.th[t]);
  }

  lemma NeverPasses(s: State, k: Tick)
    requires Shape(s) && k.t < |s.th| && Shape(Step(s, k)) && |Step(s, k).th| == |s.th|
    requires s.th[k.t].pc.CmpRead? || s.th[k.t].pc.SwapSlot?
    ensures !Passes(s, Step(s, k), k.t)
  {
    assert ThreadShape(s.bs, |s.bls|, s.th[k.t]);
  }
}
