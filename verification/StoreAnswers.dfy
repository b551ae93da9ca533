/** What each answer of a call tells: in every run, at some step of the call that gives it, what it says was so. */
module StoreAnswers {
  import opened Bytes
  import Circle
  import opened Chains
  import opened Handles
  import opened StoreSteps
  import opened StoreInvariant
  import opened StoreProbe
  import opened StoreAlloc
  import opened StoreRuns
  import opened StoreFresh
  import opened StorePins
  import opened StoreSearch
  import opened StorePaths
  import opened StoreVain
  import opened StoreMiss

  // ---------------------------------------------------------------- a moment of the call

  /** Step p is one that p describes, and thread t has been inside one call since. */
  ghost predicate StepAt(
    bs: nat, dat: seq<Str>, threads: nat, sched: seq<Tick>, t: nat, P: (State, Tick) -> bool, p: nat)
    requires WellSized(bs, dat)
  {
    && p < |sched| && P(Run(bs, dat, threads, sched[..p]), sched[p])
    && forall q | p < q < |sched| :: BusyAt(bs, dat, threads, sched[..q], t)
  }

  /** Whenever a step leads to a claim, it is described by P, or the claim was there and thread t was in its call. */
  ghost predicate Claims(t: nat, A: State -> bool, P: (State, Tick) -> bool) {
    forall s, k {:trigger Step(s, k)} | SearchInv(s) && t < |s.th| && SearchInv(Step(s, k)) && A(Step(s, k)) ::
      P(s, k) || (A(s) && Busy(s, t))
  }

  lemma StepLater(
    bs: nat, dat: seq<Str>, threads: nat, sched: seq<Tick>, t: nat, P: (State, Tick) -> bool, p: nat)
    requires WellSized(bs, dat) && sched != [] && StepAt(bs, dat, threads, sched[..|sched| - 1], t, P, p)
    requires BusyAt(bs, dat, threads, sched[..|sched| - 1], t)
    ensures StepAt(bs, dat, threads, sched, t, P, p)
  {
    assert sched[..p] == sched[..|sched| - 1][..p];
    forall q | p < q < |sched| ensures BusyAt(bs, dat, threads, sched[..q], t) {
      BusyOn(bs, dat, threads, sched, t, p, q);
    }
  }

  ghost predicate HoldsAt(bs: nat, dat: seq<Str>, threads: nat, sched: seq<Tick>, A: State -> bool)
    requires WellSized(bs, dat)
  {
    A(Run(bs, dat, threads, sched))
  }

  ghost predicate StepIs(bs: nat, dat: seq<Str>, threads: nat, sched: seq<Tick>, P: (State, Tick) -> bool)
    requires WellSized(bs, dat)
  {
    sched != [] && P(Run(bs, dat, threads, sched[..|sched| - 1]), sched[|sched| - 1])
  }

  lemma StepNow(bs: nat, dat: seq<Str>, threads: nat, sched: seq<Tick>, t: nat, P: (State, Tick) -> bool)
    requires WellSized(bs, dat) && StepIs(bs, dat, threads, sched, P)
    ensures StepAt(bs, dat, threads, sched, t, P, |sched| - 1)
  {
  }

  /** A claim goes back to such a step in the same call. */
  lemma {:induction false} Traced(
    bs: nat, dat: seq<Str>, threads: nat, sched: seq<Tick>, t: nat, A: State -> bool, P: (State, Tick) -> bool)
    returns (p: nat)
    requires WellSized(bs, dat) && t < threads && Claims(t, A, P) && !A(Init(bs, dat, threads))
    requires HoldsAt(bs, dat, threads, sched, A)
    ensures StepAt(bs, dat, threads, sched, t, P, p)
  {
    ClaimStep(bs, dat, threads, sched, t, A, P);
    if StepIs(bs, dat, threads, sched, P) {
      p := |sched| - 1;
      StepNow(bs, dat, threads, sched, t, P);
    } else {
      p := Traced(bs, dat, threads, sched[..|sched| - 1], t, A, P);
      StepLater(bs, dat, threads, sched, t, P, p);
    }
  }

  lemma ClaimStep(
    bs: nat, dat: seq<Str>, threads: nat, sched: seq<Tick>, t: nat, A: State -> bool, P: (State, Tick) -> bool)
    requires WellSized(bs, dat) && t < threads && Claims(t, A, P) && !A(Init(bs, dat, threads))
    requires HoldsAt(bs, dat, threads, sched, A)
    ensures sched != []
    ensures StepIs(bs, dat, threads, sched, P)
      || (HoldsAt(bs, dat, threads, sched[..|sched| - 1], A) && BusyAt(bs, dat, threads, sched[..|sched| - 1], t))
  {
    if sched != [] {
      var rest, k := sched[..|sched| - 1], sched[|sched| - 1];
      RunSearches(bs, dat, threads, rest);
      RunSearches(bs, dat, threads, sched);
      RunSizes(bs, dat, threads, rest);
      assert Step(Run(bs, dat, threads, rest), k) == Run(bs, dat, threads, sched);
    }
  }

  // ---------------------------------------------------------------- where answers come from

  /** The call has this answer, or frees a list it was the last to read before it gives it. */
  predicate Says(s: State, t: nat, r: Result) {
    && t < |s.th|
    && var pc := s.th[t].pc;
    pc == Done(r) || (AtFree(pc) && pc.k == Return(r))
  }

  predicate Looking(pc: Pc) { pc.LoadSlot? || pc.CmpRead? || Checking(pc) }

  /** The points at which a call decides on its answer. */
  predicate Decides(s: State, t: nat, r: Result) {
    && t < |s.th| == |s.fl.pcs|
    && var th, pc := s.th[t], s.th[t].pc;
    || (pc.Idle? && r == Miss)
    || (pc.Popping? && r == OutOfBlocks && s.fl.pcs[t].PopLoaded? && s.fl.pcs[t].cur.idx == LIST_END)
    || (Looking(pc) && r == if th.job.Put? then GaveUp else Miss)
    || (pc.SwapSlot? && r == Stored && th.job.Put? && pc.i < |s.slots| && s.slots[pc.i] == pc.vi)
    || (pc.Unlink? && r == if th.job.Put? then Stored else Removed)
    || (pc.GetInc? && pc.vi.idx < |s.bls| && GetDecides(s.bls[pc.vi.idx], pc.vi.ver, th.job, r))
    || (pc.GetDec? && r == if pc.out == [] then Vanished else Hit(pc.out))
  }

  predicate GetDecides(rec: Rec, ver: nat, job: Job, r: Result) {
    && job.Get?
    && if !Admits(rec, ver) then r == Vanished else r == TooBig && (rec.len == 0 || rec.len - rec.klen > job.maxlen)
  }

  lemma StartDecides(s: State, k: Tick, r: Result)
    requires Shape(s) && k.t < |s.th| && Says(Step(s, k), k.t, r) && (s.th[k.t].pc.Idle? || s.th[k.t].pc.Done?)
    ensures Decides(s, k.t, r)
  {
  }

  lemma AllocDecides(s: State, t: nat, r: Result)
    requires Shape(s) && t < |s.th| && (s.th[t].pc.Popping? || Filling(s.th[t].pc)) && Says(AllocStep(s, t), t, r)
    ensures Decides(s, t, r)
  {
    assert ThreadShape(s.bs, |s.bls|, s.th[t]);
  }

  lemma LookDecides(s: State, t: nat, r: Result)
    requires Shape(s) && t < |s.th| && Looking(s.th[t].pc) && Says(ProbeStep(s, t), t, r)
    ensures Decides(s, t, r)
  {
    var pc := s.th[t].pc;
    if pc.LoadSlot? || pc.CkHash? || pc.CkVer? || pc.CkLen? { CheckDecides(s, t, r); } else { CompareDecides(s, t, r); }
  }

  lemma CheckDecides(s: State, t: nat, r: Result)
    requires Shape(s) && t < |s.th|
    requires var pc := s.th[t].pc; pc.LoadSlot? || pc.CkHash? || pc.CkVer? || pc.CkLen?
    requires Says(ProbeStep(s, t), t, r)
    ensures r == if s.th[t].job.Put? then GaveUp else Miss
  {
    assert ThreadShape(s.bs, |s.bls|, s.th[t]);
  }

  lemma CompareDecides(s: State, t: nat, r: Result)
    requires Shape(s) && t < |s.th|
    requires var pc := s.th[t].pc; pc.CmpInc? || pc.CmpRead? || pc.CmpDec?
    requires Says(ProbeStep(s, t), t, r)
    ensures r == if s.th[t].job.Put? then GaveUp else Miss
  {
    assert ThreadShape(s.bs, |s.bls|, s.th[t]);
  }

  lemma SwapDecides(s: State, t: nat, r: Result)
    requires Shape(s) && t < |s.th| && (s.th[t].pc.SwapSlot? || s.th[t].pc.Unlink?) && Says(SwapStep(s, t), t, r)
    ensures Decides(s, t, r)
  {
    if s.th[t].pc.Unlink? { UnlinkDecides(s, t, r); } else { SlotDecides(s, t, r); }
  }

  lemma UnlinkDecides(s: State, t: nat, r: Result)
    requires Shape(s) && t < |s.th| && s.th[t].pc.Unlink? && Says(SwapStep(s, t), t, r)
    ensures r == if s.th[t].job.Put? then Stored else Removed
  {
    assert ThreadShape(s.bs, |s.bls|, s.th[t]);
  }

  lemma SlotDecides(s: State, t: nat, r: Result)
    requires Shape(s) && t < |s.th| && s.th[t].pc.SwapSlot? && Says(SwapStep(s, t), t, r)
    ensures r == Stored && s.th[t].job.Put? && s.th[t].pc.i < |s.slots| && s.slots[s.th[t].pc.i] == s.th[t].pc.vi
  {
    assert ThreadShape(s.bs, |s.bls|, s.th[t]);
  }

  lemma ReadDecides(s: State, t: nat, r: Result)
    requires Shape(s) && t < |s.th| && Reading(s.th[t].pc) && Says(ReadStep(s, t), t, r)
    ensures Decides(s, t, r)
  {
    assert ThreadShape(s.bs, |s.bls|, s.th[t]);
    if s.th[t].pc.GetInc? { FirstDecides(s, t, r); } else { LastDecides(s, t, r); }
  }

  lemma FirstDecides(s: State, t: nat, r: Result)
    requires Shape(s) && t < |s.th| && s.th[t].pc.GetInc? && Says(ReadStep(s, t), t, r)
    ensures s.th[t].pc.vi.idx < |s.bls| && GetDecides(s.bls[s.th[t].pc.vi.idx], s.th[t].pc.vi.ver, s.th[t].job, r)
  {
    assert ThreadShape(s.bs, |s.bls|, s.th[t]);
  }

  lemma LastDecides(s: State, t: nat, r: Result)
    requires Shape(s) && t < |s.th| && Reading(s.th[t].pc) && !s.th[t].pc.GetInc? && Says(ReadStep(s, t), t, r)
    ensures s.th[t].pc.GetDec? && r == if s.th[t].pc.out == [] then Vanished else Hit(s.th[t].pc.out)
  {
    assert ThreadShape(s.bs, |s.bls|, s.th[t]);
  }

  lemma FreeDecides(s: State, t: nat, r: Result)
    requires Shape(s) && t < |s.th| && AtFree(s.th[t].pc) && Says(FreeStep(s, t), t, r)
    ensures Says(s, t, r)
  {
    assert ThreadShape(s.bs, |s.bls|, s.th[t]);
  }

  /** An answer is there before a step, or thread t decides on it with that step. */
  lemma AnswerStep(s: State, k: Tick, t: nat, r: Result)
    requires Inv(s) && Says(Step(s, k), t, r)
    ensures t < |s.th| && ((Says(s, t, r) && Busy(s, t)) || (k.t == t && Decides(s, t, r)))
    ensures |Step(s, k).th| == |s.th| && (!s.th[t].pc.Idle? ==> Step(s, k).th[t].job == s.th[t].job)
  {
    if k.t < |s.th| { StepCall(s, k, k.t); }
    if t < |s.th| && k.t != t { OthersStay(s, k, t); }
    if k.t == t {
      var pc := s.th[t].pc;
      if pc.Idle? || pc.Done? { StartDecides(s, k, r); }
      else if pc.Popping? || Filling(pc) { AllocDecides(s, t, r); }
      else if pc.SwapSlot? || pc.Unlink? { SwapDecides(s, t, r); }
      else if AtFree(pc) { FreeDecides(s, t, r); }
      else if Reading(pc) { ReadDecides(s, t, r); }
      else { LookDecides(s, t, r); }
    }
  }

  lemma NothingSaid(bs: nat, dat: seq<Str>, threads: nat, t: nat, r: Result)
    requires WellSized(bs, dat)
    ensures !Says(Init(bs, dat, threads), t, r)
  {
  }

  // ---------------------------------------------------------------- put: no block left

  /** A step of thread t itself, at a moment when no block is free. */
  function FindsEmpty(t: nat): (State, Tick) -> bool {
    (s: State, k: Tick) => k.t == t && s.fl.list == []
  }

  /** The put has loaded a head that names no block. */
  predicate HasEnd(s: State, t: nat) {
    && t < |s.th| == |s.fl.pcs| && s.th[t].pc.Popping?
    && s.fl.pcs[t].PopLoaded? && s.fl.pcs[t].cur.idx == LIST_END
  }

  lemma EndStep(s: State, k: Tick, t: nat)
    requires Inv(s) && t < |s.th| && HasEnd(Step(s, k), t)
    ensures (k.t == t && s.fl.list == []) || HasEnd(s, t)
  {
    if k.t != t {
      EndOther(s, k, t);
    } else {
      EndIsEmpty(s.fl.lv, s.fl.head.idx, s.fl.list);
      EndOwn(s, k);
    }
  }

  lemma EndOther(s: State, k: Tick, t: nat)
    requires Shape(s) && t < |s.th| && k.t != t && HasEnd(Step(s, k), t)
    ensures HasEnd(s, t)
  {
    OthersStay(s, k, t);
    OthersList(s, k, t);
  }

  lemma EndOwn(s: State, k: Tick)
    requires Shape(s) && k.t < |s.th| && HasEnd(Step(s, k), k.t) && (s.fl.head.idx == LIST_END <==> s.fl.list == [])
    ensures s.fl.list == [] || HasEnd(s, k.t)
  {
    var t, pc := k.t, s.th[k.t].pc;
    assert ThreadShape(s.bs, |s.bls|, s.th[t]);
    if pc.Popping? || Filling(pc) { EndAtAlloc(s, t); }
    else if !pc.Idle? && !pc.Done? { NotPopping(s, k); }
  }

  lemma EndAtAlloc(s: State, t: nat)
    requires Shape(s) && t < |s.th| && (s.th[t].pc.Popping? || Filling(s.th[t].pc)) && HasEnd(AllocStep(s, t), t)
    requires s.fl.head.idx == LIST_END <==> s.fl.list == []
    ensures s.fl.list == [] || HasEnd(s, t)
  {
    assert ThreadShape(s.bs, |s.bls|, s.th[t]);
  }

  lemma NotPopping(s: State, k: Tick)
    requires Shape(s) && k.t < |s.th|
    requires var pc := s.th[k.t].pc; !pc.Idle? && !pc.Done? && !pc.Popping? && !Filling(pc)
    ensures |Step(s, k).th| == |s.th| && !Step(s, k).th[k.t].pc.Popping?
  {
    assert ThreadShape(s.bs, |s.bls|, s.th[k.t]);
  }

  function SaysEmpty(t: nat): State -> bool { (s: State) => Says(s, t, OutOfBlocks) || HasEnd(s, t) }

  lemma EmptyClaims(t: nat)
    ensures Claims(t, SaysEmpty(t), FindsEmpty(t))
  {
    var A := SaysEmpty(t);
    forall s, k | SearchInv(s) && t < |s.th| && SearchInv(Step(s, k)) && A(Step(s, k))
      ensures FindsEmpty(t)(s, k) || (A(s) && Busy(s, t))
    {
      if Says(Step(s, k), t, OutOfBlocks) { AnswerStep(s, k, t, OutOfBlocks); } else { EndStep(s, k, t); }
    }
  }

  /** In every run, a put answers that there is no block left only if none was free at some step of its own. */
  lemma OutOfBlocksIsTrue(bs: nat, dat: seq<Str>, threads: nat, sched: seq<Tick>, t: nat)
    requires WellSized(bs, dat) && t < threads && Says(Run(bs, dat, threads, sched), t, OutOfBlocks)
    ensures exists p :: StepAt(bs, dat, threads, sched, t, FindsEmpty(t), p)
  {
    EmptyClaims(t);
    NothingSaid(bs, dat, threads, t, OutOfBlocks);
    var p := Traced(bs, dat, threads, sched, t, SaysEmpty(t), FindsEmpty(t));
  }

  // ---------------------------------------------------------------- put: stored

  /** A step of thread t that puts its own list, of its own key and value, into a slot. */
  ghost function PutsIn(t: nat): (State, Tick) -> bool {
    (s: State, k: Tick) => k.t == t && Shape(s) && exists i: nat :: PutsAt(s, Step(s, k), t, i)
  }

  predicate PutsAt(s: State, s': State, t: nat, i: nat) {
    && t < |s.th| && i < |s.slots| == |s'.slots|
    && var th, vi := s.th[t], s'.slots[i];
    && s.slots[i] != vi && Live(vi) && vi.ver in s.incs
    && th.job.Put? && s.incs[vi.ver].key == th.job.key && s.incs[vi.ver].val == th.job.val
  }

  function SaysStored(t: nat): State -> bool {
    (s: State) => Says(s, t, Stored) || (t < |s.th| && s.th[t].job.Put? && s.th[t].pc.Unlink?)
  }

  lemma StoredStep(s: State, k: Tick, t: nat)
    requires Inv(s) && t < |s.th| && Inv(Step(s, k)) && SaysStored(t)(Step(s, k))
    ensures PutsIn(t)(s, k) || (SaysStored(t)(s) && Busy(s, t))
  {
    if Says(Step(s, k), t, Stored) { AnswerStep(s, k, t, Stored); }
    if k.t != t {
      OthersStay(s, k, t);
    } else if s.th[t].pc.SwapSlot? {
      PutsOwn(s, k);
    } else {
      UnlinksFrom(s, k);
    }
  }

  lemma UnlinksFrom(s: State, k: Tick)
    requires Inv(s) && k.t < |s.th| && !s.th[k.t].pc.SwapSlot?
    ensures |Step(s, k).th| == |s.th| && !Step(s, k).th[k.t].pc.Unlink?
  {
    assert ThreadShape(s.bs, |s.bls|, s.th[k.t]);
  }

  lemma PutsOwn(s: State, k: Tick)
    requires Inv(s) && k.t < |s.th| && s.th[k.t].pc.SwapSlot? && Inv(Step(s, k)) && SaysStored(k.t)(Step(s, k))
    ensures PutsIn(k.t)(s, k)
  {
    var th := s.th[k.t];
    assert PcOk(s, k.t) && ThreadShape(s.bs, |s.bls|, th);
    assert BlockOk(s, th.mine.idx) && PcShape(s.bs, |s.bls|, th);
    SlotBefore(s, k);
    assert PutsAt(s, Step(s, k), k.t, th.pc.i);
  }

  /** Before a put swaps its own list in, that list is in no slot. */
  lemma SlotBefore(s: State, k: Tick)
    requires Inv(s) && k.t < |s.th| && s.th[k.t].pc.SwapSlot? && SaysStored(k.t)(Step(s, k))
    requires s.th[k.t].job.Put? ==> s.place[s.th[k.t].mine.idx].Private?
    ensures s.th[k.t].job.Put? && s.th[k.t].pc.i < |s.slots| && s.slots[s.th[k.t].pc.i] != s.th[k.t].mine
    ensures Step(s, k).slots == s.slots[s.th[k.t].pc.i := s.th[k.t].mine]
  {
    var th := s.th[k.t];
    assert ThreadShape(s.bs, |s.bls|, th) && PcOk(s, k.t);
    assert SlotOk(s, th.pc.i);
  }

  lemma StoredClaims(t: nat)
    ensures Claims(t, SaysStored(t), PutsIn(t))
  {
    forall s, k | SearchInv(s) && t < |s.th| && SearchInv(Step(s, k)) && SaysStored(t)(Step(s, k))
      ensures PutsIn(t)(s, k) || (SaysStored(t)(s) && Busy(s, t))
    {
      StoredStep(s, k, t);
    }
  }

  /** In every run, a put answers that it has stored only after a step of its own that put its list into a slot. */
  lemma StoredIsTrue(bs: nat, dat: seq<Str>, threads: nat, sched: seq<Tick>, t: nat)
    requires WellSized(bs, dat) && t < threads && Says(Run(bs, dat, threads, sched), t, Stored)
    ensures exists p :: StepAt(bs, dat, threads, sched, t, PutsIn(t), p)
  {
    StoredClaims(t);
    NothingSaid(bs, dat, threads, t, Stored);
    var p := Traced(bs, dat, threads, sched, t, SaysStored(t), PutsIn(t));
  }

  // ---------------------------------------------------------------- del: removed

  /** A step of thread t that marks a slot with a list under its key as deleted. */
  ghost function TakesOut(t: nat): (State, Tick) -> bool {
    (s: State, k: Tick) => k.t == t && Shape(s) && exists i: nat :: TakesAt(s, Step(s, k), t, i)
  }

  predicate TakesAt(s: State, s': State, t: nat, i: nat) {
    && t < |s.th| && i < |s.slots| == |s'.slots|
    && var th, vi := s.th[t], s.slots[i];
    && Live(vi) && vi.ver in s.incs && s.incs[vi.ver].key == th.job.key && s'.slots[i] == TOMBSTONE
  }

  function SaysRemoved(t: nat): State -> bool {
    (s: State) => Says(s, t, Removed) || (t < |s.th| && !s.th[t].job.Put? && s.th[t].pc.Unlink?)
  }

  lemma RemovedStep(s: State, k: Tick, t: nat)
    requires Inv(s) && t < |s.th| && Inv(Step(s, k)) && SaysRemoved(t)(Step(s, k))
    ensures TakesOut(t)(s, k) || (SaysRemoved(t)(s) && Busy(s, t))
  {
    if Says(Step(s, k), t, Removed) { AnswerStep(s, k, t, Removed); }
    if k.t != t {
      OthersStay(s, k, t);
    } else if s.th[t].pc.SwapSlot? {
      if SaysRemoved(t)(s) { } else { TakesOwn(s, k); }
    } else {
      UnlinksFrom(s, k);
    }
  }

  lemma TakesOwn(s: State, k: Tick)
    requires Inv(s) && k.t < |s.th| && s.th[k.t].pc.SwapSlot? && SaysRemoved(k.t)(Step(s, k))
    ensures TakesOut(k.t)(s, k)
  {
    var th := s.th[k.t];
    assert ThreadShape(s.bs, |s.bls|, th) && PcOk(s, k.t);
    assert TakesAt(s, Step(s, k), k.t, th.pc.i);
  }

  lemma RemovedClaims(t: nat)
    ensures Claims(t, SaysRemoved(t), TakesOut(t))
  {
    forall s, k | SearchInv(s) && t < |s.th| && SearchInv(Step(s, k)) && SaysRemoved(t)(Step(s, k))
      ensures TakesOut(t)(s, k) || (SaysRemoved(t)(s) && Busy(s, t))
    {
      RemovedStep(s, k, t);
    }
  }

  /** In every run, a del answers that it has removed only after a step of its own that took a list under its key out
      of a slot. */
  lemma RemovedIsTrue(bs: nat, dat: seq<Str>, threads: nat, sched: seq<Tick>, t: nat)
    requires WellSized(bs, dat) && t < threads && Says(Run(bs, dat, threads, sched), t, Removed)
    ensures exists p :: StepAt(bs, dat, threads, sched, t, TakesOut(t), p)
  {
    RemovedClaims(t);
    NothingSaid(bs, dat, threads, t, Removed);
    var p := Traced(bs, dat, threads, sched, t, SaysRemoved(t), TakesOut(t));
  }

  // ---------------------------------------------------------------- get: too big

  /** A step of thread t that finds a list under its key with a value longer than its buffer. */
  function FindsLonger(t: nat): (State, Tick) -> bool {
    (s: State, k: Tick) => k.t == t && t < |s.th| && LongerThan(s, s.th[t])
  }

  predicate LongerThan(s: State, th: Thread) {
    && th.job.Get? && th.pc.GetInc? && th.pc.vi.ver in s.incs
    && s.incs[th.pc.vi.ver].key == th.job.key && |s.incs[th.pc.vi.ver].val| > th.job.maxlen
  }

  lemma TooBigStep(s: State, k: Tick, t: nat)
    requires Inv(s) && t < |s.th| && Says(Step(s, k), t, TooBig)
    ensures FindsLonger(t)(s, k) || (Says(s, t, TooBig) && Busy(s, t))
  {
    AnswerStep(s, k, t, TooBig);
    if !(Says(s, t, TooBig) && Busy(s, t)) {
      assert PcOk(s, t) && ThreadShape(s.bs, |s.bls|, s.th[t]);
      CurrentIsFilled(s, s.th[t].pc.vi);
    }
  }

  function SaysTooBig(t: nat): State -> bool { (s: State) => Says(s, t, TooBig) }

  lemma TooBigClaims(t: nat)
    ensures Claims(t, SaysTooBig(t), FindsLonger(t))
  {
    forall s, k | SearchInv(s) && t < |s.th| && SearchInv(Step(s, k)) && SaysTooBig(t)(Step(s, k))
      ensures FindsLonger(t)(s, k) || (SaysTooBig(t)(s) && Busy(s, t))
    {
      TooBigStep(s, k, t);
    }
  }

  /** What stood in the table in this call by then has stood in it in this call. */
  lemma StoodOnTo(
    bs: nat, dat: seq<Str>, threads: nat, sched: seq<Tick>, t: nat, key: Str, val: Str, p: nat, q: nat)
    requires WellSized(bs, dat) && q <= |sched| && StoodSince(bs, dat, threads, sched[..q], t, key, val, p)
    requires forall j | q <= j < |sched| :: BusyAt(bs, dat, threads, sched[..j], t)
    ensures StoodSince(bs, dat, threads, sched, t, key, val, p)
  {
    assert sched[..q][..p] == sched[..p];
    forall j | p <= j < |sched| ensures BusyAt(bs, dat, threads, sched[..j], t) {
      if j < q { BusyEarlier(bs, dat, threads, sched, t, j, q); }
    }
  }

  lemma BusyEarlier(bs: nat, dat: seq<Str>, threads: nat, sched: seq<Tick>, t: nat, j: nat, q: nat)
    requires WellSized(bs, dat) && j < q <= |sched| && BusyAt(bs, dat, threads, sched[..q][..j], t)
    ensures BusyAt(bs, dat, threads, sched[..j], t)
  {
    assert sched[..q][..j] == sched[..j];
  }

  lemma LongerIs(s: State, k: Tick, t: nat)
    requires FindsLonger(t)(s, k)
    ensures t < |s.th| && LongerThan(s, s.th[t]) && Busy(s, t)
  {
  }

  /** The value found stood in the table. */
  lemma LongerSeen(bs: nat, dat: seq<Str>, threads: nat, sched: seq<Tick>, t: nat) returns (q: nat, val: Str)
    requires WellSized(bs, dat)
    requires var s := Run(bs, dat, threads, sched); t < |s.th| && LongerThan(s, s.th[t])
    ensures var job := Run(bs, dat, threads, sched).th[t].job;
      job.Get? && |val| > job.maxlen && StoodSince(bs, dat, threads, sched, t, job.key, val, q)
  {
    var s := Run(bs, dat, threads, sched);
    EveryCallHasSeen(bs, dat, threads, sched, t);
    val := s.incs[s.th[t].pc.vi.ver].val;
    q := SeenWhen(bs, dat, threads, sched, t, s.th[t].job.key, val);
  }

  lemma LongerStood(bs: nat, dat: seq<Str>, threads: nat, sched: seq<Tick>, t: nat, p: nat)
    returns (q: nat, val: Str, job: Job)
    requires WellSized(bs, dat) && t < threads && StepAt(bs, dat, threads, sched, t, FindsLonger(t), p)
    ensures JobAt(bs, dat, threads, sched[..p], t, job)
    ensures job.Get? && |val| > job.maxlen && StoodSince(bs, dat, threads, sched, t, job.key, val, q)
  {
    var s := Run(bs, dat, threads, sched[..p]);
    LongerIs(s, sched[p], t);
    job := s.th[t].job;
    q, val := LongerSeen(bs, dat, threads, sched[..p], t);
    BusyAsked(bs, dat, threads, sched, t, p);
    StoodOnTo(bs, dat, threads, sched, t, s.th[t].job.key, val, q, p);
  }

  lemma BusyAsked(bs: nat, dat: seq<Str>, threads: nat, sched: seq<Tick>, t: nat, p: nat)
    requires WellSized(bs, dat) && t < threads && StepAt(bs, dat, threads, sched, t, FindsLonger(t), p)
    ensures forall j | p <= j < |sched| :: BusyAt(bs, dat, threads, sched[..j], t)
  {
    LongerIs(Run(bs, dat, threads, sched[..p]), sched[p], t);
  }

  ghost predicate JobAt(bs: nat, dat: seq<Str>, threads: nat, sched: seq<Tick>, t: nat, job: Job)
    requires WellSized(bs, dat)
  {
    var s := Run(bs, dat, threads, sched);
    t < |s.th| && s.th[t].job == job
  }

  /** The job of a call stays. */
  lemma {:induction false} JobStays(bs: nat, dat: seq<Str>, threads: nat, sched: seq<Tick>, t: nat, p: nat, job: Job)
    requires WellSized(bs, dat) && p <= |sched| && JobAt(bs, dat, threads, sched[..p], t, job)
    requires forall j | p <= j < |sched| :: BusyAt(bs, dat, threads, sched[..j], t)
    ensures JobAt(bs, dat, threads, sched, t, job)
    decreases |sched| - p
  {
    if p == |sched| {
      assert sched[..p] == sched;
    } else {
      assert BusyAt(bs, dat, threads, sched[..p], t);
      JobStep(bs, dat, threads, sched, t, p, job);
      JobStays(bs, dat, threads, sched, t, p + 1, job);
    }
  }

  lemma JobStep(bs: nat, dat: seq<Str>, threads: nat, sched: seq<Tick>, t: nat, p: nat, job: Job)
    requires WellSized(bs, dat) && p < |sched| && JobAt(bs, dat, threads, sched[..p], t, job)
    requires BusyAt(bs, dat, threads, sched[..p], t)
    ensures JobAt(bs, dat, threads, sched[..p + 1], t, job)
  {
    assert sched[..p + 1][..p] == sched[..p];
    StepCall(Run(bs, dat, threads, sched[..p]), sched[p], t);
  }

  /** In every run, a get answers that the value is too big only if a longer one than its buffer stood in the table
      under its key, at some moment of the call. */
  lemma TooBigIsTrue(bs: nat, dat: seq<Str>, threads: nat, sched: seq<Tick>, t: nat)
    requires WellSized(bs, dat) && t < threads && Says(Run(bs, dat, threads, sched), t, TooBig)
    ensures var job := Run(bs, dat, threads, sched).th[t].job;
      job.Get? && exists q, val :: |val| > job.maxlen && StoodSince(bs, dat, threads, sched, t, job.key, val, q)
  {
    TooBigClaims(t);
    NothingSaid(bs, dat, threads, t, TooBig);
    var p := Traced(bs, dat, threads, sched, t, SaysTooBig(t), FindsLonger(t));
    BusyAsked(bs, dat, threads, sched, t, p);
    var q, val, job := LongerStood(bs, dat, threads, sched, t, p);
    JobStays(bs, dat, threads, sched, t, p, job);
  }

  // ---------------------------------------------------------------- get: vanished

  /** A step of thread t that finds the list it has matched, and is about to read, gone or marked deleted. */
  function FindsGone(t: nat): (State, Tick) -> bool {
    (s: State, k: Tick) => k.t == t && t < |s.th| && GoneFor(s, s.th[t])
  }

  predicate GoneFor(s: State, th: Thread) {
    && (th.pc.GetInc? || th.pc.RdInc?) && Matches(s, th, th.pc.vi)
    && (!Current(s, th.pc.vi) || s.bls[th.pc.vi.idx].deleted)
  }

  function SaysVanished(t: nat): State -> bool {
    (s: State) => Says(s, t, Vanished) || (t < |s.th| && s.th[t].pc.GetDec? && s.th[t].pc.out == [])
  }

  /** A list without readers to take is gone or marked deleted. */
  lemma RefusedIsGone(s: State, t: nat)
    requires Inv(s) && t < |s.th| && (s.th[t].pc.GetInc? || s.th[t].pc.RdInc?)
    requires s.th[t].pc.vi.idx < |s.bls| && !Admits(s.bls[s.th[t].pc.vi.idx], s.th[t].pc.vi.ver)
    ensures GoneFor(s, s.th[t])
  {
    var vi := s.th[t].pc.vi;
    assert PcOk(s, t);
    KnownIsNumbered(s, vi);
    assert ReadersOk(s, vi.idx);
  }

  lemma EmptyHanded(s: State, t: nat)
    requires Inv(s) && t < |s.th| && Reading(s.th[t].pc)
    requires ReadStep(s, t).th[t].pc.GetDec? && ReadStep(s, t).th[t].pc.out == []
    ensures s.th[t].pc.RdInc? && s.th[t].pc.vi.idx < |s.bls| && !Admits(s.bls[s.th[t].pc.vi.idx], s.th[t].pc.vi.ver)
  {
    assert ThreadShape(s.bs, |s.bls|, s.th[t]) && PcOk(s, t);
    if s.th[t].pc.RdDec? { ValueIsNotEmpty(s, t); }
  }

  lemma ValueIsNotEmpty(s: State, t: nat)
    requires Inv(s) && t < |s.th| && s.th[t].pc.RdDec?
    ensures s.th[t].pc.out != []
  {
    assert PcOk(s, t);
    HeldIsShared(s, t, s.th[t].pc.vi);
  }

  lemma VanishedStep(s: State, k: Tick, t: nat)
    requires Inv(s) && t < |s.th| && Inv(Step(s, k)) && SaysVanished(t)(Step(s, k))
    ensures FindsGone(t)(s, k) || (SaysVanished(t)(s) && Busy(s, t))
  {
    if Says(Step(s, k), t, Vanished) { VanishedNow(s, k, t); } else { HandedStep(s, k, t); }
  }

  lemma HandedStep(s: State, k: Tick, t: nat)
    requires Inv(s) && t < |s.th| && Inv(Step(s, k)) && |Step(s, k).th| == |s.th|
    requires Step(s, k).th[t].pc.GetDec? && Step(s, k).th[t].pc.out == []
    ensures (k.t == t && GoneFor(s, s.th[t])) || (s.th[t].pc.GetDec? && s.th[t].pc.out == [])
  {
    if k.t != t {
      OthersStay(s, k, t);
    } else {
      GetDecFrom(s, k);
      EmptyFrom(s, t);
    }
  }

  lemma EmptyFrom(s: State, t: nat)
    requires Inv(s) && t < |s.th| && Reading(s.th[t].pc) && Inv(ReadStep(s, t)) && |ReadStep(s, t).th| == |s.th|
    requires ReadStep(s, t).th[t].pc.GetDec? && ReadStep(s, t).th[t].pc.out == []
    ensures GoneFor(s, s.th[t])
  {
    EmptyHanded(s, t);
    RefusedIsGone(s, t);
  }

  lemma VanishedNow(s: State, k: Tick, t: nat)
    requires Inv(s) && t < |s.th| && Says(Step(s, k), t, Vanished)
    ensures FindsGone(t)(s, k) || (SaysVanished(t)(s) && Busy(s, t))
  {
    AnswerStep(s, k, t, Vanished);
    if k.t == t && s.th[t].pc.GetInc? {
      assert ThreadShape(s.bs, |s.bls|, s.th[t]);
      if !Admits(s.bls[s.th[t].pc.vi.idx], s.th[t].pc.vi.ver) { RefusedIsGone(s, t); }
    }
  }

  lemma GetDecFrom(s: State, k: Tick)
    requires Inv(s) && k.t < |s.th| && |Step(s, k).th| == |s.th| && Step(s, k).th[k.t].pc.GetDec?
    ensures Reading(s.th[k.t].pc) && Step(s, k) == ReadStep(s, k.t)
  {
    var pc := s.th[k.t].pc;
    if pc.Popping? || Filling(pc) { AllocNotRead(s, k.t); }
    else if Looking(pc) { LooksNotRead(s, k.t); }
    else if pc.SwapSlot? || pc.Unlink? { SwapNotRead(s, k.t); }
    else if AtFree(pc) { assert PcOk(s, k.t); FreeNotRead(s, k.t); }
  }

  lemma AllocNotRead(s: State, t: nat)
    requires Shape(s) && t < |s.th| && (s.th[t].pc.Popping? || Filling(s.th[t].pc))
    ensures |AllocStep(s, t).th| == |s.th| && !AllocStep(s, t).th[t].pc.GetDec?
  {
    assert ThreadShape(s.bs, |s.bls|, s.th[t]);
  }

  lemma SwapNotRead(s: State, t: nat)
    requires Shape(s) && t < |s.th| && (s.th[t].pc.SwapSlot? || s.th[t].pc.Unlink?)
    ensures |SwapStep(s, t).th| == |s.th| && !SwapStep(s, t).th[t].pc.GetDec?
  {
    assert ThreadShape(s.bs, |s.bls|, s.th[t]);
  }

  lemma FreeNotRead(s: State, t: nat)
    requires Shape(s) && t < |s.th| && AtFree(s.th[t].pc) && !s.th[t].pc.k.Drop?
    ensures |FreeStep(s, t).th| == |s.th| && !FreeStep(s, t).th[t].pc.GetDec?
  {
    assert ThreadShape(s.bs, |s.bls|, s.th[t]);
  }

  lemma LooksNotRead(s: State, t: nat)
    requires Shape(s) && t < |s.th| && Looking(s.th[t].pc)
    ensures |ProbeStep(s, t).th| == |s.th| && !ProbeStep(s, t).th[t].pc.GetDec?
  {
    assert ThreadShape(s.bs, |s.bls|, s.th[t]);
  }

  lemma VanishedClaims(t: nat)
    ensures Claims(t, SaysVanished(t), FindsGone(t))
  {
    forall s, k | SearchInv(s) && t < |s.th| && SearchInv(Step(s, k)) && SaysVanished(t)(Step(s, k))
      ensures FindsGone(t)(s, k) || (SaysVanished(t)(s) && Busy(s, t))
    {
      VanishedStep(s, k, t);
    }
  }

  /** In every run, a get answers that its list went away only if it found the list it had matched gone or marked
      deleted. */
  lemma VanishedIsTrue(bs: nat, dat: seq<Str>, threads: nat, sched: seq<Tick>, t: nat)
    requires WellSized(bs, dat) && t < threads && Says(Run(bs, dat, threads, sched), t, Vanished)
    ensures exists p :: StepAt(bs, dat, threads, sched, t, FindsGone(t), p)
  {
    VanishedClaims(t);
    NothingSaid(bs, dat, threads, t, Vanished);
    var p := Traced(bs, dat, threads, sched, t, SaysVanished(t), FindsGone(t));
  }

  // ---------------------------------------------------------------- get and del: missing

  /** A step at which thread t stands at slot x and finds it free, or finds that the list it has loaded there does not,
      or no longer, store its key; or at which a del finds the list it compares gone or marked deleted. */
  function FindsNot(t: nat, x: nat): (State, Tick) -> bool {
    (s: State, k: Tick) => k.t == t && t < |s.th| && (VainAt(s, t, x) || (s.th[t].job.Del? && Broken(s, t)))
  }

  predicate VainAt(s: State, t: nat, x: nat)
    requires t < |s.th|
  {
    Vain(s, t) && Where(s.th[t].pc).value.i == x
  }

  /** Slot x is behind the call. */
  predicate Behind(s: State, t: nat, x: nat) {
    && t < |s.th| && x < |s.slots| && Calling(s.th[t])
    && var th, n := s.th[t], |s.slots|;
    && LooksAt(n, th.job, x) && (th.job.Get? ==> th.job.key != [])
    && (Missed(th.pc)
        || (Where(th.pc).Some? && Where(th.pc).value.i < n
            && Circle.PosOf(n, Home(n, th.job), x) < Circle.PosOf(n, Home(n, th.job), Where(th.pc).value.i)))
  }

  function SaysBehind(t: nat, x: nat): State -> bool { (s: State) => Behind(s, t, x) }

  lemma BehindMoves(s: State, s': State, t: nat, x: nat)
    requires t < |s.th| == |s'.th| && 0 < |s.bls| == |s.slots| == |s'.slots| && x < |s.slots|
    requires Calling(s.th[t]) && Seeks(s, s', t) && Behind(s', t, x)
    requires Where(s.th[t].pc).Some? ==> Where(s.th[t].pc).value.i < |s.slots|
    ensures VainAt(s, t, x) || (s.th[t].job.Del? && Broken(s, t)) || Behind(s, t, x)
  {
    var n, home, a := |s.slots|, Home(|s.slots|, s.th[t].job), Where(s.th[t].pc);
    if Onward(s, s', t) {
      Circle.NextPos(n, home, a.value.i);
      Circle.NextPos(n, home, x);
      assert Circle.Pos(n, home, Circle.PosOf(n, home, x)) == x;
      assert Circle.Pos(n, home, Circle.PosOf(n, home, a.value.i)) == a.value.i;
    }
  }

  lemma SpotInRange(s: State, t: nat)
    requires Shape(s) && t < |s.th| && Where(s.th[t].pc).Some?
    ensures Where(s.th[t].pc).value.i < |s.slots|
  {
    assert ThreadShape(s.bs, |s.bls|, s.th[t]);
  }

  lemma BehindStep(s: State, k: Tick, t: nat, x: nat)
    requires SearchInv(s) && t < |s.th| && Inv(Step(s, k)) && Behind(Step(s, k), t, x)
    ensures FindsNot(t, x)(s, k) || (Behind(s, t, x) && Busy(s, t))
  {
    SameSizes(s, k);
    if k.t != t {
      OthersStay(s, k, t);
    } else if Calling(s.th[t]) {
      if s.th[t].pc.Done? {
        ReturnsToIdle(s, k);
      } else {
        if Where(s.th[t].pc).Some? { SpotInRange(s, t); }
        CallSeeks(s, k);
        BehindMoves(s, Step(s, k), t, x);
      }
    } else {
      CallBegins(s, k, t);
    }
  }

  lemma BehindClaims(t: nat, x: nat)
    ensures Claims(t, SaysBehind(t, x), FindsNot(t, x))
  {
    forall s, k | SearchInv(s) && t < |s.th| && SearchInv(Step(s, k)) && SaysBehind(t, x)(Step(s, k))
      ensures FindsNot(t, x)(s, k) || (SaysBehind(t, x)(s) && Busy(s, t))
    {
      BehindStep(s, k, t, x);
    }
  }

  lemma NothingBehind(bs: nat, dat: seq<Str>, threads: nat, t: nat, x: nat)
    requires WellSized(bs, dat)
    ensures !Behind(Init(bs, dat, threads), t, x)
  {
  }

  /** The call of thread t, which looks at slot x, answers that its key is missing. */
  predicate Misses(s: State, t: nat, x: nat) {
    && Says(s, t, Miss) && !s.th[t].job.Put? && x < |s.slots| && LooksAt(|s.slots|, s.th[t].job, x)
    && (s.th[t].job.Get? ==> s.th[t].job.key != [])
  }

  /** In every run, whatever the other threads do: a get answers that its key is missing only after it has passed every
      slot, each for one of these reasons; a del only after it has passed all but the last one so, or at a comparison
      with a list that was gone or marked deleted. */
  lemma MissIsTrue(bs: nat, dat: seq<Str>, threads: nat, sched: seq<Tick>, t: nat, x: nat)
    requires WellSized(bs, dat) && t < threads && x < |dat|
    requires Misses(Run(bs, dat, threads, sched), t, x)
    ensures exists p :: StepAt(bs, dat, threads, sched, t, FindsNot(t, x), p)
  {
    MissIsBehind(Run(bs, dat, threads, sched), t, x);
    BehindIsTrue(bs, dat, threads, sched, t, x);
  }

  lemma MissIsBehind(s: State, t: nat, x: nat)
    requires Misses(s, t, x)
    ensures Behind(s, t, x)
  {
  }

  lemma BehindIsTrue(bs: nat, dat: seq<Str>, threads: nat, sched: seq<Tick>, t: nat, x: nat)
    requires WellSized(bs, dat) && t < threads && Behind(Run(bs, dat, threads, sched), t, x)
    ensures exists p :: StepAt(bs, dat, threads, sched, t, FindsNot(t, x), p)
  {
    BehindClaims(t, x);
    NothingBehind(bs, dat, threads, t, x);
    var p := Traced(bs, dat, threads, sched, t, SaysBehind(t, x), FindsNot(t, x));
  }

  // ---------------------------------------------------------------- what a comparison has checked

  /** How many of the three plain checks of a comparison with vi thread t has behind it. */
  function ChecksDone(pc: Pc, vi: VerIdx): nat {
    match pc
    case CkVer(_, w) => if w == vi then 1 else 0
    case CkLen(_, w) => if w == vi then 2 else 0
    case CmpInc(_, w) => if w == vi then 3 else 0
    case CmpRead(_, w) => if w == vi then 3 else 0
    case CmpDec(_, w, _) => if w == vi then 3 else 0
    case _ => 0
  }

  /** A step at which the n-th check of the record of vi comes out equal: of its hash, its version, the length of its
      key. */
  function Agrees(t: nat, vi: VerIdx, n: nat): (State, Tick) -> bool {
    (s: State, k: Tick) =>
      && k.t == t && t < |s.th| && vi.idx < |s.bls|
      && var pc, r, job := s.th[t].pc, s.bls[vi.idx], s.th[t].job;
      && (n == 1 ==> pc.CkHash? && pc.vi == vi && r.hash == job.hash)
      && (n == 2 ==> pc.CkVer? && pc.vi == vi && r.version == vi.ver)
      && (n == 3 ==> pc.CkLen? && pc.vi == vi && r.klen == |job.key|)
  }

  function HasChecked(t: nat, vi: VerIdx, n: nat): State -> bool {
    (s: State) => t < |s.th| && ChecksDone(s.th[t].pc, vi) >= n
  }

  lemma CheckedStep(s: State, k: Tick, t: nat, vi: VerIdx, n: nat)
    requires Inv(s) && t < |s.th| && 1 <= n <= 3 && HasChecked(t, vi, n)(Step(s, k))
    ensures Agrees(t, vi, n)(s, k) || (HasChecked(t, vi, n)(s) && Busy(s, t))
  {
    if k.t != t {
      OthersStay(s, k, t);
    } else if Looking(s.th[t].pc) {
      LooksByProbe(s, k);
      CheckedOwn(s, t, vi, n);
    } else {
      ChecksFromLook(s, k, vi);
    }
  }

  lemma LooksByProbe(s: State, k: Tick)
    requires Shape(s) && k.t < |s.th| && Looking(s.th[k.t].pc)
    ensures Step(s, k) == ProbeStep(s, k.t) && |Step(s, k).th| == |s.th|
  {
    assert ThreadShape(s.bs, |s.bls|, s.th[k.t]);
  }

  lemma CheckedOwn(s: State, t: nat, vi: VerIdx, n: nat)
    requires Shape(s) && t < |s.th| && Looking(s.th[t].pc) && 1 <= n <= 3
    requires |ProbeStep(s, t).th| == |s.th| && ChecksDone(ProbeStep(s, t).th[t].pc, vi) >= n
    ensures Agrees(t, vi, n)(s, Tick(t, s.th[t].job)) || ChecksDone(s.th[t].pc, vi) >= n
  {
    var pc := s.th[t].pc;
    assert ThreadShape(s.bs, |s.bls|, s.th[t]);
    if pc.CkHash? || pc.CkVer? || pc.CkLen? { CheckedMore(s, t, vi); } else { CheckedNoMore(s, t, vi); }
  }

  lemma CheckedMore(s: State, t: nat, vi: VerIdx)
    requires Shape(s) && t < |s.th| && (s.th[t].pc.CkHash? || s.th[t].pc.CkVer? || s.th[t].pc.CkLen?)
    ensures |ProbeStep(s, t).th| == |s.th| && s.th[t].pc.vi.idx < |s.bls|
    ensures var pc, r, n := s.th[t].pc, s.bls[s.th[t].pc.vi.idx], ChecksDone(ProbeStep(s, t).th[t].pc, vi);
      n > 0 ==>
        && pc.vi == vi && n == ChecksDone(pc, vi) + 1
        && (pc.CkHash? ==> r.hash == s.th[t].job.hash)
        && (pc.CkVer? ==> r.version == vi.ver)
        && (pc.CkLen? ==> r.klen == |s.th[t].job.key|)
  {
    assert ThreadShape(s.bs, |s.bls|, s.th[t]);
  }

  lemma CheckedNoMore(s: State, t: nat, vi: VerIdx)
    requires Shape(s) && t < |s.th| && Looking(s.th[t].pc)
    requires !s.th[t].pc.CkHash? && !s.th[t].pc.CkVer? && !s.th[t].pc.CkLen?
    ensures |ProbeStep(s, t).th| == |s.th| && ChecksDone(ProbeStep(s, t).th[t].pc, vi) <= ChecksDone(s.th[t].pc, vi)
  {
    assert ThreadShape(s.bs, |s.bls|, s.th[t]);
  }

  lemma ChecksFromLook(s: State, k: Tick, vi: VerIdx)
    requires Shape(s) && k.t < |s.th| && !Looking(s.th[k.t].pc)
    ensures |Step(s, k).th| == |s.th| && ChecksDone(Step(s, k).th[k.t].pc, vi) == 0
  {
    var pc := s.th[k.t].pc;
    assert ThreadShape(s.bs, |s.bls|, s.th[k.t]);
    if Reading(pc) { ReadChecksNone(s, k.t, vi); }
    else if AtFree(pc) { FreeChecksNone(s, k.t, vi); }
    else if pc.SwapSlot? || pc.Unlink? { SwapChecksNone(s, k.t, vi); }
  }

  lemma ReadChecksNone(s: State, t: nat, vi: VerIdx)
    requires Shape(s) && t < |s.th| && Reading(s.th[t].pc)
    ensures |ReadStep(s, t).th| == |s.th| && ChecksDone(ReadStep(s, t).th[t].pc, vi) == 0
  {
    assert ThreadShape(s.bs, |s.bls|, s.th[t]);
  }

  lemma FreeChecksNone(s: State, t: nat, vi: VerIdx)
    requires Shape(s) && t < |s.th| && AtFree(s.th[t].pc)
    ensures |FreeStep(s, t).th| == |s.th| && ChecksDone(FreeStep(s, t).th[t].pc, vi) == 0
  {
    assert ThreadShape(s.bs, |s.bls|, s.th[t]);
  }

  lemma SwapChecksNone(s: State, t: nat, vi: VerIdx)
    requires Shape(s) && t < |s.th| && (s.th[t].pc.SwapSlot? || s.th[t].pc.Unlink?)
    ensures |SwapStep(s, t).th| == |s.th| && ChecksDone(SwapStep(s, t).th[t].pc, vi) == 0
  {
    assert ThreadShape(s.bs, |s.bls|, s.th[t]);
  }

  lemma CheckedClaims(t: nat, vi: VerIdx, n: nat)
    requires 1 <= n <= 3
    ensures Claims(t, HasChecked(t, vi, n), Agrees(t, vi, n))
  {
    forall s, k | SearchInv(s) && t < |s.th| && SearchInv(Step(s, k)) && HasChecked(t, vi, n)(Step(s, k))
      ensures Agrees(t, vi, n)(s, k) || (HasChecked(t, vi, n)(s) && Busy(s, t))
    {
      CheckedStep(s, k, t, vi, n);
    }
  }

  lemma NothingChecked(bs: nat, dat: seq<Str>, threads: nat, t: nat, vi: VerIdx, n: nat)
    requires WellSized(bs, dat) && 1 <= n
    ensures !HasChecked(t, vi, n)(Init(bs, dat, threads))
  {
  }

  predicate Compares(s: State, t: nat, vi: VerIdx) {
    t < |s.th| && (s.th[t].pc.CmpInc? || s.th[t].pc.CmpRead? || s.th[t].pc.CmpDec?) && s.th[t].pc.vi == vi
  }

  lemma ComparesChecked(s: State, t: nat, vi: VerIdx, n: nat)
    requires Compares(s, t, vi) && n <= 3
    ensures HasChecked(t, vi, n)(s)
  {
  }

  /** In every run, a call that compares the bytes of a list has found hash, version and key length of its record equal,
      each at a step of its own. */
  lemma ComparisonIsChecked(bs: nat, dat: seq<Str>, threads: nat, sched: seq<Tick>, t: nat, vi: VerIdx, n: nat)
    requires WellSized(bs, dat) && t < threads && 1 <= n <= 3
    requires Compares(Run(bs, dat, threads, sched), t, vi)
    ensures exists p :: StepAt(bs, dat, threads, sched, t, Agrees(t, vi, n), p)
  {
    CheckedClaims(t, vi, n);
    NothingChecked(bs, dat, threads, t, vi, n);
    ComparesChecked(Run(bs, dat, threads, sched), t, vi, n);
    var p := Traced(bs, dat, threads, sched, t, HasChecked(t, vi, n), Agrees(t, vi, n));
  }
}
