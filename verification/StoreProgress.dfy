/** Every step of a call brings it nearer to its answer, unless it loses a swap: of the free list, because another
    thread has won one, or of a slot, because that has changed since it was loaded.  And the order in which a call
    comes to its slots. */
module StoreProgress {
  import opened Bytes
  import opened Circle
  import opened StoreSteps
  import opened StoreInvariant
  import opened StoreAlloc
  import opened StoreRuns
  import opened StorePins
  import opened StoreSearch
  import opened StorePaths
  import opened StoreVain
  import opened StoreMiss
  import opened StoreFresh
  import FL = FreeListSteps

  /** Steps left at slot i, where each slot takes at most 40 of them. */
  function AtSlot(n: nat, job: Job, i: nat): (r: nat)
    requires 0 < n
    ensures r >= 40
  {
    if i < n then 40 * (n - PosOf(n, StoreSteps.Home(n, job), i)) else 40
  }

  /** And once it has gone on. */
  function Onwards(n: nat, job: Job, k: Then): nat
    requires 0 < n
  {
    match k
    case Probe(i) => AtSlot(n, job, i)
    case Return(_) => 1
    case Drop(_, _) => 8
  }

  /** How many steps of its own are left to a thread, at most, until it is idle, if it loses no swap. */
  function Left(n: nat, th: Thread, fl: FL.Pc): nat
    requires 0 < n
  {
    match th.pc
    case Idle => 0
    case Done(_) => 1
    case Popping => 40 * n + 5 + FL.Distance(fl)
    case Popped(_) => 40 * n + 4
    case Numbered(_, _) => 40 * n + 3
    case Recorded(_, _) => 40 * n + 2
    case Titled(_, _) => 40 * n + 1
    case LoadSlot(i) => AtSlot(n, th.job, i)
    case CkHash(i, _) => AtSlot(n, th.job, i) - 1
    case CkVer(i, _) => AtSlot(n, th.job, i) - 2
    case CkLen(i, _) => AtSlot(n, th.job, i) - 3
    case CmpInc(i, _) => AtSlot(n, th.job, i) - 4
    case CmpRead(i, _) => AtSlot(n, th.job, i) - 5
    case CmpDec(i, _, _) => AtSlot(n, th.job, i) - 6
    case SwapSlot(_, _) => 9
    case Unlink(_) => 8
    case GetInc(_) => 17
    case RdInc(_, _, _) => 16
    case RdCopy(_, _, _) => 15
    case RdDec(_, _) => 14
    case GetDec(_, _) => 8
    case Clear(_, k) => Onwards(n, th.job, k) + 5
    case ToPush(_, k) => Onwards(n, th.job, k) + 4
    case Pushing(_, k) => Onwards(n, th.job, k) + 1 + FL.Distance(fl)
  }

  lemma LeftIsBounded(n: nat, th: Thread, fl: FL.Pc)
    requires 0 < n
    ensures Left(n, th, fl) <= 40 * n + 13
  {
  }

  /** A del never comes to the slot it leaves out. */
  predicate Short(s: State, t: nat)
    requires t < |s.th| && 0 < |s.bls|
  {
    s.th[t].job.Del? && Where(s.th[t].pc).Some? ==> Where(s.th[t].pc).value.i != EndIdx(|s.bls|, s.th[t].job)
  }

  /** The step of thread t lost a swap. */
  predicate Loses(s: State, s': State, t: nat)
    requires Shape(s) && Shape(s') && t < |s.th| == |s'.th|
  {
    || s'.fl.fails[t] > s.fl.fails[t]
    || (s.th[t].pc.SwapSlot? && s.slots[s.th[t].pc.i] != s.th[t].pc.vi)
  }

  predicate Nearer(s: State, s': State, t: nat)
    requires Shape(s) && Shape(s') && t < |s.th| == |s'.th| && |s'.bls| == |s.bls|
  {
    Left(|s.bls|, s'.th[t], s'.fl.pcs[t]) < Left(|s.bls|, s.th[t], s.fl.pcs[t])
  }

  /** The slot behind slot i is one nearer to the end. */
  lemma NextIsNearer(n: nat, job: Job, i: nat)
    requires 0 < n && i < n && (job.Del? ==> i != EndIdx(n, job))
    ensures Onwards(n, job, NextSlot(n, job, i)) + 11 < AtSlot(n, job, i)
    ensures Onwards(n, job, AfterRemoved(n, job, i)) + 11 < AtSlot(n, job, i)
  {
    NextPos(n, StoreSteps.Home(n, job), i);
  }

  lemma AllocNearer(s: State, t: nat)
    requires Shape(s) && t < |s.th| && (s.th[t].pc.Popping? || Filling(s.th[t].pc)) && FlPcOk(s, t)
    requires Shape(AllocStep(s, t))
    ensures var s' := AllocStep(s, t);
      |s'.th| == |s.th| && |s'.bls| == |s.bls| && (Loses(s, s', t) || Nearer(s, s', t))
  {
    assert ThreadShape(s.bs, |s.bls|, s.th[t]);
  }

  /** Thread t has gone on from slot i: the comparison has come to its next step, or to its end, or leads to k. */
  predicate GoesOn(n: nat, th: Thread, th': Thread, i: nat, k: Then) {
    var pc, pc' := th.pc, th'.pc;
    && th'.job == th.job
    && (pc' == PcOf(k) || (pc'.Clear? && pc'.k == k) || pc'.SwapSlot? || (pc.CmpDec? && pc'.GetInc?)
        || (pc.LoadSlot? && pc'.CkHash? && pc'.i == i) || (pc.CkHash? && pc'.CkVer? && pc'.i == i)
        || (pc.CkVer? && pc'.CkLen? && pc'.i == i) || (pc.CkLen? && pc'.CmpInc? && pc'.i == i)
        || (pc.CmpInc? && pc'.CmpRead? && pc'.i == i) || (pc.CmpRead? && pc'.CmpDec? && pc'.i == i))
  }

  predicate Looking(pc: Pc) {
    pc.LoadSlot? || pc.CkHash? || pc.CkVer? || pc.CkLen? || pc.CmpInc? || pc.CmpRead? || pc.CmpDec?
  }

  lemma GoesNearer(n: nat, th: Thread, th': Thread, fl: FL.Pc, i: nat, k: Then)
    requires 0 < n && Looking(th.pc) && th.pc.i == i && GoesOn(n, th, th', i, k) && !k.Drop?
    requires Onwards(n, th.job, k) + 11 < AtSlot(n, th.job, i)
    ensures Left(n, th', fl) < Left(n, th, fl)
  {
  }

  lemma LookGoes(s: State, t: nat)
    requires Shape(s) && t < |s.th|
    requires var pc := s.th[t].pc; pc.LoadSlot? || pc.CkHash? || pc.CkVer? || pc.CkLen?
    ensures var s', i, job := ProbeStep(s, t), s.th[t].pc.i, s.th[t].job;
      && |s'.th| == |s.th| && |s'.bls| == |s.bls| && s'.fl == s.fl
      && GoesOn(|s.bls|, s.th[t], s'.th[t], i, NextSlot(|s.bls|, job, i))
  {
    assert ThreadShape(s.bs, |s.bls|, s.th[t]);
  }

  lemma CompareGoes(s: State, t: nat)
    requires Shape(s) && t < |s.th|
    requires var pc := s.th[t].pc; pc.CmpInc? || pc.CmpRead? || pc.CmpDec?
    ensures var s', i, job := ProbeStep(s, t), s.th[t].pc.i, s.th[t].job;
      && |s'.th| == |s.th| && |s'.bls| == |s.bls| && s'.fl == s.fl
      && (GoesOn(|s.bls|, s.th[t], s'.th[t], i, NextSlot(|s.bls|, job, i))
          || GoesOn(|s.bls|, s.th[t], s'.th[t], i, AfterRemoved(|s.bls|, job, i)))
  {
    assert ThreadShape(s.bs, |s.bls|, s.th[t]);
  }

  lemma LookNearer(s: State, t: nat)
    requires Shape(s) && t < |s.th| && Short(s, t) && Looking(s.th[t].pc) && Shape(ProbeStep(s, t))
    ensures var s' := ProbeStep(s, t); |s'.th| == |s.th| && |s'.bls| == |s.bls| && Nearer(s, s', t)
  {
    var n, job, i := |s.bls|, s.th[t].job, s.th[t].pc.i;
    var th' := ProbeStep(s, t).th[t];
    assert ThreadShape(s.bs, n, s.th[t]);
    NextIsNearer(n, job, i);
    if s.th[t].pc.CmpInc? || s.th[t].pc.CmpRead? || s.th[t].pc.CmpDec? { CompareGoes(s, t); } else { LookGoes(s, t); }
    if GoesOn(n, s.th[t], th', i, NextSlot(n, job, i)) { GoesNearer(n, s.th[t], th', s.fl.pcs[t], i, NextSlot(n, job, i)); }
    else { GoesNearer(n, s.th[t], th', s.fl.pcs[t], i, AfterRemoved(n, job, i)); }
  }

  lemma SwapNearer(s: State, t: nat)
    requires Shape(s) && t < |s.th| && (s.th[t].pc.SwapSlot? || s.th[t].pc.Unlink?) && PcOk(s, t)
    requires Shape(SwapStep(s, t))
    ensures var s' := SwapStep(s, t);
      |s'.th| == |s.th| && |s'.bls| == |s.bls| && (Loses(s, s', t) || Nearer(s, s', t))
  {
    assert ThreadShape(s.bs, |s.bls|, s.th[t]);
  }

  lemma CopyNearer(s: State, t: nat)
    requires Shape(s) && t < |s.th| && Reading(s.th[t].pc) && !s.th[t].pc.GetDec?
    requires Shape(ReadStep(s, t))
    ensures var s' := ReadStep(s, t); |s'.th| == |s.th| && |s'.bls| == |s.bls| && Nearer(s, s', t)
  {
    assert ThreadShape(s.bs, |s.bls|, s.th[t]);
  }

  lemma ReadNearer(s: State, t: nat)
    requires Shape(s) && t < |s.th| && Reading(s.th[t].pc)
    requires Shape(ReadStep(s, t))
    ensures var s' := ReadStep(s, t); |s'.th| == |s.th| && |s'.bls| == |s.bls| && Nearer(s, s', t)
  {
    if s.th[t].pc.GetDec? { assert ThreadShape(s.bs, |s.bls|, s.th[t]); } else { CopyNearer(s, t); }
  }

  lemma FreeNearer(s: State, t: nat)
    requires Shape(s) && t < |s.th| && AtFree(s.th[t].pc) && FlPcOk(s, t)
    requires Shape(FreeStep(s, t))
    ensures var s' := FreeStep(s, t);
      |s'.th| == |s.th| && |s'.bls| == |s.bls| && (Loses(s, s', t) || Nearer(s, s', t))
  {
    assert ThreadShape(s.bs, |s.bls|, s.th[t]);
  }

  /** Every step of a thread inside a call brings it nearer to its return, or loses a swap. */
  lemma StepAdvances(s: State, k: Tick)
    requires Inv(s) && k.t < |s.th| && !s.th[k.t].pc.Idle? && Short(s, k.t) && Inv(Step(s, k))
    ensures |Step(s, k).th| == |s.th| && |Step(s, k).bls| == |s.bls|
    ensures Loses(s, Step(s, k), k.t) || Nearer(s, Step(s, k), k.t)
  {
    var t, pc := k.t, s.th[k.t].pc;
    assert FlPcOk(s, t) && PcOk(s, t);
    if pc.Done? { }
    else if pc.Popping? || Filling(pc) { AllocNearer(s, t); }
    else if pc.SwapSlot? || pc.Unlink? { SwapNearer(s, t); }
    else if AtFree(pc) { FreeNearer(s, t); }
    else if Reading(pc) { ReadNearer(s, t); }
    else { LookNearer(s, t); }
  }

  // ---------------------------------------------------------------- over whole runs

  lemma ShortMoves(s: State, s': State, t: nat)
    requires t < |s.th| == |s'.th| && 0 < |s.bls| == |s'.bls| && Short(s, t) && Calling(s.th[t]) && Seeks(s, s', t)
    ensures Short(s', t)
  {
  }

  lemma ShortStep(s: State, k: Tick, t: nat)
    requires SearchInv(s) && t < |s.th| && Inv(Step(s, k)) && Short(s, t)
    ensures |Step(s, k).th| == |s.th| && Short(Step(s, k), t)
  {
    SameSizes(s, k);
    if k.t != t { OthersStay(s, k, t); }
    else if Calling(s.th[t]) {
      if s.th[t].pc.Done? { ReturnsToIdle(s, k); } else { CallSeeks(s, k); ShortMoves(s, Step(s, k), t); }
    } else if Calling(Step(s, k).th[t]) {
      CallBegins(s, k, t);
      BeginsIdle(s, k);
    } else if s.th[t].job.Put? && !s.th[t].pc.Idle? {
      StepCall(s, k, t);
    }
  }

  lemma {:induction false} RunShort(bs: nat, dat: seq<Str>, threads: nat, sched: seq<Tick>, t: nat)
    requires WellSized(bs, dat) && t < threads
    ensures t < |Run(bs, dat, threads, sched).th| && Short(Run(bs, dat, threads, sched), t)
  {
    RunSizes(bs, dat, threads, sched);
    if sched == [] {
      ShortAtStart(bs, dat, threads, t);
    } else {
      var rest, k := sched[..|sched| - 1], sched[|sched| - 1];
      RunShort(bs, dat, threads, rest, t);
      RunSearches(bs, dat, threads, rest);
      ShortStep(Run(bs, dat, threads, rest), k, t);
    }
  }

  lemma ShortAtStart(bs: nat, dat: seq<Str>, threads: nat, t: nat)
    requires WellSized(bs, dat) && t < threads
    ensures t < |Init(bs, dat, threads).th| && Short(Init(bs, dat, threads), t)
  {
  }

  predicate Advances(s: State, s': State, k: Tick, t: nat)
    requires Shape(s) && Shape(s')
  {
    && t < |s.th| == |s'.th| && |s'.bls| == |s.bls|
    && (k.t != t ==> s'.th[t] == s.th[t] && s'.fl.pcs[t] == s.fl.pcs[t])
    && (k.t == t && !s.th[t].pc.Idle? ==> Loses(s, s', t) || Nearer(s, s', t))
  }

  /** In every run, each step of a thread inside a call loses a swap or brings the call nearer to its return; and what
      is left of a call changes by no step of another thread. */
  lemma CallsAdvance(bs: nat, dat: seq<Str>, threads: nat, sched: seq<Tick>, k: Tick, t: nat)
    requires WellSized(bs, dat) && t < threads
    ensures var s := Run(bs, dat, threads, sched); Inv(Step(s, k)) && Advances(s, Step(s, k), k, t)
  {
    var s := Run(bs, dat, threads, sched);
    RunShort(bs, dat, threads, sched, t);
    StepKeeps(s, k);
    AdvancesOwn(s, k, t);
  }

  lemma AdvancesOwn(s: State, k: Tick, t: nat)
    requires Inv(s) && t < |s.th| && Short(s, t) && Inv(Step(s, k))
    ensures Advances(s, Step(s, k), k, t)
  {
    SameSizes(s, k);
    if k.t != t {
      OthersStay(s, k, t);
      OthersList(s, k, t);
    } else if !s.th[t].pc.Idle? {
      StepAdvances(s, k);
    }
  }

  // ---------------------------------------------------------------- the order of the slots

  /** Thread t comes to its slots at the remainder of its hash, goes from a slot only to the one behind it on the
      circle, and a del never comes to the one in front of the first. */
  predicate InOrder(s: State, s': State, t: nat)
    requires t < |s.th| == |s'.th| && 0 < |s.bls|
  {
    var n, job, a, b := |s.bls|, s'.th[t].job, Where(s.th[t].pc), Where(s'.th[t].pc);
    b.Some? ==>
      && (if a.None? then b.value.i == job.hash % n && s'.th[t].pc == LoadSlot(job.hash % n)
          else b.value.i == a.value.i || b.value.i == if a.value.i == n - 1 then 0 else a.value.i + 1)
      && (job.Del? ==> b.value.i != if job.hash % n == 0 then n - 1 else job.hash % n - 1)
  }

  lemma OwnInOrder(s: State, k: Tick)
    requires SearchInv(s) && k.t < |s.th| == |Step(s, k).th| && Inv(Step(s, k)) && |Step(s, k).bls| == |s.bls|
    requires Short(Step(s, k), k.t)
    ensures InOrder(s, Step(s, k), k.t)
  {
    var s', t := Step(s, k), k.t;
    if s.th[t].pc.Done? { ReturnsToIdle(s, k); }
    else if Searching(s.th[t]) { SearchMoves(s, k); }
    else if Calling(s.th[t]) { CallSeeks(s, k); }
    else if Searching(s'.th[t]) { SearchBegins(s, k, t); }
    else if Calling(s'.th[t]) { CallBegins(s, k, t); BeginsIdle(s, k); }
    assert ThreadShape(s.bs, |s.bls|, s.th[t]);
  }

  /** In every run a call looks at the slots in this order. */
  lemma ProbesInOrder(bs: nat, dat: seq<Str>, threads: nat, sched: seq<Tick>, k: Tick, t: nat)
    requires WellSized(bs, dat) && t < threads
    ensures var s := Run(bs, dat, threads, sched);
      t < |s.th| == |Step(s, k).th| && 0 < |s.bls| && InOrder(s, Step(s, k), t)
  {
    var s := Run(bs, dat, threads, sched);
    RunSizes(bs, dat, threads, sched);
    RunShort(bs, dat, threads, sched, t);
    RunSearches(bs, dat, threads, sched);
    StepKeeps(s, k);
    SameSizes(s, k);
    ShortStep(s, k, t);
    if k.t != t { OthersStay(s, k, t); StaysInOrder(s, Step(s, k), t); } else { OwnInOrder(s, k); }
  }

  lemma StaysInOrder(s: State, s': State, t: nat)
    requires t < |s.th| == |s'.th| && 0 < |s.bls| == |s'.bls| && s'.th[t] == s.th[t] && Short(s', t)
    ensures InOrder(s, s', t)
  {
  }
}
