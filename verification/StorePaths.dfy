/** The probe path with any number of threads: no search, and no lookup, has an EMPTY slot behind it. */
module StorePaths {
  import opened Bytes
  import opened Options
  import Circle
  import opened Handles
  import opened StoreSteps
  import opened StoreInvariant
  import opened StoreAlloc
  import opened StoreRuns
  import opened StorePins
  import opened StoreSearch

  /** No slot from home up to, and without, slot i is EMPTY. */
  ghost predicate Covered(s: State, home: nat, i: nat)
    requires home < |s.slots| && i < |s.slots|
  {
    var n := |s.slots|;
    forall x | 0 <= x < n && Circle.PosOf(n, home, x) < Circle.PosOf(n, home, i) :: s.slots[x].idx != EMPTY
  }

  ghost predicate PathOk(s: State, i: nat)
    requires i < |s.slots|
  {
    Live(s.slots[i]) ==>
      s.slots[i].ver in s.incs && Covered(s, Circle.Home(s.incs[s.slots[i].ver].hash, |s.slots|), i)
  }

  ghost predicate SpotOk(s: State, t: nat)
    requires t < |s.th|
  {
    var at := Where(s.th[t].pc);
    Searching(s.th[t]) && at.Some? ==>
      && at.value.i < |s.slots| && Covered(s, Home(|s.slots|, s.th[t].job), at.value.i)
      && (at.value.seen.Some? ==> s.slots[at.value.i].idx != EMPTY)
  }

  predicate LossOk(s: State, t: nat)
    requires t < |s.th|
  {
    GivenUp(s.th[t].pc) ==> s.th[t].job.Put? && Abandons(s, s.th[t].mine)
  }

  ghost predicate SearchInv(s: State) {
    && Inv(s)
    && (forall i | 0 <= i < |s.slots| :: PathOk(s, i))
    && (forall t | 0 <= t < |s.th| :: SpotOk(s, t))
    && (forall t | 0 <= t < |s.th| :: LossOk(s, t))
    && (forall t | 0 <= t < |s.th| :: Compared(s, t))
  }

  /** Slots that were not EMPTY stay so. */
  predicate Fuller(s: State, s': State) {
    |s'.slots| == |s.slots| && forall x | 0 <= x < |s.slots| && s.slots[x].idx != EMPTY :: s'.slots[x].idx != EMPTY
  }

  lemma StepIsFuller(s: State, k: Tick)
    requires Inv(s) && Shape(Step(s, k)) && |Step(s, k).slots| == |s.slots|
    ensures Fuller(s, Step(s, k))
  {
    forall x | 0 <= x < |s.slots| && s.slots[x].idx != EMPTY ensures Step(s, k).slots[x].idx != EMPTY {
      SlotsNeverEmptyAgain(s, k, x);
    }
  }

  lemma CoveredOn(s: State, s': State, home: nat, i: nat)
    requires home < |s.slots| && i < |s.slots| && Covered(s, home, i) && Fuller(s, s')
    ensures Covered(s', home, i)
  {
  }

  lemma CoveredNext(s: State, home: nat, i: nat)
    requires home < |s.slots| && i < |s.slots| && Covered(s, home, i) && s.slots[i].idx != EMPTY
    requires i != Circle.Prev(|s.slots|, home)
    ensures Circle.Next(|s.slots|, i) < |s.slots| && Covered(s, home, Circle.Next(|s.slots|, i))
  {
    Circle.NextPos(|s.slots|, home, i);
    forall x | 0 <= x < |s.slots| && Circle.PosOf(|s.slots|, home, x) == Circle.PosOf(|s.slots|, home, i) ensures x == i {
      assert Circle.Pos(|s.slots|, home, Circle.PosOf(|s.slots|, home, x)) == x;
      assert Circle.Pos(|s.slots|, home, Circle.PosOf(|s.slots|, home, i)) == i;
    }
  }

  /** A slot changes only by the swap of a put or a del. */
  lemma SlotChange(s: State, k: Tick, i: nat)
    requires Inv(s) && i < |s.slots| && Shape(Step(s, k)) && |Step(s, k).slots| == |s.slots|
    requires Step(s, k).slots[i] != s.slots[i]
    ensures k.t < |s.th| && s.th[k.t].pc == SwapSlot(i, s.slots[i])
    ensures Step(s, k).slots[i] == if s.th[k.t].job.Put? then s.th[k.t].mine else TOMBSTONE
    ensures !s.th[k.t].job.Put? ==> Live(s.slots[i])
  {
    if k.t < |s.th| && s.th[k.t].pc.SwapSlot? { SwapChange(s, k.t, i); } else { SlotsKept(s, k); }
  }

  lemma SwapChange(s: State, t: nat, i: nat)
    requires Shape(s) && t < |s.th| && s.th[t].pc.SwapSlot? && i < |s.slots| == |SwapStep(s, t).slots|
    requires SwapStep(s, t).slots[i] != s.slots[i]
    ensures s.th[t].pc == SwapSlot(i, s.slots[i])
    ensures SwapStep(s, t).slots[i] == if s.th[t].job.Put? then s.th[t].mine else TOMBSTONE
    ensures !s.th[t].job.Put? ==> Live(s.slots[i])
  {
    assert ThreadShape(s.bs, |s.bls|, s.th[t]);
  }

  lemma SlotsKept(s: State, k: Tick)
    requires Shape(s) && (k.t < |s.th| ==> !s.th[k.t].pc.SwapSlot?)
    ensures Step(s, k).slots == s.slots
  {
    if k.t < |s.th| { assert ThreadShape(s.bs, |s.bls|, s.th[k.t]); }
  }

  lemma PathKept(s: State, k: Tick, i: nat)
    requires SearchInv(s) && i < |s.slots| && Inv(Step(s, k)) && |Step(s, k).slots| == |s.slots| && Fuller(s, Step(s, k))
    ensures PathOk(Step(s, k), i)
  {
    var s' := Step(s, k);
    assert PathOk(s, i);
    if s'.slots[i] == s.slots[i] {
      if Live(s.slots[i]) {
        IncsGrow(s, k, s.slots[i].ver);
        CoveredOn(s, s', Circle.Home(s.incs[s.slots[i].ver].hash, |s.slots|), i);
      }
    } else {
      SlotChange(s, k, i);
      if s.th[k.t].job.Put? { PathAtSwap(s, k, i); }
    }
  }

  lemma PathAtSwap(s: State, k: Tick, i: nat)
    requires SearchInv(s) && i < |s.slots| && Inv(Step(s, k)) && |Step(s, k).slots| == |s.slots| && Fuller(s, Step(s, k))
    requires k.t < |s.th| && s.th[k.t].pc == SwapSlot(i, s.slots[i]) && s.th[k.t].job.Put?
    requires Step(s, k).slots[i] == s.th[k.t].mine
    ensures PathOk(Step(s, k), i)
  {
    var s', th := Step(s, k), s.th[k.t];
    assert PcOk(s, k.t) && ThreadShape(s.bs, |s.bls|, th) && SpotOk(s, k.t);
    assert BlockOk(s, th.mine.idx);
    IncsGrow(s, k, th.mine.ver);
    CoveredOn(s, s', Home(|s.slots|, th.job), i);
  }

  // ---------------------------------------------------------------- every step keeps it

  lemma SpotOfOther(s: State, s': State, t: nat)
    requires t < |s.th| == |s'.th| && SpotOk(s, t) && s'.th[t] == s.th[t] && Fuller(s, s')
    ensures SpotOk(s', t)
  {
  }

  lemma SpotOfMover(s: State, s': State, t: nat)
    requires t < |s.th| == |s'.th| && 0 < |s.bls| == |s.slots| && Moves(s, s', t)
    requires Searching(s.th[t]) && SpotOk(s, t) && Fuller(s, s')
    requires Passes(s, s', t) ==> Where(s.th[t].pc).value.i < |s.slots|
    ensures SpotOk(s', t)
  {
    var a, home := Where(s.th[t].pc), Home(|s.slots|, s.th[t].job);
    if a.Some? && Where(s'.th[t].pc).Some? {
      if Stays(s, s', t) {
        CoveredOn(s, s', home, a.value.i);
      } else if Passes(s, s', t) {
        CoveredNext(s, home, a.value.i);
        CoveredOn(s, s', home, Circle.Next(|s.slots|, a.value.i));
      }
    }
  }

  /** A search that begins has nothing behind it. */
  lemma SpotOfBeginner(s: State, s': State, t: nat)
    requires t < |s.th| == |s'.th| && 0 < |s.bls| == |s'.slots|
    requires Where(s'.th[t].pc) == Some(Spot(Home(|s.bls|, s'.th[t].job), None))
    ensures SpotOk(s', t)
  {
  }

  lemma SpotKept(s: State, k: Tick, t: nat)
    requires Inv(s) && t < |s.th| == |Step(s, k).th| && SpotOk(s, t) && Shape(Step(s, k)) && Fuller(s, Step(s, k))
    ensures SpotOk(Step(s, k), t)
  {
    if k.t != t {
      OthersStay(s, k, t);
      SpotOfOther(s, Step(s, k), t);
    } else if Searching(s.th[t]) && !s.th[t].pc.Done? {
      SearchMoves(s, k);
      SpotOfMover(s, Step(s, k), t);
    } else if !Searching(s.th[t]) && Searching(Step(s, k).th[t]) {
      SearchBegins(s, k, t);
      SpotOfBeginner(s, Step(s, k), t);
    } else if s.th[t].pc.Done? {
      ReturnsToIdle(s, k);
    }
  }

  lemma ReturnsToIdle(s: State, k: Tick)
    requires Shape(s) && k.t < |s.th| && s.th[k.t].pc.Done?
    ensures k.t < |Step(s, k).th| && Step(s, k).th[k.t].pc.Idle?
  {
  }

  lemma LossKept(s: State, k: Tick, t: nat)
    requires Inv(s) && t < |s.th| == |Step(s, k).th| && LossOk(s, t) && Shape(Step(s, k))
    ensures LossOk(Step(s, k), t)
  {
    var s' := Step(s, k);
    if GivenUp(s'.th[t].pc) {
      if k.t != t {
        OthersStay(s, k, t);
        StrayStep(s, k, s.th[t].mine.idx, s.th[t].mine.ver);
      } else if s.th[t].pc.Done? {
        ReturnsToIdle(s, k);
      } else if GivenUp(s.th[t].pc) {
        SearchMoves(s, k);
        StrayStep(s, k, s.th[t].mine.idx, s.th[t].mine.ver);
      } else {
        GivingUpLoses(s, k);
        SearchMoves(s, k);
      }
    }
  }

  lemma ComparedKept(s: State, k: Tick, t: nat)
    requires Inv(s) && t < |s.th| == |Step(s, k).th| && Compared(s, t) && Shape(Step(s, k))
    ensures Compared(Step(s, k), t)
  {
    var s' := Step(s, k);
    if s'.th[t].pc.CmpDec? && !s'.th[t].pc.eq {
      if k.t != t {
        OthersStay(s, k, t);
        IncsGrow(s, k, s.th[t].pc.vi.ver);
      } else {
        ComparesFromRead(s, k);
        CompareTells(s, t);
      }
    }
  }

  lemma ComparesFromRead(s: State, k: Tick)
    requires Shape(s) && k.t < |s.th| == |Step(s, k).th| && Step(s, k).th[k.t].pc.CmpDec?
    ensures s.th[k.t].pc.CmpRead?
  {
    var pc := s.th[k.t].pc;
    assert ThreadShape(s.bs, |s.bls|, s.th[k.t]);
    if pc.Idle? || pc.Done? { }
    else if pc.Popping? || Filling(pc) { AllocComparesNot(s, k.t); }
    else if pc.SwapSlot? || pc.Unlink? { SwapComparesNot(s, k.t); }
    else if AtFree(pc) { }
    else if Reading(pc) { ReadComparesNot(s, k.t); }
    else { ProbeCompares(s, k.t); }
  }

  lemma AllocComparesNot(s: State, t: nat)
    requires Shape(s) && t < |s.th| && (s.th[t].pc.Popping? || Filling(s.th[t].pc))
    ensures |AllocStep(s, t).th| == |s.th| && !AllocStep(s, t).th[t].pc.CmpDec?
  {
    assert ThreadShape(s.bs, |s.bls|, s.th[t]);
  }

  lemma SwapComparesNot(s: State, t: nat)
    requires Shape(s) && t < |s.th| && (s.th[t].pc.SwapSlot? || s.th[t].pc.Unlink?)
    ensures |SwapStep(s, t).th| == |s.th| && !SwapStep(s, t).th[t].pc.CmpDec?
  {
    assert ThreadShape(s.bs, |s.bls|, s.th[t]);
  }

  lemma ReadComparesNot(s: State, t: nat)
    requires Shape(s) && t < |s.th| && Reading(s.th[t].pc)
    ensures |ReadStep(s, t).th| == |s.th| && !ReadStep(s, t).th[t].pc.CmpDec?
  {
    assert ThreadShape(s.bs, |s.bls|, s.th[t]);
  }

  lemma ProbeCompares(s: State, t: nat)
    requires Shape(s) && t < |s.th|
    requires var pc := s.th[t].pc;
      pc.LoadSlot? || pc.CkHash? || pc.CkVer? || pc.CkLen? || pc.CmpInc? || pc.CmpRead? || pc.CmpDec?
    ensures |ProbeStep(s, t).th| == |s.th| && (ProbeStep(s, t).th[t].pc.CmpDec? ==> s.th[t].pc.CmpRead?)
  {
    assert ThreadShape(s.bs, |s.bls|, s.th[t]);
  }

  lemma SearchKeeps(s: State, k: Tick)
    requires SearchInv(s)
    ensures SearchInv(Step(s, k))
  {
    StepKeeps(s, k);
    var s' := Step(s, k);
    SameSizes(s, k);
    StepIsFuller(s, k);
    forall i | 0 <= i < |s'.slots| ensures PathOk(s', i) { PathKept(s, k, i); }
    forall t | 0 <= t < |s'.th| ensures SpotOk(s', t) && LossOk(s', t) && Compared(s', t) {
      SpotKept(s, k, t);
      LossKept(s, k, t);
      ComparedKept(s, k, t);
    }
  }

  lemma SameSizes(s: State, k: Tick)
    requires Shape(s) && Shape(Step(s, k))
    ensures |Step(s, k).slots| == |s.slots| && |Step(s, k).th| == |s.th| && |Step(s, k).bls| == |s.bls|
  {
    if k.t < |s.th| { assert ThreadShape(s.bs, |s.bls|, s.th[k.t]); }
  }

  lemma {:induction false} RunSearches(bs: nat, dat: seq<Str>, threads: nat, sched: seq<Tick>)
    requires WellSized(bs, dat)
    ensures SearchInv(Run(bs, dat, threads, sched))
  {
    if sched == [] {
      var s := Init(bs, dat, threads);
      forall t | 0 <= t < |s.th| ensures SpotOk(s, t) && LossOk(s, t) && Compared(s, t) { }
    } else {
      RunSearches(bs, dat, threads, sched[..|sched| - 1]);
      SearchKeeps(Run(bs, dat, threads, sched[..|sched| - 1]), sched[|sched| - 1]);
    }
  }

  // ---------------------------------------------------------------- over whole runs

  /** After any schedule, no slot between the home of a key in the table and the slot it stands in is EMPTY. */
  lemma PathsAreFilled(bs: nat, dat: seq<Str>, threads: nat, sched: seq<Tick>, i: nat, x: nat)
    requires WellSized(bs, dat)
    requires var s := Run(bs, dat, threads, sched);
      && i < |s.slots| && Live(s.slots[i]) && s.slots[i].ver in s.incs && x < |s.slots|
      && var home := Circle.Home(s.incs[s.slots[i].ver].hash, |s.slots|);
      Circle.PosOf(|s.slots|, home, x) < Circle.PosOf(|s.slots|, home, i)
    ensures Run(bs, dat, threads, sched).slots[x].idx != EMPTY
  {
    RunSearches(bs, dat, threads, sched);
    assert PathOk(Run(bs, dat, threads, sched), i);
  }

  /** In every run, the list of a put that has given up is in no slot and its block is lost. */
  lemma GivenUpIsLost(bs: nat, dat: seq<Str>, threads: nat, sched: seq<Tick>, t: nat)
    requires WellSized(bs, dat)
    requires var s := Run(bs, dat, threads, sched); t < |s.th| && GivenUp(s.th[t].pc)
    ensures var s := Run(bs, dat, threads, sched);
      s.th[t].job.Put? && Stray(s, s.th[t].mine.idx, s.th[t].mine.ver)
  {
    RunSearches(bs, dat, threads, sched);
    assert LossOk(Run(bs, dat, threads, sched), t);
  }
}
