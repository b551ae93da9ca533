/** The shared-memory store over whole runs: what holds after any schedule of any number of threads. */
module StoreRuns {
  import opened Bytes
  import opened Chains
  import opened Handles
  import opened StoreSteps
  import opened StoreInvariant
  import opened StoreProbe
  import opened StoreSwap
  import opened StoreAlloc
  import FL = FreeListSteps

  /** The scheduler picks a thread, and what it calls next in case it is idle. */
  datatype Tick = Tick(t: nat, job: Job)

  function Step(s: State, k: Tick): State
    requires Shape(s)
  {
    if k.t < |s.th| then Next(s, k.t, k.job) else s
  }

  predicate WellSized(bs: nat, dat: seq<Str>) {
    0 < bs && 0 < |dat| < DELETED && forall b | 0 <= b < |dat| :: |dat[b]| == bs
  }

  lemma InitInv(bs: nat, dat: seq<Str>, threads: nat)
    requires WellSized(bs, dat)
    ensures Inv(Init(bs, dat, threads))
  {
    var s := Init(bs, dat, threads);
    FL.InitInv(|dat|, threads);
    forall b | 0 <= b < |s.bls| ensures ReadersOk(s, b) && BlockOk(s, b) && s.fl.place[b] == Below(s, b) { }
    forall t | 0 <= t < |s.th| ensures FlPcOk(s, t) && PcOk(s, t) { }
    forall v ensures IncOk(s, v) { }
    forall i | 0 <= i < |s.slots| ensures SlotOk(s, i) { }
  }

  /** Beginning a call: a put loads the head of the free list, a get or del goes to its first slot. */
  lemma StartOwn(s: State, t: nat, job: Job)
    requires Shape(s) && t < |s.th| && s.th[t].pc.Idle? && OneBlock(s.bs, job)
    requires PcOk(s, t) && FlPcOk(s, t) && ThreadShape(s.bs, |s.bls|, s.th[t])
    ensures var s' := Start(s, t, job);
      Shape(s') && OwnStep(s, s', t, |s.bls|) && FlPcOk(s', t) && PcOk(s', t) && s'.incs == s.incs && s'.ver == s.ver
  {
    var s' := Start(s, t, job);
    assert s'.th == s.th[t := s'.th[t]];
  }

  lemma StartKeeps(s: State, t: nat, job: Job)
    requires Inv(s) && t < |s.th| && s.th[t].pc.Idle?
    ensures Inv(Start(s, t, job))
  {
    var s' := Start(s, t, job);
    if OneBlock(s.bs, job) {
      assert PcOk(s, t) && FlPcOk(s, t) && ThreadShape(s.bs, |s.bls|, s.th[t]);
      if job.Put? { FL.StartPopInv(s.fl, t); }
      StartOwn(s, t, job);
      forall v ensures IncOk(s', v) { assert IncOk(s, v); }
      OwnStepKeeps(s, s', t, |s.bls|);
    }
  }

  lemma StepKeeps(s: State, k: Tick)
    requires Inv(s)
    ensures Inv(Step(s, k))
  {
    if k.t < |s.th| {
      var pc := s.th[k.t].pc;
      if pc.Idle? { StartKeeps(s, k.t, k.job); }
      else if pc.Done? { Move(s, k.t, Idle); }
      else if pc.Popping? || Filling(pc) { AllocKeeps(s, k.t); }
      else if pc.SwapSlot? || pc.Unlink? { SwapKeeps(s, k.t); }
      else if AtFree(pc) { FreeKeeps(s, k.t); }
      else if pc.GetInc? || pc.RdInc? || pc.RdCopy? || pc.RdDec? || pc.GetDec? { ReadKeeps(s, k.t); }
      else { ProbeKeeps(s, k.t); }
    }
  }

  /** The state after a schedule, from n free blocks, empty slots and idle threads. */
  ghost function Run(bs: nat, dat: seq<Str>, threads: nat, sched: seq<Tick>): (s: State)
    requires WellSized(bs, dat)
    ensures Inv(s)
  {
    if sched == [] then InitInv(bs, dat, threads); Init(bs, dat, threads)
    else
      var s := Run(bs, dat, threads, sched[..|sched| - 1]);
      StepKeeps(s, sched[|sched| - 1]);
      Step(s, sched[|sched| - 1])
  }

  // ---------------------------------------------------------------- what a step leaves alone

  /** A step of one thread is no step of another. */
  lemma OthersStay(s: State, k: Tick, t: nat)
    requires Shape(s) && t < |s.th| && k.t != t
    ensures |Step(s, k).th| == |s.th| && Step(s, k).th[t] == s.th[t]
  {
    if k.t < |s.th| { assert ThreadShape(s.bs, |s.bls|, s.th[k.t]); }
  }

  /** Nor does it move another thread inside the free list. */
  lemma OthersList(s: State, k: Tick, t: nat)
    requires Shape(s) && t < |s.th| && k.t != t
    ensures t < |Step(s, k).fl.pcs| && Step(s, k).fl.pcs[t] == s.fl.pcs[t]
  {
    if k.t < |s.th| { assert ThreadShape(s.bs, |s.bls|, s.th[k.t]); }
  }

  /** What a step does to the history of allocations: it only adds to it. */
  lemma IncsGrow(s: State, k: Tick, v: nat)
    requires Inv(s) && v in s.incs
    ensures v in Step(s, k).incs && Step(s, k).incs[v] == s.incs[v]
  {
    if k.t < |s.th| { assert IncOk(s, s.ver) && ThreadShape(s.bs, |s.bls|, s.th[k.t]); }
  }

  // ---------------------------------------------------------------- one place per block

  /** After any run each block is in exactly one place, and its place says what the shared memory holds: a block
      is on the free list iff it is Free; a slot is live iff its block is Published there under its version;
      a published list is not marked deleted; and two slots never name one block. */
  lemma EveryBlockIsInOnePlace(bs: nat, dat: seq<Str>, threads: nat, sched: seq<Tick>)
    requires WellSized(bs, dat)
    ensures var s := Run(bs, dat, threads, sched);
      && Chain(s.fl.lv, s.fl.head.idx, s.fl.list)
      && (forall b | 0 <= b < |s.bls| :: b in s.fl.list <==> s.place[b] == Free)
      && (forall i, b | 0 <= i < |s.slots| && 0 <= b < |s.bls| ::
            (Live(s.slots[i]) && s.slots[i].idx == b) <==> s.place[b] == Published(i, s.slots[i].ver))
      && (forall b | 0 <= b < |s.bls| && s.place[b].Published? ::
            s.bls[b].version == s.place[b].v && !s.bls[b].deleted)
      && (forall i, j | 0 <= i < j < |s.slots| && Live(s.slots[i]) && Live(s.slots[j]) ::
            s.slots[i].idx != s.slots[j].idx)
  {
    var s := Run(bs, dat, threads, sched);
    forall b | 0 <= b < |s.bls|
      ensures b in s.fl.list <==> s.place[b] == Free
      ensures s.place[b].Published? ==> s.bls[b].version == s.place[b].v && !s.bls[b].deleted
    {
      assert FL.PlaceOk(s.fl, b) && s.fl.place[b] == Below(s, b) && BlockOk(s, b);
    }
    forall i, b | 0 <= i < |s.slots| && 0 <= b < |s.bls|
      ensures (Live(s.slots[i]) && s.slots[i].idx == b) <==> s.place[b] == Published(i, s.slots[i].ver)
    {
      assert SlotOk(s, i) && BlockOk(s, b);
    }
    forall i, j | 0 <= i < j < |s.slots| && Live(s.slots[i]) && Live(s.slots[j])
      ensures s.slots[i].idx != s.slots[j].idx
    {
      assert SlotOk(s, i) && SlotOk(s, j);
    }
  }

  // ---------------------------------------------------------------- readers

  /** While a thread holds a reader of a list, the list keeps its version and its bytes, is not on the free
      list nor on its way there, and its count says how many readers there are. */
  lemma ReadersProtectTheirList(bs: nat, dat: seq<Str>, threads: nat, sched: seq<Tick>, t: nat, vi: VerIdx)
    requires WellSized(bs, dat)
    requires var s := Run(bs, dat, threads, sched); t < |s.th| && Holds(s.th[t].pc, vi) > 0
    ensures var s := Run(bs, dat, threads, sched);
      && Known(s, vi) && Current(s, vi)
      && vi.idx !in s.fl.list && !s.place[vi.idx].Returning?
      && s.incs[vi.ver].key + s.incs[vi.ver].val <= s.dat[vi.idx]
      && s.bls[vi.idx].readers == SumHolds(s.th, vi) + s.leaks[vi.idx]
  {
    var s := Run(bs, dat, threads, sched);
    assert PcOk(s, t);
    KnownIsNumbered(s, vi);
    HeldIsShared(s, t, vi);
    assert ReadersOk(s, vi.idx) && FL.PlaceOk(s.fl, vi.idx) && s.fl.place[vi.idx] == Below(s, vi.idx);
  }

  /** A handle that alloc ever gave out names one allocation, and incReaders accepts it only while that very
      list is with its put, in a slot, just taken out of one, or abandoned: never after it was freed, however
      often its block was reused. */
  lemma StaleHandlesStayDead(bs: nat, dat: seq<Str>, threads: nat, sched: seq<Tick>, v: nat)
    requires WellSized(bs, dat)
    requires v in Run(bs, dat, threads, sched).incs
    ensures var s := Run(bs, dat, threads, sched);
      var b := s.incs[v].idx;
      b < |s.bls| && Admits(s.bls[b], v) ==>
        match s.place[b]
        case Private(_, w) => w == v
        case Published(_, w) => w == v
        case Unlinked(_, w) => w == v
        case Lost(w) => w == v
        case _ => false
  {
    var s := Run(bs, dat, threads, sched);
    var b := s.incs[v].idx;
    assert IncOk(s, v);
    if b < |s.bls| && Admits(s.bls[b], v) { assert BlockOk(s, b); }
  }

  /** What get copies out is, whole and unmixed, a value that some put stored under exactly this key. */
  lemma GetReturnsAValueThatWasPut(bs: nat, dat: seq<Str>, threads: nat, sched: seq<Tick>, t: nat)
    requires WellSized(bs, dat)
    requires var s := Run(bs, dat, threads, sched); t < |s.th| && s.th[t].pc.Done? && s.th[t].pc.r.Hit?
    ensures var s := Run(bs, dat, threads, sched);
      exists v :: v in s.pub && v in s.incs && s.incs[v].key == s.th[t].job.key && s.incs[v].val == s.th[t].pc.r.bytes
  {
    assert PcOk(Run(bs, dat, threads, sched), t);
  }

  // ---------------------------------------------------------------- conservation

  predicate AtRest(s: State, b: nat)
    requires b < |s.place| == |s.bls| == |s.leaks|
  {
    match s.place[b]
    case Free => b in s.fl.list
    case Published(i, v) => i < |s.slots| && s.slots[i] == VerIdx(b, v) && s.bls[b].readers == s.leaks[b]
    case Condemned(_) => s.bls[b].readers == s.leaks[b] > 0
    case Lost(_) => true
    case _ => false
  }

  lemma QuiescentBlock(s: State, b: nat)
    requires Inv(s) && b < |s.bls| && forall t | 0 <= t < |s.th| :: s.th[t].pc.Idle? || s.th[t].pc.Done?
    ensures AtRest(s, b)
  {
    assert BlockOk(s, b) && ReadersOk(s, b) && FL.PlaceOk(s.fl, b) && s.fl.place[b] == Below(s, b);
    SumZero(s.th, VerIdx(b, s.bls[b].version));
    if s.place[b].Published? || s.place[b].Condemned? { assert IncOk(s, s.place[b].v); }
  }

  /** Once all calls have returned, every block is on the free list, or in a slot with no reader but those
      that gets left behind, or is still deleted but unreturned because of such readers, or was lost to a put
      that gave up. */
  lemma QuiescentBlocks(bs: nat, dat: seq<Str>, threads: nat, sched: seq<Tick>, b: nat)
    requires WellSized(bs, dat)
    requires var s := Run(bs, dat, threads, sched);
      b < |s.bls| && forall t | 0 <= t < |s.th| :: s.th[t].pc.Idle? || s.th[t].pc.Done?
    ensures AtRest(Run(bs, dat, threads, sched), b)
  {
    QuiescentBlock(Run(bs, dat, threads, sched), b);
  }

  // ---------------------------------------------------------------- freed exactly once

  /** From s to s', thread t begins doFree for the list of version v. */
  predicate FreesTo(s: State, s': State, t: nat, v: nat) {
    && t < |s.th| == |s'.th| && !s.th[t].pc.Clear? && s'.th[t].pc.Clear?
    && s'.th[t].pc.b < |s.bls| && s.bls[s'.th[t].pc.b].version == v
  }

  predicate Frees(s: State, k: Tick, v: nat)
    requires Shape(s)
  {
    k.t < |s.th| && FreesTo(s, Next(s, k.t, k.job), k.t, v)
  }

  ghost function CountFrees(bs: nat, dat: seq<Str>, threads: nat, sched: seq<Tick>, v: nat): nat
    requires WellSized(bs, dat)
  {
    if sched == [] then 0
    else
      var rest, k := sched[..|sched| - 1], sched[|sched| - 1];
      CountFrees(bs, dat, threads, rest, v) + if Frees(Run(bs, dat, threads, rest), k, v) then 1 else 0
  }

  /** The list v stood in a slot once, and is no longer in one, being deleted, or waiting for its readers. */
  predicate Gone(s: State, v: nat) {
    v in s.pub && v in s.incs && s.incs[v].idx < |s.place| && !StillThere(s.place[s.incs[v].idx], v)
  }

  predicate StillThere(p: Place, v: nat) {
    match p
    case Published(_, w) => w == v
    case Unlinked(_, w) => w == v
    case Condemned(w) => w == v
    case _ => false
  }

  /** A step makes v gone exactly if it begins freeing v, and v was not gone before. */
  predicate GoneStep(s: State, s': State, t: nat, v: nat) {
    && (Gone(s', v) <==> Gone(s, v) || FreesTo(s, s', t, v))
    && !(Gone(s, v) && FreesTo(s, s', t, v))
  }

  lemma GoneAtPop(s: State, t: nat, v: nat)
    requires Shape(s) && t < |s.th| && s.th[t].pc.Popping? && FlPcOk(s, t)
    requires s.fl.pcs[t].PopLinked? && s.fl.head == s.fl.pcs[t].cur ==>
      s.fl.head.idx < |s.place| && s.place[s.fl.head.idx] == Free
    ensures GoneStep(s, AllocStep(s, t), t, v)
  {
  }

  lemma GoneAtFill(s: State, t: nat, v: nat)
    requires Shape(s) && t < |s.th| && Filling(s.th[t].pc) && PcOk(s, t) && ThreadShape(s.bs, |s.bls|, s.th[t])
    requires IncOk(s, v) && IncOk(s, s.ver)
    ensures GoneStep(s, AllocStep(s, t), t, v)
  {
  }

  lemma PoppedIsFree(s: State, t: nat)
    requires Inv(s) && t < |s.th| && s.th[t].pc.Popping?
    requires s.fl.pcs[t].PopLinked? && s.fl.head == s.fl.pcs[t].cur
    ensures s.fl.head.idx < |s.place| && s.place[s.fl.head.idx] == Free
  {
    FL.PopWinInv(s.fl, t);
    assert FL.PlaceOk(s.fl, s.fl.head.idx) && s.fl.list[0] in s.fl.list;
    assert s.fl.place[s.fl.head.idx] == Below(s, s.fl.head.idx);
  }

  lemma GoneAtSwapSlot(s: State, t: nat, v: nat)
    requires Shape(s) && t < |s.th| && s.th[t].pc.SwapSlot? && PcOk(s, t) && ThreadShape(s.bs, |s.bls|, s.th[t])
    requires SlotOk(s, s.th[t].pc.i) && BlockOk(s, s.th[t].mine.idx)
    ensures GoneStep(s, SwapStep(s, t), t, v)
  {
  }

  lemma GoneAtUnlink(s: State, t: nat, v: nat)
    requires Shape(s) && t < |s.th| && s.th[t].pc.Unlink? && PcOk(s, t) && ThreadShape(s.bs, |s.bls|, s.th[t])
    requires BlockOk(s, s.th[t].pc.vi.idx)
    ensures GoneStep(s, SwapStep(s, t), t, v)
  {
  }

  lemma GoneAtFree(s: State, t: nat, v: nat)
    requires Shape(s) && t < |s.th| && AtFree(s.th[t].pc) && PcOk(s, t) && ThreadShape(s.bs, |s.bls|, s.th[t])
    ensures GoneStep(s, FreeStep(s, t), t, v)
  {
  }

  lemma GoneAtRead(s: State, t: nat, v: nat)
    requires Shape(s) && t < |s.th| && PcOk(s, t) && ThreadShape(s.bs, |s.bls|, s.th[t])
    requires var pc := s.th[t].pc; pc.GetInc? || pc.RdInc? || pc.RdCopy?
    ensures GoneStep(s, ReadStep(s, t), t, v)
  {
  }

  lemma GoneAtReadDrop(s: State, t: nat, v: nat)
    requires Shape(s) && t < |s.th| && PcOk(s, t) && ThreadShape(s.bs, |s.bls|, s.th[t])
    requires s.th[t].pc.RdDec? || s.th[t].pc.GetDec?
    requires var vi := s.th[t].pc.vi; s.bls[vi.idx].deleted ==> s.place[vi.idx] == Condemned(vi.ver)
    ensures GoneStep(s, ReadStep(s, t), t, v)
  {
  }

  /** Short of dropping a reader, probing moves no block but the list of a put that gives up. */
  lemma ProbePlaces(s: State, t: nat)
    requires Shape(s) && t < |s.th|
    requires var pc := s.th[t].pc; pc.LoadSlot? || pc.CkHash? || pc.CkVer? || pc.CkLen? || pc.CmpInc? || pc.CmpRead?
    ensures var s' := ProbeStep(s, t);
      && s'.pub == s.pub && s'.incs == s.incs && |s'.th| == |s.th| && !s'.th[t].pc.Clear?
      && (s'.place == s.place || (s.th[t].job.Put? && s'.place == Abandon(s, t)))
  {
    assert ThreadShape(s.bs, |s.bls|, s.th[t]);
    NextSlotIsStep(|s.bls|, s.th[t].job, s.th[t].pc.i);
  }

  lemma GoneAtProbe(s: State, t: nat, v: nat)
    requires Shape(s) && t < |s.th| && PcOk(s, t) && ThreadShape(s.bs, |s.bls|, s.th[t])
    requires var pc := s.th[t].pc; pc.LoadSlot? || pc.CkHash? || pc.CkVer? || pc.CkLen? || pc.CmpInc? || pc.CmpRead?
    ensures GoneStep(s, ProbeStep(s, t), t, v)
  {
    ProbePlaces(s, t);
  }

  lemma GoneAtLastDrop(s: State, t: nat, v: nat)
    requires Shape(s) && t < |s.th| && s.th[t].pc.CmpDec? && PcOk(s, t) && ThreadShape(s.bs, |s.bls|, s.th[t])
    requires var vi := s.th[t].pc.vi; LastOut(s.bls[vi.idx], vi.ver) && s.place[vi.idx] == Condemned(vi.ver)
    ensures GoneStep(s, ProbeStep(s, t), t, v)
  {
  }

  lemma GoneAtDrop(s: State, t: nat, v: nat)
    requires Shape(s) && t < |s.th| && s.th[t].pc.CmpDec? && PcOk(s, t) && ThreadShape(s.bs, |s.bls|, s.th[t])
    requires var vi := s.th[t].pc.vi; !LastOut(s.bls[vi.idx], vi.ver)
    ensures GoneStep(s, ProbeStep(s, t), t, v)
  {
  }

  /** A list that a thread reads and that is marked deleted waits for its readers. */
  lemma HeldIsCondemned(s: State, t: nat, vi: VerIdx)
    requires Inv(s) && t < |s.th| && Known(s, vi) && Current(s, vi) && Holds(s.th[t].pc, vi) > 0
    requires s.bls[vi.idx].deleted
    ensures s.place[vi.idx] == Condemned(vi.ver)
  {
    HeldIsShared(s, t, vi);
    assert BlockOk(s, vi.idx);
  }

  lemma GoneStepHolds(s: State, k: Tick, v: nat)
    requires Inv(s)
    ensures GoneStep(s, Step(s, k), k.t, v)
  {
    if k.t < |s.th| {
      var t, pc := k.t, s.th[k.t].pc;
      assert PcOk(s, t) && ThreadShape(s.bs, |s.bls|, s.th[t]);
      if pc.Popping? || Filling(pc) { GoneAtAlloc(s, t, v); }
      else if pc.SwapSlot? || pc.Unlink? { GoneAtSwap(s, t, v); }
      else if AtFree(pc) { GoneAtFree(s, t, v); }
      else if pc.GetInc? || pc.RdInc? || pc.RdCopy? || pc.RdDec? || pc.GetDec? { GoneAtReader(s, t, v); }
      else if pc.CmpDec? { GoneAtComparer(s, t, v); }
      else if !pc.Idle? && !pc.Done? { GoneAtProbe(s, t, v); }
    }
  }

  lemma GoneAtAlloc(s: State, t: nat, v: nat)
    requires Inv(s) && t < |s.th| && (s.th[t].pc.Popping? || Filling(s.th[t].pc))
    ensures GoneStep(s, AllocStep(s, t), t, v)
  {
    assert PcOk(s, t) && FlPcOk(s, t) && IncOk(s, v) && IncOk(s, s.ver) && ThreadShape(s.bs, |s.bls|, s.th[t]);
    if s.th[t].pc.Popping? {
      if s.fl.pcs[t].PopLinked? && s.fl.head == s.fl.pcs[t].cur { PoppedIsFree(s, t); }
      GoneAtPop(s, t, v);
    } else {
      GoneAtFill(s, t, v);
    }
  }

  lemma GoneAtSwap(s: State, t: nat, v: nat)
    requires Inv(s) && t < |s.th| && (s.th[t].pc.SwapSlot? || s.th[t].pc.Unlink?)
    ensures GoneStep(s, SwapStep(s, t), t, v)
  {
    var pc := s.th[t].pc;
    assert PcOk(s, t) && ThreadShape(s.bs, |s.bls|, s.th[t]);
    if pc.SwapSlot? {
      assert SlotOk(s, pc.i) && BlockOk(s, s.th[t].mine.idx);
      GoneAtSwapSlot(s, t, v);
    } else {
      assert BlockOk(s, pc.vi.idx);
      GoneAtUnlink(s, t, v);
    }
  }

  lemma GoneAtReader(s: State, t: nat, v: nat)
    requires Inv(s) && t < |s.th|
    requires var pc := s.th[t].pc; pc.GetInc? || pc.RdInc? || pc.RdCopy? || pc.RdDec? || pc.GetDec?
    ensures GoneStep(s, ReadStep(s, t), t, v)
  {
    var pc := s.th[t].pc;
    assert PcOk(s, t) && ThreadShape(s.bs, |s.bls|, s.th[t]);
    if pc.RdDec? || pc.GetDec? {
      if s.bls[pc.vi.idx].deleted { HeldIsCondemned(s, t, pc.vi); }
      GoneAtReadDrop(s, t, v);
    } else {
      GoneAtRead(s, t, v);
    }
  }

  lemma GoneAtComparer(s: State, t: nat, v: nat)
    requires Inv(s) && t < |s.th| && s.th[t].pc.CmpDec?
    ensures GoneStep(s, ProbeStep(s, t), t, v)
  {
    var vi := s.th[t].pc.vi;
    assert PcOk(s, t) && ThreadShape(s.bs, |s.bls|, s.th[t]);
    if LastOut(s.bls[vi.idx], vi.ver) {
      HeldIsCondemned(s, t, vi);
      GoneAtLastDrop(s, t, v);
    } else {
      GoneAtDrop(s, t, v);
    }
  }

  /** Over any run each list is freed exactly once after it left its slot and its last reader, and never before
      or again: the number of doFree calls for version v is 1 once v is gone, and 0 until then. */
  lemma {:induction false} FreedExactlyOnce(bs: nat, dat: seq<Str>, threads: nat, sched: seq<Tick>, v: nat)
    requires WellSized(bs, dat)
    ensures CountFrees(bs, dat, threads, sched, v) == if Gone(Run(bs, dat, threads, sched), v) then 1 else 0
  {
    if sched != [] {
      var rest, k := sched[..|sched| - 1], sched[|sched| - 1];
      FreedExactlyOnce(bs, dat, threads, rest, v);
      GoneStepHolds(Run(bs, dat, threads, rest), k, v);
    }
  }

  /** Thread t is about to drop the last reader of the deleted list v, or to delete the list, which nobody reads. */
  predicate LastTouch(s: State, t: nat, v: nat) {
    && t < |s.th|
    && var pc := s.th[t].pc;
    && (pc.CmpDec? || pc.GetDec? || pc.RdDec? || pc.Unlink?)
    && pc.vi.ver == v && pc.vi.idx < |s.bls|
    && var r := s.bls[pc.vi.idx];
    if pc.Unlink? then r.version == v && r.readers == 0 && !r.deleted else LastOut(r, v)
  }

  /** A step that leads to doFree, and what it leaves of the record. */
  predicate FreesAt(s: State, s': State, t: nat, v: nat)
    requires t < |s.th| == |s'.th|
  {
    var pc := s.th[t].pc;
    && LastTouch(s, t, v) && |s.bls| == |s'.bls|
    && s'.th[t].pc.Clear? && s'.th[t].pc.b == pc.vi.idx && s'.bls[pc.vi.idx].version == v
    && s'.bls[pc.vi.idx] == s.bls[pc.vi.idx].(deleted := true, readers := 0)
    && s'.leaks == s.leaks
  }

  lemma FreesAtProbe(s: State, t: nat, v: nat)
    requires Shape(s) && t < |s.th| && ThreadShape(s.bs, |s.bls|, s.th[t])
    requires var pc := s.th[t].pc;
      pc.LoadSlot? || pc.CkHash? || pc.CkVer? || pc.CkLen? || pc.CmpInc? || pc.CmpRead? || pc.CmpDec?
    ensures FreesTo(s, ProbeStep(s, t), t, v) <==> LastTouch(s, t, v)
    ensures LastTouch(s, t, v) ==> |ProbeStep(s, t).th| == |s.th| && FreesAt(s, ProbeStep(s, t), t, v)
  {
  }

  lemma FreesAtRead(s: State, t: nat, v: nat)
    requires Shape(s) && t < |s.th| && ThreadShape(s.bs, |s.bls|, s.th[t])
    requires var pc := s.th[t].pc; pc.GetInc? || pc.RdInc? || pc.RdCopy? || pc.RdDec? || pc.GetDec?
    ensures FreesTo(s, ReadStep(s, t), t, v) <==> LastTouch(s, t, v)
    ensures LastTouch(s, t, v) ==> |ReadStep(s, t).th| == |s.th| && FreesAt(s, ReadStep(s, t), t, v)
  {
  }

  lemma FreesAtSwap(s: State, t: nat, v: nat)
    requires Shape(s) && t < |s.th| && ThreadShape(s.bs, |s.bls|, s.th[t]) && (s.th[t].pc.SwapSlot? || s.th[t].pc.Unlink?)
    ensures FreesTo(s, SwapStep(s, t), t, v) <==> LastTouch(s, t, v)
    ensures LastTouch(s, t, v) ==> |SwapStep(s, t).th| == |s.th| && FreesAt(s, SwapStep(s, t), t, v)
  {
  }

  lemma FreesNotAtAlloc(s: State, t: nat, v: nat)
    requires Shape(s) && t < |s.th| && ThreadShape(s.bs, |s.bls|, s.th[t]) && (s.th[t].pc.Popping? || Filling(s.th[t].pc))
    ensures !FreesTo(s, AllocStep(s, t), t, v)
  {
  }

  /** doFree begins exactly where the last reader of a deleted list is dropped and where an unread list is deleted. */
  lemma FreesWhere(s: State, k: Tick, v: nat)
    requires Shape(s)
    ensures Frees(s, k, v) <==> LastTouch(s, k.t, v)
    ensures Frees(s, k, v) ==> k.t < |s.th| == |Next(s, k.t, k.job).th| && FreesAt(s, Next(s, k.t, k.job), k.t, v)
  {
    if k.t < |s.th| { FreesOwn(s, k, v); }
  }

  lemma FreesOwn(s: State, k: Tick, v: nat)
    requires Shape(s) && k.t < |s.th|
    ensures FreesTo(s, Next(s, k.t, k.job), k.t, v) <==> LastTouch(s, k.t, v)
    ensures LastTouch(s, k.t, v) ==> |Next(s, k.t, k.job).th| == |s.th| && FreesAt(s, Next(s, k.t, k.job), k.t, v)
  {
    var t, pc := k.t, s.th[k.t].pc;
    assert ThreadShape(s.bs, |s.bls|, s.th[t]);
    if pc.Popping? || Filling(pc) { FreesNotAtAlloc(s, t, v); }
    else if pc.SwapSlot? || pc.Unlink? { FreesAtSwap(s, t, v); }
    else if pc.GetInc? || pc.RdInc? || pc.RdCopy? || pc.RdDec? || pc.GetDec? { FreesAtRead(s, t, v); }
    else if !pc.Idle? && !pc.Done? && !AtFree(pc) { FreesAtProbe(s, t, v); }
  }

  /** The thread that begins doFree finds the list deleted by then, and is the last one to know it: no thread
      holds a reader of it, and none was left behind. */
  lemma LastOneOutFrees(s: State, k: Tick, v: nat)
    requires Inv(s) && Frees(s, k, v)
    ensures var s', t := Next(s, k.t, k.job), k.t;
      var b := s'.th[t].pc.b;
      && b < |s'.bls| && s'.bls[b].deleted && s'.bls[b].readers == 0 && s.leaks[b] == 0
      && SumHolds(s'.th, VerIdx(b, v)) == 0
      && (s.place[b] == Condemned(v) || s.place[b] == Unlinked(t, v))
  {
    var pc, t := s.th[k.t].pc, k.t;
    FreesWhere(s, k, v);
    assert PcOk(s, t) && BlockOk(s, pc.vi.idx);
    KnownIsNumbered(s, pc.vi);
    if !pc.Unlink? { HeldIsShared(s, t, pc.vi); }
    StepKeeps(s, k);
    assert ReadersOk(Next(s, t, k.job), pc.vi.idx);
  }

  // ---------------------------------------------------------------- slots

  /** No step makes a slot EMPTY again: a slot once used holds a list or the deleted mark from then on. */
  lemma SlotsNeverEmptyAgain(s: State, k: Tick, i: nat)
    requires Inv(s) && i < |s.slots| && s.slots[i].idx != EMPTY
    ensures i < |Step(s, k).slots| && Step(s, k).slots[i].idx != EMPTY
  {
    if k.t < |s.th| { assert PcOk(s, k.t) && ThreadShape(s.bs, |s.bls|, s.th[k.t]); }
  }

  /** Whatever list a slot names is stored under this key. */
  predicate UnderKey(s: State, vi: VerIdx, key: Str) {
    Live(vi) ==> vi.ver in s.incs && s.incs[vi.ver].key == key
  }

  /** A step changes a slot only for the key of its own call: what it takes out and what it puts in are lists under
      that key, although the slot was compared many steps ago. */
  lemma SlotsChangeForOwnKey(s: State, k: Tick, i: nat)
    requires Inv(s) && i < |s.slots|
    ensures i < |Step(s, k).slots|
    ensures var s' := Step(s, k);
      s'.slots[i] != s.slots[i] ==>
        k.t < |s.th| && UnderKey(s, s.slots[i], s.th[k.t].job.key) && UnderKey(s', s'.slots[i], s.th[k.t].job.key)
  {
    if k.t < |s.th| {
      var th := s.th[k.t];
      assert PcOk(s, k.t) && ThreadShape(s.bs, |s.bls|, th);
      if th.pc.SwapSlot? && th.job.Put? { assert BlockOk(s, th.mine.idx); }
    }
  }
}
