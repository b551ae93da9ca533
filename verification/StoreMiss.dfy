/** When a get or del may answer that a key is missing: it is right about every slot that does not change during its
    call, but for the slot that del never looks at. */
module StoreMiss {
  import opened Bytes
  import opened Options
  import Circle
  import opened Handles
  import opened StoreSteps
  import opened StoreInvariant
  import opened StoreProbe
  import opened StoreRuns
  import opened StorePins
  import opened StoreSearch
  import opened StorePaths
  import opened StoreFresh
  import opened StoreVain

  predicate Calling(th: Thread) { !th.job.Put? && !th.pc.Idle? }

  /** It answers that the key is missing, or frees a list it was the last to read before it does. */
  predicate Missed(pc: Pc) {
    pc == Done(Miss) || (AtFree(pc) && pc.k == Return(Miss))
  }

  /** Slot i names a list with the key and hash of this job. */
  predicate SlotStores(s: State, i: nat, job: Job)
    requires i < |s.slots|
  {
    var vi := s.slots[i];
    Live(vi) && vi.ver in s.incs && s.incs[vi.ver].key == job.key && s.incs[vi.ver].hash == job.hash
  }

  /** The slots a job looks at: del leaves out the last one. */
  predicate LooksAt(n: nat, job: Job, i: nat)
    requires 0 < n
  {
    job.Get? || i != EndIdx(n, job)
  }

  predicate AtEnd(n: nat, job: Job, i: nat)
    requires 0 < n
  {
    if job.Get? then i == EndIdx(n, job) else Circle.Next(n, i) == EndIdx(n, job)
  }

  // ---------------------------------------------------------------- the steps of a call

  /** It goes on to the next slot it looks at, or answers that there is none. */
  predicate Onward(s: State, s': State, t: nat)
    requires t < |s.th| == |s'.th| && 0 < |s.bls|
  {
    var a, n, pc' := Where(s.th[t].pc), |s.bls|, s'.th[t].pc;
    && a.Some? && s'.slots == s.slots
    && if AtEnd(n, s.th[t].job, a.value.i) then Where(pc') == None && Missed(pc')
       else Where(pc') == Some(Spot(Circle.Next(n, a.value.i), None)) && !Missed(pc')
  }

  /** What it found where it stands: a slot that was free, or a list that does not, or no longer, store its key. */
  predicate Vain(s: State, t: nat)
    requires t < |s.th|
  {
    var a := Where(s.th[t].pc);
    && a.Some? && a.value.i < |s.slots|
    && match a.value.seen
       case None => !Live(s.slots[a.value.i])
       case Some(vi) => !Stores(s, vi, s.th[t].job)
  }

  /** It is about to take a reader for the comparison of bytes, of a list that is gone or marked deleted; or to drop
      it, as the last reader of a deleted list. */
  predicate Broken(s: State, t: nat)
    requires t < |s.th|
  {
    var pc := s.th[t].pc;
    && (pc.CmpInc? || pc.CmpDec?) && pc.vi.idx < |s.bls|
    && (!Current(s, pc.vi) || (if pc.CmpInc? then s.bls[pc.vi.idx].deleted else LastOut(s.bls[pc.vi.idx], pc.vi.ver)))
  }

  /** A del stops at such a list, and only there. */
  predicate Breaks(s: State, s': State, t: nat)
    requires t < |s.th| == |s'.th|
  {
    && s.th[t].job.Del? && Broken(s, t) && s.th[t].pc.i < |s.slots| && s'.slots == s.slots
    && Where(s'.th[t].pc) == None && Missed(s'.th[t].pc)
  }

  /** A get whose comparison of the bytes came out equal goes on to read the list. */
  predicate Finds(s: State, s': State, t: nat)
    requires t < |s.th| == |s'.th|
  {
    var pc := s.th[t].pc;
    && s.th[t].job.Get? && pc.CmpDec? && pc.eq && s'.slots == s.slots && s'.th[t].pc == GetInc(pc.vi)
  }

  /** A del marks the slot of the list it has matched, which still names that list. */
  predicate Unhooks(s: State, s': State, t: nat)
    requires t < |s.th| == |s'.th|
  {
    var pc := s.th[t].pc;
    && s.th[t].job.Del? && pc.SwapSlot? && pc.i < |s.slots| && s.slots[pc.i] == pc.vi
    && s'.slots == s.slots[pc.i := TOMBSTONE] && s'.th[t].pc == Unlink(pc.vi)
  }

  /** It has left the slots. */
  predicate HasLeft(s: State, s': State, t: nat)
    requires t < |s.th| == |s'.th|
  {
    var pc, pc' := s.th[t].pc, s'.th[t].pc;
    Where(pc) == None && Where(pc') == None && s'.slots == s.slots && (Missed(pc') <==> Missed(pc))
  }

  predicate Seeks(s: State, s': State, t: nat)
    requires t < |s.th| == |s'.th| && 0 < |s.bls|
  {
    && s'.th[t].job == s.th[t].job
    && ((Stays(s, s', t) && !Missed(s'.th[t].pc))
        || (Onward(s, s', t) && Vain(s, t) && !(s.th[t].job.Del? && Broken(s, t)))
        || Breaks(s, s', t) || Finds(s, s', t) || Unhooks(s, s', t) || HasLeft(s, s', t))
  }

  /** A list that a slot names is alive, and has bytes. */
  lemma NamedIsAlive(s: State, i: nat)
    requires Inv(s) && i < |s.slots| && Live(s.slots[i])
    ensures var vi := s.slots[i];
      vi.idx < |s.bls| && Current(s, vi) && Admits(s.bls[vi.idx], vi.ver) && s.bls[vi.idx].len > 0 && vi.ver in s.incs
    ensures !s.bls[s.slots[i].idx].deleted
  {
    var vi := s.slots[i];
    assert SlotOk(s, i) && SlotShape(|s.bls|, vi) && BlockOk(s, vi.idx) && ReadersOk(s, vi.idx) && IncOk(s, vi.ver);
  }

  lemma FailsHere(s: State, t: nat)
    requires Inv(s) && t < |s.th| && Compared(s, t) && ThreadShape(s.bs, |s.bls|, s.th[t])
    requires Checking(s.th[t].pc) && Fails(s, t)
    ensures Vain(s, t)
  {
    FailingTells(s, t);
  }

  /** A list that is gone or marked deleted is in no slot. */
  lemma BrokenIsUnnamed(s: State, t: nat)
    requires Inv(s) && t < |s.th| && Broken(s, t) && s.th[t].pc.i < |s.slots|
    ensures Where(s.th[t].pc).value.seen != Some(s.slots[s.th[t].pc.i])
  {
    var i := s.th[t].pc.i;
    assert ThreadShape(s.bs, |s.bls|, s.th[t]) && PcOk(s, t);
    if Live(s.slots[i]) { NamedIsAlive(s, i); } else { KnownIsNumbered(s, s.th[t].pc.vi); }
  }

  /** What was found in vain in a slot that has not changed does not store the key. */
  lemma VainIsRight(s: State, t: nat)
    requires Inv(s) && t < |s.th| && Vain(s, t)
    ensures var a := Where(s.th[t].pc).value;
      a.seen == None || a.seen == Some(s.slots[a.i]) ==> !SlotStores(s, a.i, s.th[t].job)
  {
    var i := Where(s.th[t].pc).value.i;
    if Live(s.slots[i]) { NamedIsAlive(s, i); }
  }

  lemma LoadSeeks(s: State, t: nat)
    requires Shape(s) && t < |s.th| && !s.th[t].job.Put? && s.th[t].pc.LoadSlot?
    ensures |ProbeStep(s, t).th| == |s.th| && Seeks(s, ProbeStep(s, t), t)
  {
    assert ThreadShape(s.bs, |s.bls|, s.th[t]);
  }

  lemma CheckSeeks(s: State, t: nat)
    requires Shape(s) && t < |s.th| && !s.th[t].job.Put?
    requires var pc := s.th[t].pc; (pc.CkHash? || pc.CkVer? || pc.CkLen?) && (Fails(s, t) ==> Vain(s, t))
    ensures |ProbeStep(s, t).th| == |s.th| && Seeks(s, ProbeStep(s, t), t)
  {
    assert ThreadShape(s.bs, |s.bls|, s.th[t]);
  }

  /** No list that can be compared is without bytes. */
  lemma TakingBreaks(s: State, t: nat)
    requires Inv(s) && t < |s.th| && ThreadShape(s.bs, |s.bls|, s.th[t]) && s.th[t].pc.CmpInc?
    ensures Fails(s, t) <==> Broken(s, t)
  {
    var vi := s.th[t].pc.vi;
    assert PcOk(s, t);
    if Current(s, vi) { CurrentIsFilled(s, vi); KnownIsNumbered(s, vi); assert ReadersOk(s, vi.idx); }
  }

  lemma TakeSeeks(s: State, t: nat)
    requires Shape(s) && t < |s.th| && !s.th[t].job.Put? && s.th[t].pc.CmpInc? && s.th[t].pc.vi.idx < |s.bls|
    requires (Fails(s, t) ==> Vain(s, t)) && (Fails(s, t) <==> Broken(s, t))
    ensures |ProbeStep(s, t).th| == |s.th| && Seeks(s, ProbeStep(s, t), t)
  {
    assert ThreadShape(s.bs, |s.bls|, s.th[t]);
  }

  lemma ReadSeeks(s: State, t: nat)
    requires Shape(s) && t < |s.th| && !s.th[t].job.Put? && s.th[t].pc.CmpRead?
    ensures |ProbeStep(s, t).th| == |s.th| && Seeks(s, ProbeStep(s, t), t)
  {
    assert ThreadShape(s.bs, |s.bls|, s.th[t]);
  }

  lemma DropSeeks(s: State, t: nat)
    requires Shape(s) && t < |s.th| && !s.th[t].job.Put? && s.th[t].pc.CmpDec? && Live(s.th[t].pc.vi)
    requires s.th[t].pc.vi.idx < |s.bls| && (Fails(s, t) ==> Vain(s, t))
    ensures |ProbeStep(s, t).th| == |s.th| && Seeks(s, ProbeStep(s, t), t)
  {
    assert ThreadShape(s.bs, |s.bls|, s.th[t]);
    if Broken(s, t) { DropBreaks(s, t); } else { DropGoesOn(s, t); }
  }

  lemma DropBreaks(s: State, t: nat)
    requires Shape(s) && t < |s.th| && !s.th[t].job.Put? && s.th[t].pc.CmpDec? && Broken(s, t) && Vain(s, t)
    ensures |ProbeStep(s, t).th| == |s.th| && Seeks(s, ProbeStep(s, t), t)
  {
    assert ThreadShape(s.bs, |s.bls|, s.th[t]);
  }

  lemma DropGoesOn(s: State, t: nat)
    requires Shape(s) && t < |s.th| && !s.th[t].job.Put? && s.th[t].pc.CmpDec? && Live(s.th[t].pc.vi)
    requires s.th[t].pc.vi.idx < |s.bls| && !Broken(s, t) && (Fails(s, t) ==> Vain(s, t))
    ensures |ProbeStep(s, t).th| == |s.th| && Seeks(s, ProbeStep(s, t), t)
  {
    assert ThreadShape(s.bs, |s.bls|, s.th[t]);
  }

  lemma SwapSeeks(s: State, t: nat)
    requires Shape(s) && t < |s.th| && !s.th[t].job.Put? && (s.th[t].pc.SwapSlot? || s.th[t].pc.Unlink?)
    requires s.th[t].pc.SwapSlot? ==> Live(s.th[t].pc.vi)
    ensures |SwapStep(s, t).th| == |s.th| && Seeks(s, SwapStep(s, t), t)
  {
    assert ThreadShape(s.bs, |s.bls|, s.th[t]);
  }

  lemma FreeSeeks(s: State, t: nat)
    requires Shape(s) && t < |s.th| && !s.th[t].job.Put? && AtFree(s.th[t].pc)
    ensures |FreeStep(s, t).th| == |s.th| && Seeks(s, FreeStep(s, t), t)
  {
    assert ThreadShape(s.bs, |s.bls|, s.th[t]);
  }

  lemma GetSeeks(s: State, t: nat)
    requires Shape(s) && t < |s.th| && !s.th[t].job.Put? && Reading(s.th[t].pc)
    ensures |ReadStep(s, t).th| == |s.th| && Seeks(s, ReadStep(s, t), t)
  {
    assert ThreadShape(s.bs, |s.bls|, s.th[t]);
  }

  /** Every step of a get or del, up to its return, is one of these. */
  lemma CallSeeks(s: State, k: Tick)
    requires Inv(s) && k.t < |s.th| && Calling(s.th[k.t]) && !s.th[k.t].pc.Done? && Compared(s, k.t)
    ensures |Step(s, k).th| == |s.th| && Seeks(s, Step(s, k), k.t)
  {
    var t, pc := k.t, s.th[k.t].pc;
    assert ThreadShape(s.bs, |s.bls|, s.th[t]) && PcOk(s, t);
    if Checking(pc) { if Fails(s, t) { FailsHere(s, t); } }
    if pc.LoadSlot? { LoadSeeks(s, t); }
    else if pc.CmpInc? { TakingBreaks(s, t); TakeSeeks(s, t); }
    else if pc.CmpRead? { ReadSeeks(s, t); }
    else if pc.CmpDec? { KnownIsLive(s, t); DropSeeks(s, t); }
    else if Checking(pc) { CheckSeeks(s, t); }
    else if pc.SwapSlot? || pc.Unlink? { SwapSeeks(s, t); }
    else if AtFree(pc) { FreeSeeks(s, t); }
    else { GetSeeks(s, t); }
  }

  // ---------------------------------------------------------------- what a call has behind it

  /** The slots a step changes. */
  function Changes(s: State, s': State): (c: set<nat>)
    requires |s'.slots| == |s.slots|
    ensures forall i | 0 <= i < |s.slots| :: i in c <==> s'.slots[i] != s.slots[i]
  {
    set i: nat | i < |s.slots| && s'.slots[i] != s.slots[i]
  }

  /** A handle in hand is the one in its slot, unless that has changed. */
  predicate SeenOk(s: State, t: nat, changed: set<nat>)
    requires t < |s.th|
  {
    var at := Where(s.th[t].pc);
    Calling(s.th[t]) && at.Some? ==>
      at.value.i < |s.slots| && (at.value.seen.Some? && at.value.i !in changed ==> at.value.seen == Some(s.slots[at.value.i]))
  }

  /** A slot that has not changed, and that has the key, is not behind the call. */
  predicate AheadOk(s: State, t: nat, changed: set<nat>, i: nat)
    requires t < |s.th| && i < |s.slots| && SeenOk(s, t, changed)
  {
    var th := s.th[t];
    Calling(th) && (th.job.Get? ==> th.job.key != []) && i !in changed && (th.job.Del? ==> changed == {})
    && SlotStores(s, i, th.job) && LooksAt(|s.slots|, th.job, i) ==>
      var n, home, at := |s.slots|, Home(|s.slots|, th.job), Where(th.pc);
      !Missed(th.pc) && (at.Some? ==> Circle.PosOf(n, home, at.value.i) <= Circle.PosOf(n, home, i))
  }

  /** Slots that have not changed store what they stored. */
  lemma StoresSame(s: State, k: Tick, i: nat, job: Job)
    requires Inv(s) && i < |s.slots| == |Step(s, k).slots| && Step(s, k).slots[i] == s.slots[i]
    ensures SlotStores(Step(s, k), i, job) <==> SlotStores(s, i, job)
  {
    if Live(s.slots[i]) {
      NamedIsAlive(s, i);
      IncsGrow(s, k, s.slots[i].ver);
    }
  }

  lemma SeenMoves(s: State, s': State, t: nat, changed: set<nat>)
    requires t < |s.th| == |s'.th| && 0 < |s.bls| == |s.slots| == |s'.slots| && SeenOk(s, t, changed)
    requires Calling(s.th[t]) && Seeks(s, s', t)
    ensures SeenOk(s', t, changed + Changes(s, s'))
  {
    if Onward(s, s', t) { Circle.NextPos(|s.slots|, Home(|s.slots|, s.th[t].job), Where(s.th[t].pc).value.i); }
  }

  lemma AheadMoves(s: State, s': State, t: nat, changed: set<nat>, i: nat)
    requires t < |s.th| == |s'.th| && 0 < |s.bls| == |s.slots| == |s'.slots| && i < |s.slots|
    requires SeenOk(s, t, changed) && AheadOk(s, t, changed, i) && SeenOk(s', t, changed + Changes(s, s'))
    requires Calling(s.th[t]) && Seeks(s, s', t)
    requires Vain(s, t) ==> var a := Where(s.th[t].pc).value;
      a.seen == None || a.seen == Some(s.slots[a.i]) ==> !SlotStores(s, a.i, s.th[t].job)
    requires Breaks(s, s', t) ==> Where(s.th[t].pc).value.seen != Some(s.slots[s.th[t].pc.i])
    requires s'.slots[i] == s.slots[i] ==> (SlotStores(s', i, s.th[t].job) <==> SlotStores(s, i, s.th[t].job))
    ensures AheadOk(s', t, changed + Changes(s, s'), i)
  {
    var n, home, a := |s.slots|, Home(|s.slots|, s.th[t].job), Where(s.th[t].pc);
    if Onward(s, s', t) && Vain(s, t) {
      Circle.NextPos(n, home, a.value.i);
      Circle.NextPos(n, home, i);
      assert Circle.Pos(n, home, Circle.PosOf(n, home, i)) == i;
      assert Circle.Pos(n, home, Circle.PosOf(n, home, a.value.i)) == a.value.i;
    }
  }

  /** A call begins at the home of its key, with nothing behind it. */
  lemma CallBegins(s: State, k: Tick, t: nat)
    requires Inv(s) && t < |s.th| && Shape(Step(s, k)) && |Step(s, k).th| == |s.th|
    requires !Calling(s.th[t]) && Calling(Step(s, k).th[t])
    ensures k.t == t && Step(s, k).slots == s.slots
    ensures var th := Step(s, k).th[t];
      if Missed(th.pc) then
        (th.job.Get? && th.job.key == []) || (th.job.Del? && Home(|s.bls|, th.job) == EndIdx(|s.bls|, th.job))
      else Where(th.pc) == Some(Spot(Home(|s.bls|, th.job), None))
  {
    if k.t != t { OthersStay(s, k, t); } else { BeginsIdle(s, k); }
  }

  lemma BeginsIdle(s: State, k: Tick)
    requires Inv(s) && k.t < |s.th| && Shape(Step(s, k)) && |Step(s, k).th| == |s.th|
    requires !Calling(s.th[k.t]) && Calling(Step(s, k).th[k.t])
    ensures s.th[k.t].pc.Idle? && Step(s, k) == Start(s, k.t, k.job) && OneBlock(s.bs, k.job) && !k.job.Put?
    ensures Step(s, k).th[k.t].job == k.job
  {
    StepCall(s, k, k.t);
  }

  lemma SeenKept(s: State, k: Tick, t: nat, changed: set<nat>)
    requires Inv(s) && t < |s.th| == |Step(s, k).th| && Inv(Step(s, k)) && |Step(s, k).slots| == |s.slots|
    requires SeenOk(s, t, changed) && Compared(s, t)
    ensures SeenOk(Step(s, k), t, if Calling(s.th[t]) then changed + Changes(s, Step(s, k)) else {})
  {
    var s' := Step(s, k);
    if k.t != t {
      OthersStay(s, k, t);
    } else if Calling(s.th[t]) {
      if s.th[t].pc.Done? { ReturnsToIdle(s, k); } else { CallSeeks(s, k); SeenMoves(s, s', t, changed); }
    } else if Calling(s'.th[t]) {
      CallBegins(s, k, t);
    }
  }

  lemma AheadKept(s: State, k: Tick, t: nat, changed: set<nat>, i: nat)
    requires Inv(s) && t < |s.th| == |Step(s, k).th| && Inv(Step(s, k)) && |Step(s, k).slots| == |s.slots| && i < |s.slots|
    requires SeenOk(s, t, changed) && Compared(s, t) && AheadOk(s, t, changed, i)
    ensures var c := if Calling(s.th[t]) then changed + Changes(s, Step(s, k)) else {};
      SeenOk(Step(s, k), t, c) && AheadOk(Step(s, k), t, c, i)
  {
    var s' := Step(s, k);
    SeenKept(s, k, t, changed);
    if s'.slots[i] == s.slots[i] { StoresSame(s, k, i, s.th[t].job); }
    if k.t != t {
      OthersStay(s, k, t);
    } else if Calling(s.th[t]) {
      if s.th[t].pc.Done? { ReturnsToIdle(s, k); } else { AheadOwn(s, k, changed, i); }
    } else if Calling(s'.th[t]) {
      CallBegins(s, k, t);
      var n, home := |s.slots|, Home(|s.slots|, s'.th[t].job);
      assert Circle.Pos(n, home, Circle.PosOf(n, home, i)) == i;
    }
  }

  lemma AheadOwn(s: State, k: Tick, changed: set<nat>, i: nat)
    requires Inv(s) && k.t < |s.th| == |Step(s, k).th| && Inv(Step(s, k)) && |Step(s, k).slots| == |s.slots| && i < |s.slots|
    requires Calling(s.th[k.t]) && !s.th[k.t].pc.Done? && Compared(s, k.t)
    requires SeenOk(s, k.t, changed) && AheadOk(s, k.t, changed, i)
    requires SeenOk(Step(s, k), k.t, changed + Changes(s, Step(s, k)))
    requires Step(s, k).slots[i] == s.slots[i] ==>
      (SlotStores(Step(s, k), i, s.th[k.t].job) <==> SlotStores(s, i, s.th[k.t].job))
    ensures AheadOk(Step(s, k), k.t, changed + Changes(s, Step(s, k)), i)
  {
    CallSeeks(s, k);
    if Vain(s, k.t) { VainIsRight(s, k.t); }
    if Breaks(s, Step(s, k), k.t) { BrokenIsUnnamed(s, k.t); }
    AheadMoves(s, Step(s, k), k.t, changed, i);
  }

  // ---------------------------------------------------------------- a list that was found

  /** The list a get reads. */
  function Read(pc: Pc): Option<VerIdx> {
    if pc.GetInc? || pc.RdInc? || pc.RdCopy? || pc.RdDec? || pc.GetDec? then Some(pc.vi) else None
  }

  ghost predicate Named(s: State, vi: VerIdx) {
    Live(vi) && exists j :: 0 <= j < |s.slots| && s.slots[j] == vi
  }

  /** Some slot names a list with this key and a value longer than maxlen. */
  ghost predicate TooLong(s: State, key: Str, maxlen: nat) {
    exists val :: Standing(s, key, val) && |val| > maxlen
  }

  /** What the slots say about the answer of a get. */
  ghost predicate Served(s: State, job: Job, r: Result)
    requires job.Get?
  {
    match r
    case Miss => true
    case Hit(bytes) => Standing(s, job.key, bytes)
    case TooBig => TooLong(s, job.key, job.maxlen)
    case _ => false
  }

  /** While no slot has changed, a slot names the list that a get reads, and its answer is served by the slots. */
  ghost predicate FoundOk(s: State, t: nat, changed: set<nat>)
    requires t < |s.th|
  {
    var pc := s.th[t].pc;
    Calling(s.th[t]) && s.th[t].job.Get? && changed == {} ==>
      && !pc.Unlink?
      && (Read(pc).Some? ==> Named(s, Read(pc).value))
      && (pc.RdDec? || pc.GetDec? ==> pc.out != [])
      && (AtFree(pc) ==> pc.k.Probe? || pc.k == Return(Miss))
      && (pc.Done? ==> Served(s, s.th[t].job, pc.r))
  }

  /** A step that reads the list vi, or answers for it. */
  ghost predicate ReadsOn(s: State, s': State, t: nat)
    requires t < |s.th|
  {
    && |s'.th| == |s.th| && s'.slots == s.slots && s'.incs == s.incs
    && var pc, pc' := s.th[t].pc, s'.th[t].pc;
    && !pc'.Unlink? && !AtFree(pc')
    && (Read(pc').Some? ==> Read(pc') == Read(pc)) && (pc'.RdDec? || pc'.GetDec? ==> pc'.out != [])
    && (pc'.Done? ==> s.th[t].job.Get? && Served(s, s.th[t].job, pc'.r))
  }

  lemma FoundWhileRead(s: State, t: nat)
    requires Inv(s) && t < |s.th| && s.th[t].job.Get? && Reading(s.th[t].pc) && Named(s, s.th[t].pc.vi)
    requires s.th[t].pc.RdDec? || s.th[t].pc.GetDec? ==> s.th[t].pc.out != []
    ensures ReadsOn(s, ReadStep(s, t), t)
  {
    var vi := s.th[t].pc.vi;
    var j :| 0 <= j < |s.slots| && s.slots[j] == vi;
    NamedIsAlive(s, j);
    assert PcOk(s, t) && SlotOk(s, j) && BlockOk(s, vi.idx);
    assert Names(s, s.slots[j], s.th[t].job.key, s.incs[vi.ver].val);
    FoundRecord(s, t, s.incs[vi.ver].val);
  }

  lemma FoundRecord(s: State, t: nat, val: Str)
    requires Shape(s) && t < |s.th| && s.th[t].job.Get? && Reading(s.th[t].pc) && val != []
    requires s.th[t].pc.RdDec? || s.th[t].pc.GetDec? ==> s.th[t].pc.out == val
    requires var pc := s.th[t].pc;
      && pc.vi.idx < |s.bls| && !s.bls[pc.vi.idx].deleted && Admits(s.bls[pc.vi.idx], pc.vi.ver)
      && (pc.RdCopy? ==> pc.vlen == |val|) && s.bls[pc.vi.idx].len - s.bls[pc.vi.idx].klen == |val|
    requires Standing(s, s.th[t].job.key, val)
    ensures ReadsOn(s, ReadStep(s, t), t)
  {
    assert ThreadShape(s.bs, |s.bls|, s.th[t]);
    if s.th[t].pc.GetInc? { FoundAtFirst(s, t, val); }
  }

  lemma FoundAtFirst(s: State, t: nat, val: Str)
    requires Shape(s) && t < |s.th| && s.th[t].job.Get? && s.th[t].pc.GetInc? && val != []
    requires var pc := s.th[t].pc;
      && pc.vi.idx < |s.bls| && Admits(s.bls[pc.vi.idx], pc.vi.ver)
      && s.bls[pc.vi.idx].len - s.bls[pc.vi.idx].klen == |val|
    requires Standing(s, s.th[t].job.key, val)
    ensures ReadsOn(s, ReadStep(s, t), t)
  {
    assert ThreadShape(s.bs, |s.bls|, s.th[t]);
    if |val| > s.th[t].job.maxlen { assert TooLong(s, s.th[t].job.key, s.th[t].job.maxlen); }
  }

  lemma FoundAtProbe(s: State, t: nat, changed: set<nat>)
    requires Inv(s) && t < |s.th| && s.th[t].job.Get? && (s.th[t].pc.LoadSlot? || s.th[t].pc.CmpRead? || Checking(s.th[t].pc))
    requires SeenOk(s, t, changed) && changed == {}
    ensures var pc := ProbeStep(s, t).th[t].pc;
      && |ProbeStep(s, t).th| == |s.th| && (Read(pc).Some? ==> Named(s, Read(pc).value))
      && !pc.Unlink? && !pc.RdDec? && !pc.GetDec? && (AtFree(pc) ==> pc.k.Probe? || pc.k == Return(Miss))
      && (pc.Done? ==> pc.r == Miss)
  {
    assert ThreadShape(s.bs, |s.bls|, s.th[t]);
    NextSlotIsStep(|s.bls|, s.th[t].job, s.th[t].pc.i);
    if s.th[t].pc.CmpDec? {
      KnownIsLive(s, t);
      assert s.slots[s.th[t].pc.i] == s.th[t].pc.vi;
    }
  }

  lemma FoundAtFree(s: State, t: nat)
    requires Shape(s) && t < |s.th| && AtFree(s.th[t].pc) && (s.th[t].pc.k.Probe? || s.th[t].pc.k == Return(Miss))
    ensures var s' := FreeStep(s, t);
      && |s'.th| == |s.th| && Read(s'.th[t].pc) == None && !s'.th[t].pc.Unlink?
      && (AtFree(s'.th[t].pc) ==> s'.th[t].pc.k == s.th[t].pc.k) && (s'.th[t].pc.Done? ==> s'.th[t].pc.r == Miss)
  {
    assert ThreadShape(s.bs, |s.bls|, s.th[t]);
  }

  /** The slots still say what they said, when they have not changed. */
  lemma StandsSame(s: State, k: Tick, key: Str, val: Str)
    requires Inv(s) && Standing(s, key, val) && |Step(s, k).slots| == |s.slots| && Step(s, k).slots == s.slots
    ensures Standing(Step(s, k), key, val)
  {
    var i :| 0 <= i < |s.slots| && Names(s, s.slots[i], key, val);
    IncsGrow(s, k, s.slots[i].ver);
    assert Names(Step(s, k), Step(s, k).slots[i], key, val);
  }

  lemma ServedSame(s: State, k: Tick, job: Job, r: Result)
    requires Inv(s) && job.Get? && Served(s, job, r) && |Step(s, k).slots| == |s.slots| && Step(s, k).slots == s.slots
    ensures Served(Step(s, k), job, r)
  {
    match r {
      case Hit(bytes) => StandsSame(s, k, job.key, bytes);
      case TooBig =>
        var val :| Standing(s, job.key, val) && |val| > job.maxlen;
        StandsSame(s, k, job.key, val);
        assert TooLong(Step(s, k), job.key, job.maxlen);
      case _ =>
    }
  }

  lemma FoundKept(s: State, k: Tick, t: nat, changed: set<nat>)
    requires Inv(s) && t < |s.th| == |Step(s, k).th| && Inv(Step(s, k)) && |Step(s, k).slots| == |s.slots|
    requires SeenOk(s, t, changed) && FoundOk(s, t, changed)
    ensures FoundOk(Step(s, k), t, if Calling(s.th[t]) then changed + Changes(s, Step(s, k)) else {})
  {
    var s' := Step(s, k);
    if k.t != t {
      OthersStay(s, k, t);
      if Calling(s.th[t]) && s.th[t].job.Get? && changed == {} && Changes(s, s') == {} {
        assert s'.slots == s.slots;
        if s.th[t].pc.Done? { ServedSame(s, k, s.th[t].job, s.th[t].pc.r); }
      }
    } else if Calling(s.th[t]) {
      StepCall(s, k, t);
      if s.th[t].job.Get? && changed == {} { FoundOwn(s, k); }
    } else if Calling(s'.th[t]) {
      CallBegins(s, k, t);
      BeginsIdle(s, k);
    }
  }

  lemma FoundOwn(s: State, k: Tick)
    requires Inv(s) && k.t < |s.th| == |Step(s, k).th| && Inv(Step(s, k)) && |Step(s, k).slots| == |s.slots|
    requires SeenOk(s, k.t, {}) && FoundOk(s, k.t, {}) && Calling(s.th[k.t]) && s.th[k.t].job.Get?
    ensures FoundOk(Step(s, k), k.t, Changes(s, Step(s, k)))
  {
    var t, pc := k.t, s.th[k.t].pc;
    if pc.Done? {
      ReturnsToIdle(s, k);
    } else if Reading(pc) {
      FoundWhileRead(s, t);
      FoundServed(s, k);
    } else if AtFree(pc) {
      FoundAtFree(s, t);
    } else {
      GetProbes(s, t);
      FoundAtProbe(s, t, {});
      ProbeKeepsSlots(s, t);
    }
  }

  lemma FoundServed(s: State, k: Tick)
    requires Inv(s) && k.t < |s.th| == |Step(s, k).th| && Inv(Step(s, k)) && |Step(s, k).slots| == |s.slots|
    requires Calling(s.th[k.t]) && s.th[k.t].job.Get? && Reading(s.th[k.t].pc) && ReadsOn(s, ReadStep(s, k.t), k.t)
    requires Named(s, s.th[k.t].pc.vi)
    ensures FoundOk(Step(s, k), k.t, Changes(s, Step(s, k)))
  {
    var s', t := Step(s, k), k.t;
    StepCall(s, k, t);
    assert s' == ReadStep(s, t);
    if s'.th[t].pc.Done? { ServedSame(s, k, s.th[t].job, s'.th[t].pc.r); }
  }

  lemma GetProbes(s: State, t: nat)
    requires Shape(s) && t < |s.th| && s.th[t].job.Get? && Calling(s.th[t])
    requires var pc := s.th[t].pc; !pc.Done? && !Reading(pc) && !AtFree(pc) && !pc.Unlink?
    ensures var pc := s.th[t].pc; pc.LoadSlot? || pc.CmpRead? || Checking(pc)
  {
    assert ThreadShape(s.bs, |s.bls|, s.th[t]);
  }

  lemma ProbeKeepsSlots(s: State, t: nat)
    requires Shape(s) && t < |s.th| && (s.th[t].pc.LoadSlot? || s.th[t].pc.CmpRead? || Checking(s.th[t].pc))
    ensures ProbeStep(s, t).slots == s.slots
  {
    assert ThreadShape(s.bs, |s.bls|, s.th[t]);
  }

  // ---------------------------------------------------------------- over whole runs

  ghost predicate CallingAt(bs: nat, dat: seq<Str>, threads: nat, sched: seq<Tick>, t: nat)
    requires WellSized(bs, dat)
  {
    var s := Run(bs, dat, threads, sched);
    t < |s.th| && Calling(s.th[t])
  }

  /** The slots that have changed since the call thread t is in began. */
  ghost function Changed(bs: nat, dat: seq<Str>, threads: nat, sched: seq<Tick>, t: nat): set<nat>
    requires WellSized(bs, dat)
  {
    if sched == [] then {}
    else
      var rest := sched[..|sched| - 1];
      if CallingAt(bs, dat, threads, rest, t) then
        Changed(bs, dat, threads, rest, t) + ChangesTo(Run(bs, dat, threads, rest), Run(bs, dat, threads, sched))
      else {}
  }

  function ChangesTo(s: State, s': State): set<nat> { if |s'.slots| == |s.slots| then Changes(s, s') else {} }

  lemma {:induction false} RunAhead(bs: nat, dat: seq<Str>, threads: nat, sched: seq<Tick>, t: nat, i: nat)
    requires WellSized(bs, dat) && t < threads && i < |dat|
    ensures var s, c := Run(bs, dat, threads, sched), Changed(bs, dat, threads, sched, t);
      t < |s.th| && i < |s.slots| && SeenOk(s, t, c) && AheadOk(s, t, c, i)
  {
    RunSizes(bs, dat, threads, sched);
    if sched == [] {
      AheadAtStart(bs, dat, threads, t, i);
    } else {
      var rest, k := sched[..|sched| - 1], sched[|sched| - 1];
      RunSizes(bs, dat, threads, rest);
      RunSearches(bs, dat, threads, rest);
      RunAhead(bs, dat, threads, rest, t, i);
      AheadKept(Run(bs, dat, threads, rest), k, t, Changed(bs, dat, threads, rest, t), i);
    }
  }

  lemma AheadAtStart(bs: nat, dat: seq<Str>, threads: nat, t: nat, i: nat)
    requires WellSized(bs, dat) && t < threads && i < |dat|
    ensures var s := Init(bs, dat, threads); t < |s.th| && i < |s.slots| && SeenOk(s, t, {}) && AheadOk(s, t, {}, i)
  {
  }

  /** In every run, a get that answers that its key is missing is right about every slot that has not changed since
      the call began. */
  lemma GetMissIsRight(bs: nat, dat: seq<Str>, threads: nat, sched: seq<Tick>, t: nat, i: nat)
    requires WellSized(bs, dat) && t < threads && i < |dat|
    requires var s := Run(bs, dat, threads, sched);
      t < |s.th| && s.th[t].pc == Done(Miss) && s.th[t].job.Get? && s.th[t].job.key != [] && i < |s.slots|
    requires i !in Changed(bs, dat, threads, sched, t)
    ensures var s := Run(bs, dat, threads, sched); !SlotStores(s, i, s.th[t].job)
  {
    RunAhead(bs, dat, threads, sched, t, i);
  }

  /** In every run, a del that answers so while no slot has changed is right about all but the slot probed last. */
  lemma DelMissIsRight(bs: nat, dat: seq<Str>, threads: nat, sched: seq<Tick>, t: nat, i: nat)
    requires WellSized(bs, dat) && t < threads && i < |dat|
    requires var s := Run(bs, dat, threads, sched);
      && t < |s.th| && s.th[t].pc == Done(Miss) && s.th[t].job.Del?
      && i < |s.slots| && i != EndIdx(|s.slots|, s.th[t].job)
    requires Changed(bs, dat, threads, sched, t) == {}
    ensures var s := Run(bs, dat, threads, sched); !SlotStores(s, i, s.th[t].job)
  {
    RunAhead(bs, dat, threads, sched, t, i);
  }

  lemma {:induction false} RunFound(bs: nat, dat: seq<Str>, threads: nat, sched: seq<Tick>, t: nat)
    requires WellSized(bs, dat) && t < threads
    ensures t < |Run(bs, dat, threads, sched).th|
    ensures FoundOk(Run(bs, dat, threads, sched), t, Changed(bs, dat, threads, sched, t))
  {
    RunSizes(bs, dat, threads, sched);
    if sched == [] {
      FoundAtStart(bs, dat, threads, t);
    } else {
      var rest, k := sched[..|sched| - 1], sched[|sched| - 1];
      RunSizes(bs, dat, threads, rest);
      RunAhead(bs, dat, threads, rest, t, 0);
      RunFound(bs, dat, threads, rest, t);
      FoundKept(Run(bs, dat, threads, rest), k, t, Changed(bs, dat, threads, rest, t));
    }
  }

  lemma FoundAtStart(bs: nat, dat: seq<Str>, threads: nat, t: nat)
    requires WellSized(bs, dat) && t < threads
    ensures var s := Init(bs, dat, threads); t < |s.th| && FoundOk(s, t, {})
  {
  }

  /** In every run, a get during which no slot changed answers rightly: with a slot that has the key, and no value
      under it that exceeds the buffer, it has copied the whole value of such a slot. */
  lemma UndisturbedGetIsRight(bs: nat, dat: seq<Str>, threads: nat, sched: seq<Tick>, t: nat, i: nat)
    requires WellSized(bs, dat) && t < threads && i < |dat|
    requires var s := Run(bs, dat, threads, sched);
      && t < |s.th| && s.th[t].pc.Done? && s.th[t].job.Get? && s.th[t].job.key != [] && i < |s.slots|
      && SlotStores(s, i, s.th[t].job) && !TooLong(s, s.th[t].job.key, s.th[t].job.maxlen)
    requires Changed(bs, dat, threads, sched, t) == {}
    ensures var s := Run(bs, dat, threads, sched);
      s.th[t].pc.r.Hit? && Standing(s, s.th[t].job.key, s.th[t].pc.r.bytes)
  {
    RunFound(bs, dat, threads, sched, t);
    RunAhead(bs, dat, threads, sched, t, i);
  }

  /** So if just one slot has the key, it is the value of that slot. */
  lemma OnlyValueIsRead(s: State, i: nat, key: Str, bytes: Str)
    requires i < |s.slots| && Standing(s, key, bytes)
    requires forall j, val | 0 <= j < |s.slots| && Names(s, s.slots[j], key, val) :: j == i
    ensures s.slots[i].ver in s.incs && bytes == s.incs[s.slots[i].ver].val
  {
    var j :| 0 <= j < |s.slots| && Names(s, s.slots[j], key, bytes);
  }
}
