/** The allocation steps and the return of a block to the free list keep the invariant. */
module StoreAlloc {
  import opened Handles
  import opened StoreSteps
  import opened StoreInvariant
  import FL = FreeListSteps

  // ---------------------------------------------------------------- a thread works on a block of its own

  /** A put works on a block nobody else knows. */
  predicate Filling(pc: Pc) { pc.Popped? || pc.Numbered? || pc.Recorded? || pc.Titled? }

  predicate WorksOn(pc: Pc, b: nat) {
    pc.Idle? || pc.Popping? || ((Filling(pc) || AtFree(pc)) && pc.b == b)
  }

  predicate OwnPlace(p: Place, t: nat) {
    p == Free || p == Taken(t) || (p.Private? && p.t == t) || p == Returning(t)
  }

  /** From s to s', only thread t, the free list and block b changed (no block if b is out of range). */
  ghost predicate OwnStep(s: State, s': State, t: nat, b: nat) {
    && Shape(s) && Shape(s') && t < |s.th| && WorksOn(s.th[t].pc, b)
    && s'.bs == s.bs && s'.slots == s.slots && s'.pub == s.pub && |s'.bls| == |s.bls|
    && |s'.th| == |s.th| && s'.th == s.th[t := s'.th[t]]
    && (forall c | 0 <= c < |s.bls| && c != b ::
          && s'.bls[c] == s.bls[c] && s'.dat[c] == s.dat[c] && s'.place[c] == s.place[c]
          && s'.leaks[c] == s.leaks[c] && s'.fl.place[c] == s.fl.place[c])
    && (forall u | 0 <= u < |s.th| && u != t :: s'.fl.pcs[u] == s.fl.pcs[u])
    && (forall v | v in s.incs :: v in s'.incs && s'.incs[v] == s.incs[v])
    && (forall w :: Holds(s'.th[t].pc, w) == 0)
    && (AtFree(s.th[t].pc) && s.th[t].pc.k.Probe? ==>
          s'.th[t].job == s.th[t].job && s'.th[t].mine == s.th[t].mine
          && (s'.th[t].pc.LoadSlot? || (AtFree(s'.th[t].pc) && s'.th[t].pc.k.Probe?)))
    && (b < |s.bls| ==>
          && OwnPlace(s.place[b], t) && OwnPlace(s'.place[b], t)
          && (s'.bls[b].version == s.bls[b].version
              || (s'.bls[b].version !in s.pub && SumHolds(s.th, VerIdx(b, s.bls[b].version)) == 0)))
  }

  lemma OwnStepPrivate(s: State, s': State, t: nat, b: nat, c: nat)
    requires OwnStep(s, s', t, b) && c < |s.bls| && c != b && s.place[c].Private? && BlockOk(s, c)
    ensures BlockOk(s', c)
  {
  }

  lemma OwnStepBlock(s: State, s': State, t: nat, b: nat, c: nat)
    requires OwnStep(s, s', t, b) && c < |s.bls| && c != b && BlockOk(s, c)
    ensures BlockOk(s', c)
  {
    if s.place[c].Private? { OwnStepPrivate(s, s', t, b, c); }
  }

  lemma OwnStepBelow(s: State, s': State, t: nat, b: nat, c: nat)
    requires OwnStep(s, s', t, b) && c < |s.bls| && c != b
    requires BlockOk(s, c) && s.fl.place[c] == Below(s, c)
    ensures s'.fl.place[c] == Below(s', c)
  {
  }

  lemma OwnStepReaders(s: State, s': State, t: nat, b: nat, c: nat)
    requires OwnStep(s, s', t, b) && c < |s.bls| && c != b && ReadersOk(s, c)
    ensures ReadersOk(s', c)
  {
    SumUpdate(s.th, t, s'.th[t], VerIdx(c, s.bls[c].version));
  }

  lemma OwnStepPc(s: State, s': State, t: nat, b: nat, u: nat)
    requires OwnStep(s, s', t, b) && u < |s.th| && u != t && PcOk(s, u)
    ensures PcOk(s', u)
  {
    if b < |s.bls| { SumUpdate(s.th, u, s.th[u], VerIdx(b, s.bls[b].version)); }
    assert forall key, val :: WasPut(s, key, val) ==> WasPut(s', key, val);
  }

  lemma OwnStepKeeps(s: State, s': State, t: nat, b: nat)
    requires Inv(s) && OwnStep(s, s', t, b)
    requires FL.Inv(s'.fl) && s'.ver > 0 && FlPcOk(s', t) && PcOk(s', t)
    requires b < |s.bls| ==> BlockOk(s', b) && s'.fl.place[b] == Below(s', b) && ReadersOk(s', b)
    requires forall v :: IncOk(s', v)
    ensures Inv(s')
  {
    forall c | 0 <= c < |s'.bls| ensures BlockOk(s', c) && s'.fl.place[c] == Below(s', c) && ReadersOk(s', c) {
      assert BlockOk(s, c) && s.fl.place[c] == Below(s, c) && ReadersOk(s, c);
      if c != b {
        OwnStepBlock(s, s', t, b, c);
        OwnStepBelow(s, s', t, b, c);
        OwnStepReaders(s, s', t, b, c);
      }
    }
    forall u | 0 <= u < |s'.th| ensures PcOk(s', u) {
      if u != t { assert PcOk(s, u); OwnStepPc(s, s', t, b, u); }
    }
    forall u | 0 <= u < |s'.th| ensures FlPcOk(s', u) { assert FlPcOk(s, u); }
    forall i | 0 <= i < |s'.slots| ensures SlotOk(s', i) { assert SlotOk(s, i); }
  }

  // ---------------------------------------------------------------- steps of the free list

  /** A step inside nxt() or free() that changes neither the list nor who owns what. */
  ghost predicate ListStep(s: State, s': State, t: nat) {
    && Shape(s) && t < |s.th| && (s.th[t].pc.Popping? || s.th[t].pc.Pushing?)
    && FlPcOk(s, t) && PcOk(s, t) && ThreadShape(s.bs, |s.bls|, s.th[t])
    && s'.fl == FL.Advance(s.fl, t) && s'.fl.place == s.fl.place && FL.Shape(s'.fl)
    && (s' == s.(fl := s'.fl) || (s.th[t].pc.Popping? && s' == Goto(s, t, Done(OutOfBlocks)).(fl := s'.fl)))
  }

  function WorkBlock(s: State, t: nat): nat
    requires t < |s.th|
  {
    if s.th[t].pc.Pushing? then s.th[t].pc.b else |s.bls|
  }

  lemma ListOwnPush(s: State, s': State, t: nat)
    requires ListStep(s, s', t) && s.th[t].pc.Pushing?
    ensures OwnStep(s, s', t, WorkBlock(s, t)) && PcOk(s', t)
  {
    assert s.th[t := s.th[t]] == s.th;
  }

  lemma ListOwn(s: State, s': State, t: nat)
    requires ListStep(s, s', t)
    ensures OwnStep(s, s', t, WorkBlock(s, t)) && PcOk(s', t)
  {
    if s.th[t].pc.Pushing? { ListOwnPush(s, s', t); } else { assert s.th[t := s.th[t]] == s.th; }
  }

  lemma ListMoves(s: State, s': State, t: nat)
    requires Inv(s) && ListStep(s, s', t)
    requires Shape(s') ==> |s'.th| == |s.th| && FlPcOk(s', t)
    ensures Inv(s')
  {
    FL.AdvanceInv(s.fl, t);
    ListOwn(s, s', t);
    forall v ensures IncOk(s', v) { assert IncOk(s, v); }
    var b := WorkBlock(s, t);
    if b < |s.bls| { assert BlockOk(s, b) && ReadersOk(s, b) && s.fl.place[b] == Below(s, b); }
    OwnStepKeeps(s, s', t, b);
  }

  lemma PopWinKeeps(s: State, t: nat)
    requires Inv(s) && t < |s.th| && s.th[t].pc.Popping?
    requires s.fl.pcs[t].PopLinked? && s.fl.head == s.fl.pcs[t].cur
    ensures Inv(AllocStep(s, t))
  {
    var b, s' := s.fl.head.idx, AllocStep(s, t);
    FL.PopWinInv(s.fl, t);
    assert ThreadShape(s.bs, |s.bls|, s.th[t]);
    assert FL.PlaceOk(s.fl, b) && s.fl.list[0] in s.fl.list;
    assert s.fl.place[b] == Below(s, b) && s.place[b] == Free && BlockOk(s, b) && ReadersOk(s, b);
    PopWinShape(s, t);
    assert forall v :: IncOk(s, v) ==> IncOk(s', v);
    OwnStepKeeps(s, s', t, b);
  }

  lemma PopWinShape(s: State, t: nat)
    requires Shape(s) && t < |s.th| && s.th[t].pc.Popping? && FL.Inv(s.fl) && FL.Inv(FL.Advance(s.fl, t))
    requires s.fl.pcs[t].PopLinked? && s.fl.head == s.fl.pcs[t].cur
    requires s.fl.head.idx < |s.bls| && s.place[s.fl.head.idx] == Free
    requires FL.Pops(s.fl, t, s.fl.head.idx)
    ensures var s', b := AllocStep(s, t), s.fl.head.idx;
      Shape(s') && OwnStep(s, s', t, b) && s'.th == s.th[t := s.th[t].(pc := Popped(b))]
  {
    assert ThreadShape(s.bs, |s.bls|, s.th[t]);
  }

  lemma PoppingKeeps(s: State, t: nat)
    requires Inv(s) && t < |s.th| && s.th[t].pc.Popping?
    ensures Inv(AllocStep(s, t))
  {
    assert FlPcOk(s, t);
    if s.fl.pcs[t].PopLinked? && s.fl.head == s.fl.pcs[t].cur { PopWinKeeps(s, t); }
    else {
      FL.AdvanceInv(s.fl, t);
      assert PcOk(s, t) && ThreadShape(s.bs, |s.bls|, s.th[t]);
      ListMoves(s, AllocStep(s, t), t);
    }
  }

  // ---------------------------------------------------------------- filling a fresh block

  ghost predicate FillStep(s: State, t: nat) {
    && Shape(s) && t < |s.th| && Filling(s.th[t].pc) && PcOk(s, t) && ThreadShape(s.bs, |s.bls|, s.th[t])
    && FlPcOk(s, t) && BlockOk(s, s.th[t].pc.b) && s.fl.place[s.th[t].pc.b] == Below(s, s.th[t].pc.b)
    && IncOk(s, s.ver) && s.ver != 0
    && (!s.th[t].pc.Popped? ==> IncOk(s, s.th[t].pc.v))
  }

  lemma FillShape(s: State, t: nat)
    requires FillStep(s, t)
    ensures Shape(AllocStep(s, t))
  {
    var pc, th := s.th[t].pc, s.th[t];
    if pc.Titled? {
      var d := th.job.key + th.job.val + s.dat[pc.b][|th.job.key| + |th.job.val|..];
      assert |d| == s.bs;
    }
  }

  lemma FillSelf(s: State, t: nat)
    requires FillStep(s, t)
    ensures var s', b := AllocStep(s, t), s.th[t].pc.b;
      Shape(s') && BlockOk(s', b) && s'.fl.place[b] == Below(s', b) && PcOk(s', t) && FlPcOk(s', t)
  {
    FillShape(s, t);
    var pc, th, s' := s.th[t].pc, s.th[t], AllocStep(s, t);
    if pc.Titled? {
      assert s'.dat[pc.b][..s'.bls[pc.b].len] == th.job.key + th.job.val;
    }
  }

  lemma FillOwn(s: State, t: nat)
    requires FillStep(s, t)
    requires var b := s.th[t].pc.b; s.bls[b].version !in s.pub && SumHolds(s.th, VerIdx(b, s.bls[b].version)) == 0
    requires s.th[t].pc.Popped? ==> s.ver !in s.incs
    ensures OwnStep(s, AllocStep(s, t), t, s.th[t].pc.b)
  {
    FillShape(s, t);
  }

  /** Nobody has taken a reader of a list that was never in a slot. */
  lemma Unread(s: State, vi: VerIdx)
    requires Inv(s) && vi.ver !in s.pub
    ensures SumHolds(s.th, vi) == 0
  {
    forall u | 0 <= u < |s.th| ensures Holds(s.th[u].pc, vi) == 0 { assert PcOk(s, u); }
    SumZero(s.th, vi);
  }

  lemma FillReaders(s: State, t: nat)
    requires FillStep(s, t) && ReadersOk(s, s.th[t].pc.b)
    requires var b := s.th[t].pc.b;
      SumHolds(s.th, VerIdx(b, s.bls[b].version)) == SumHolds(s.th, VerIdx(b, AllocStep(s, t).bls[b].version)) == 0
    ensures var s', b := AllocStep(s, t), s.th[t].pc.b; Shape(s') && ReadersOk(s', b)
  {
    FillShape(s, t);
    var s', b := AllocStep(s, t), s.th[t].pc.b;
    SumUpdate(s.th, t, s'.th[t], VerIdx(b, s'.bls[b].version));
  }

  lemma FillEnds(s: State, t: nat)
    requires FillStep(s, t) && ReadersOk(s, s.th[t].pc.b) && (s.th[t].pc.Popped? ==> s.ver !in s.incs)
    requires s.bls[s.th[t].pc.b].version !in s.pub
    requires var b := s.th[t].pc.b;
      SumHolds(s.th, VerIdx(b, s.bls[b].version)) == SumHolds(s.th, VerIdx(b, AllocStep(s, t).bls[b].version)) == 0
    ensures var s', b := AllocStep(s, t), s.th[t].pc.b;
      && OwnStep(s, s', t, b) && BlockOk(s', b) && s'.fl.place[b] == Below(s', b) && ReadersOk(s', b)
      && PcOk(s', t) && FlPcOk(s', t) && s'.fl == s.fl
  {
    FillSelf(s, t);
    FillOwn(s, t);
    FillReaders(s, t);
  }

  lemma FillKeeps(s: State, t: nat)
    requires Inv(s) && t < |s.th| && Filling(s.th[t].pc)
    ensures Inv(AllocStep(s, t))
  {
    var s', b := AllocStep(s, t), s.th[t].pc.b;
    assert PcOk(s, t) && FlPcOk(s, t) && ThreadShape(s.bs, |s.bls|, s.th[t]);
    assert BlockOk(s, b) && ReadersOk(s, b) && s.fl.place[b] == Below(s, b) && IncOk(s, s.ver) && IncOk(s, 0);
    if !s.th[t].pc.Popped? { assert IncOk(s, s.th[t].pc.v); }
    FillShape(s, t);
    Unread(s, VerIdx(b, s.bls[b].version));
    Unread(s, VerIdx(b, s'.bls[b].version));
    FillEnds(s, t);
    forall v ensures IncOk(s', v) { assert IncOk(s, v); FillIncs(s, t, v); }
    OwnStepKeeps(s, s', t, b);
  }

  lemma FillIncs(s: State, t: nat, v: nat)
    requires FillStep(s, t) && IncOk(s, v)
    ensures IncOk(AllocStep(s, t), v)
  {
  }

  lemma AllocKeeps(s: State, t: nat)
    requires Inv(s) && t < |s.th| && (s.th[t].pc.Popping? || Filling(s.th[t].pc))
    ensures Inv(AllocStep(s, t))
  {
    if s.th[t].pc.Popping? { PoppingKeeps(s, t); } else { FillKeeps(s, t); }
  }

  // ---------------------------------------------------------------- returning a block

  ghost predicate ReturnStep(s: State, t: nat) {
    && Shape(s) && t < |s.th| && AtFree(s.th[t].pc) && PcOk(s, t) && FlPcOk(s, t)
    && ThreadShape(s.bs, |s.bls|, s.th[t]) && BlockOk(s, s.th[t].pc.b)
    && ReadersOk(s, s.th[t].pc.b) && s.fl.place[s.th[t].pc.b] == Below(s, s.th[t].pc.b)
    && 0 !in s.pub && FL.Shape(FreeStep(s, t).fl)
    && (s.th[t].pc.Pushing? ==> s.fl.pcs[t].PushLinked? && s.fl.head == s.fl.pcs[t].cur)
  }

  lemma ReturnPushed(s: State, t: nat)
    requires ReturnStep(s, t) && s.th[t].pc.Pushing?
    ensures var s', b := FreeStep(s, t), s.th[t].pc.b; Shape(s') && s'.bls[b].version == 0 && s'.place[b] == Free
  {
  }

  lemma ReturnShape(s: State, t: nat)
    requires ReturnStep(s, t)
    ensures var s', b := FreeStep(s, t), s.th[t].pc.b;
      && Shape(s') && s'.bls[b].version == 0
      && (if s.th[t].pc.Pushing? then s'.place[b] == Free
          else s'.place[b] == Returning(t) && AtFree(s'.th[t].pc) && !s'.th[t].pc.Clear? && s'.th[t].pc.b == b)
  {
    if s.th[t].pc.Pushing? { ReturnPushed(s, t); } else { ReturnCleared(s, t); }
  }

  lemma ReturnCleared(s: State, t: nat)
    requires ReturnStep(s, t) && !s.th[t].pc.Pushing?
    ensures var s', b := FreeStep(s, t), s.th[t].pc.b;
      && Shape(s') && s'.bls[b].version == 0 && s'.place[b] == Returning(t)
      && AtFree(s'.th[t].pc) && !s'.th[t].pc.Clear? && s'.th[t].pc.b == b
  {
  }

  lemma ReturnOwn(s: State, t: nat)
    requires ReturnStep(s, t)
    ensures Shape(FreeStep(s, t)) && OwnStep(s, FreeStep(s, t), t, s.th[t].pc.b)
  {
    ReturnShape(s, t);
  }

  lemma ReturnSelf(s: State, t: nat)
    requires ReturnStep(s, t)
    ensures var s', b := FreeStep(s, t), s.th[t].pc.b;
      Shape(s') && BlockOk(s', b) && s'.fl.place[b] == Below(s', b)
  {
    ReturnShape(s, t);
  }

  lemma ReturnPc(s: State, t: nat)
    requires ReturnStep(s, t)
    ensures var s' := FreeStep(s, t); Shape(s') && PcOk(s', t) && FlPcOk(s', t)
  {
    ReturnShape(s, t);
  }

  lemma ReturnEnds(s: State, t: nat)
    requires ReturnStep(s, t)
    ensures var s', b := FreeStep(s, t), s.th[t].pc.b;
      && OwnStep(s, s', t, b) && BlockOk(s', b) && s'.fl.place[b] == Below(s', b) && ReadersOk(s', b)
      && PcOk(s', t) && FlPcOk(s', t) && s'.incs == s.incs && s'.ver == s.ver && s'.pub == s.pub
  {
    ReturnOwn(s, t);
    ReturnSelf(s, t);
    ReturnPc(s, t);
    ReturnShape(s, t);
  }

  lemma ReturnKeeps(s: State, t: nat)
    requires Inv(s) && t < |s.th| && AtFree(s.th[t].pc)
    requires s.th[t].pc.Pushing? ==> s.fl.pcs[t].PushLinked? && s.fl.head == s.fl.pcs[t].cur
    ensures Inv(FreeStep(s, t))
  {
    var s', b := FreeStep(s, t), s.th[t].pc.b;
    assert PcOk(s, t) && FlPcOk(s, t) && ThreadShape(s.bs, |s.bls|, s.th[t]);
    assert BlockOk(s, b) && ReadersOk(s, b) && s.fl.place[b] == Below(s, b) && IncOk(s, 0);
    if s.th[t].pc.ToPush? { FL.StartPushInv(s.fl, t, b); }
    if s.th[t].pc.Pushing? { FL.AdvanceInv(s.fl, t); }
    ReturnEnds(s, t);
    forall v ensures IncOk(s', v) { assert IncOk(s, v); }
    OwnStepKeeps(s, s', t, b);
  }

  lemma FreeKeeps(s: State, t: nat)
    requires Inv(s) && t < |s.th| && AtFree(s.th[t].pc)
    ensures Inv(FreeStep(s, t))
  {
    assert FlPcOk(s, t);
    if s.th[t].pc.Pushing? && !(s.fl.pcs[t].PushLinked? && s.fl.head == s.fl.pcs[t].cur) {
      FL.AdvanceInv(s.fl, t);
      assert PcOk(s, t) && ThreadShape(s.bs, |s.bls|, s.th[t]);
      ListMoves(s, FreeStep(s, t), t);
    } else {
      ReturnKeeps(s, t);
    }
  }
}
