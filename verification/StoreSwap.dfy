/** The steps that change a slot, and the step that deletes the list taken out of one, keep the invariant. */
module StoreSwap {
  import opened Handles
  import opened StoreSteps
  import opened StoreInvariant
  import opened StoreProof
  import opened StoreProbe

  // ---------------------------------------------------------------- put publishes

  /** put swaps its own list into slot i, which still holds vi. */
  ghost predicate Publishing(s: State, t: nat) {
    && Shape(s) && t < |s.th| && s.th[t].pc.SwapSlot? && s.th[t].job.Put?
    && PcOk(s, t) && ThreadShape(s.bs, |s.bls|, s.th[t]) && BlockOk(s, s.th[t].mine.idx)
    && (var i, vi := s.th[t].pc.i, s.th[t].pc.vi;
        s.slots[i] == vi && SlotOk(s, i) && (Live(vi) ==> BlockOk(s, vi.idx)))
  }

  lemma PublishShape(s: State, t: nat)
    requires Publishing(s, t)
    ensures var s', mine, vi := SwapStep(s, t), s.th[t].mine, s.th[t].pc.vi;
      && Shape(s') && s'.bls == s.bls && s'.dat == s.dat && s'.incs == s.incs && s'.leaks == s.leaks
      && s'.fl == s.fl && s'.ver == s.ver
      && s'.slots == s.slots[s.th[t].pc.i := mine] && s'.pub == s.pub + {mine.ver}
      && s'.th == s.th[t := s.th[t].(pc := if Live(vi) then Unlink(vi) else Done(Stored))]
      && (Live(vi) ==> mine.idx != vi.idx)
      && s'.place == (if Live(vi) then s.place[vi.idx := Unlinked(t, vi.ver)] else s.place)[
                        mine.idx := Published(s.th[t].pc.i, mine.ver)]
  {
  }

  lemma PublishMine(s: State, t: nat)
    requires Publishing(s, t)
    ensures var s' := SwapStep(s, t); Shape(s') && BlockOk(s', s.th[t].mine.idx)
  {
    PublishShape(s, t);
  }

  lemma PublishOld(s: State, t: nat)
    requires Publishing(s, t) && Live(s.th[t].pc.vi)
    ensures var s' := SwapStep(s, t); Shape(s') && BlockOk(s', s.th[t].pc.vi.idx)
  {
    PublishShape(s, t);
  }

  lemma PublishPrivate(s: State, t: nat, c: nat)
    requires Publishing(s, t) && c < |s.bls| && BlockOk(s, c) && s.place[c].Private?
    requires c != s.th[t].mine.idx && c != s.th[t].pc.vi.idx
    ensures var s' := SwapStep(s, t); Shape(s') && BlockOk(s', c)
  {
    PublishShape(s, t);
    assert s.incs[s.th[t].mine.ver].idx == s.th[t].mine.idx;
  }

  lemma PublishOther(s: State, t: nat, c: nat)
    requires Publishing(s, t) && c < |s.bls| && BlockOk(s, c)
    requires c != s.th[t].mine.idx && c != s.th[t].pc.vi.idx
    ensures var s' := SwapStep(s, t); Shape(s') && BlockOk(s', c)
  {
    if s.place[c].Private? { PublishPrivate(s, t, c); } else { PublishShape(s, t); }
  }

  lemma PublishBlock(s: State, t: nat, c: nat)
    requires Publishing(s, t) && c < |s.bls| && BlockOk(s, c)
    ensures var s' := SwapStep(s, t); Shape(s') && BlockOk(s', c)
  {
    if c == s.th[t].mine.idx { PublishMine(s, t); }
    else if c == s.th[t].pc.vi.idx { PublishOld(s, t); }
    else { PublishOther(s, t, c); }
  }

  lemma PublishBelow(s: State, t: nat, c: nat)
    requires Publishing(s, t) && c < |s.bls| && BlockOk(s, c) && s.fl.place[c] == Below(s, c)
    ensures var s' := SwapStep(s, t); Shape(s') && s'.fl.place[c] == Below(s', c)
  {
    PublishShape(s, t);
  }

  lemma PublishPc(s: State, t: nat, u: nat)
    requires Publishing(s, t) && u < |s.th| && PcOk(s, u)
    ensures var s' := SwapStep(s, t); Shape(s') && PcOk(s', u)
  {
    PublishShape(s, t);
    assert forall key, val :: WasPut(s, key, val) ==> WasPut(SwapStep(s, t), key, val);
  }

  lemma PublishReaders(s: State, t: nat, c: nat)
    requires Publishing(s, t) && c < |s.bls| && ReadersOk(s, c)
    ensures var s' := SwapStep(s, t); Shape(s') && ReadersOk(s', c)
  {
    PublishShape(s, t);
    SumUpdate(s.th, t, SwapStep(s, t).th[t], VerIdx(c, s.bls[c].version));
  }

  lemma PublishKeeps(s: State, t: nat)
    requires Inv(s) && Publishing(s, t)
    ensures Inv(SwapStep(s, t))
  {
    var s' := SwapStep(s, t);
    PublishShape(s, t);
    assert FlPcOk(s, t);
    forall c | 0 <= c < |s'.bls| ensures BlockOk(s', c) && s'.fl.place[c] == Below(s', c) {
      PublishBlock(s, t, c);
      PublishBelow(s, t, c);
    }
    forall c | 0 <= c < |s'.bls| ensures ReadersOk(s', c) {
      assert ReadersOk(s, c);
      PublishReaders(s, t, c);
    }
    forall u | 0 <= u < |s'.th| ensures PcOk(s', u) { PublishPc(s, t, u); }
    forall u | 0 <= u < |s'.th| ensures FlPcOk(s', u) { assert FlPcOk(s, u); }
    forall v ensures IncOk(s', v) { assert IncOk(s, v); }
    forall j | 0 <= j < |s'.slots| ensures SlotOk(s', j) { assert SlotOk(s, j); }
  }

  // ---------------------------------------------------------------- del takes a list out of its slot

  ghost predicate Deleting(s: State, t: nat) {
    && Shape(s) && t < |s.th| && s.th[t].pc.SwapSlot? && s.th[t].job.Del?
    && PcOk(s, t) && ThreadShape(s.bs, |s.bls|, s.th[t])
    && (var i, vi := s.th[t].pc.i, s.th[t].pc.vi;
        s.slots[i] == vi && SlotOk(s, i) && BlockOk(s, vi.idx))
  }

  lemma DeleteShape(s: State, t: nat)
    requires Deleting(s, t)
    ensures var s', vi := SwapStep(s, t), s.th[t].pc.vi;
      && Shape(s') && s' == s.(slots := s.slots[s.th[t].pc.i := VerIdx(DELETED, 0)],
           place := s.place[vi.idx := Unlinked(t, vi.ver)], th := s.th[t := s.th[t].(pc := Unlink(vi))])
  {
  }

  lemma DeletePrivate(s: State, t: nat, c: nat)
    requires Deleting(s, t) && c < |s.bls| && BlockOk(s, c) && s.place[c].Private?
    ensures var s' := SwapStep(s, t); Shape(s') && BlockOk(s', c)
  {
    DeleteShape(s, t);
  }

  lemma DeleteBlock(s: State, t: nat, c: nat)
    requires Deleting(s, t) && c < |s.bls| && BlockOk(s, c) && s.fl.place[c] == Below(s, c)
    ensures var s' := SwapStep(s, t); Shape(s') && BlockOk(s', c) && s'.fl.place[c] == Below(s', c)
  {
    DeleteShape(s, t);
    if s.place[c].Private? { DeletePrivate(s, t, c); }
  }

  lemma DeletePc(s: State, t: nat, u: nat)
    requires Deleting(s, t) && u < |s.th| && PcOk(s, u)
    ensures var s' := SwapStep(s, t); Shape(s') && PcOk(s', u)
  {
    DeleteShape(s, t);
  }

  lemma DeleteKeeps(s: State, t: nat)
    requires Inv(s) && Deleting(s, t)
    ensures Inv(SwapStep(s, t))
  {
    var s' := SwapStep(s, t);
    DeleteShape(s, t);
    assert FlPcOk(s, t);
    forall c | 0 <= c < |s'.bls| ensures BlockOk(s', c) && s'.fl.place[c] == Below(s', c) { DeleteBlock(s, t, c); }
    forall c | 0 <= c < |s'.bls| ensures ReadersOk(s', c) {
      assert ReadersOk(s, c);
      SumUpdate(s.th, t, s'.th[t], VerIdx(c, s.bls[c].version));
    }
    forall u | 0 <= u < |s'.th| ensures PcOk(s', u) { DeletePc(s, t, u); }
    forall u | 0 <= u < |s'.th| ensures FlPcOk(s', u) { assert FlPcOk(s, u); }
    forall v ensures IncOk(s', v) { assert IncOk(s, v); }
    forall j | 0 <= j < |s'.slots| ensures SlotOk(s', j) { assert SlotOk(s, j); }
  }

  // ---------------------------------------------------------------- deleting the list

  ghost predicate Condemning(s: State, t: nat) {
    && Shape(s) && t < |s.th| && s.th[t].pc.Unlink? && s.th[t].pc.vi.ver != 0
    && PcOk(s, t) && ThreadShape(s.bs, |s.bls|, s.th[t])
    && (var vi := s.th[t].pc.vi; BlockOk(s, vi.idx) && ReadersOk(s, vi.idx) && s.bls[vi.idx].readers != 0)
  }

  lemma CondemnShape(s: State, t: nat)
    requires Condemning(s, t)
    ensures var s', vi := SwapStep(s, t), s.th[t].pc.vi;
      && Shape(s') && s' == s.(bls := s.bls[vi.idx := s.bls[vi.idx].(deleted := true)],
           place := s.place[vi.idx := Condemned(vi.ver)],
           th := s.th[t := s.th[t].(pc := Done(if s.th[t].job.Put? then Stored else Removed))])
  {
  }

  lemma CondemnBelow(s: State, t: nat, c: nat)
    requires Condemning(s, t) && c < |s.bls| && BlockOk(s, c) && s.fl.place[c] == Below(s, c)
    ensures var s' := SwapStep(s, t); Shape(s') && s'.fl.place[c] == Below(s', c)
  {
    CondemnShape(s, t);
  }

  lemma CondemnPrivate(s: State, t: nat, c: nat)
    requires Condemning(s, t) && c < |s.bls| && BlockOk(s, c) && s.place[c].Private?
    ensures var s' := SwapStep(s, t); Shape(s') && BlockOk(s', c)
  {
    CondemnShape(s, t);
  }

  lemma CondemnOwn(s: State, t: nat)
    requires Condemning(s, t) && !s.place[s.th[t].pc.vi.idx].Private?
    ensures var s' := SwapStep(s, t); Shape(s') && BlockOk(s', s.th[t].pc.vi.idx)
  {
    CondemnShape(s, t);
  }

  lemma CondemnBlock(s: State, t: nat, c: nat)
    requires Condemning(s, t) && c < |s.bls| && BlockOk(s, c) && s.fl.place[c] == Below(s, c)
    ensures var s' := SwapStep(s, t); Shape(s') && BlockOk(s', c) && s'.fl.place[c] == Below(s', c)
  {
    CondemnBelow(s, t, c);
    if s.place[c].Private? { CondemnPrivate(s, t, c); }
    else if c == s.th[t].pc.vi.idx { CondemnOwn(s, t); }
    else { CondemnShape(s, t); }
  }

  lemma CondemnPc(s: State, t: nat, u: nat)
    requires Condemning(s, t) && u < |s.th| && PcOk(s, u)
    ensures var s' := SwapStep(s, t); Shape(s') && PcOk(s', u)
  {
    CondemnShape(s, t);
  }

  lemma CondemnReaders(s: State, t: nat, c: nat)
    requires Condemning(s, t) && c < |s.bls| && ReadersOk(s, c)
    ensures var s' := SwapStep(s, t); Shape(s') && ReadersOk(s', c)
  {
    CondemnShape(s, t);
    SumUpdate(s.th, t, SwapStep(s, t).th[t], VerIdx(c, s.bls[c].version));
  }

  lemma CondemnKeeps(s: State, t: nat)
    requires Inv(s) && Condemning(s, t)
    ensures Inv(SwapStep(s, t))
  {
    var s' := SwapStep(s, t);
    CondemnShape(s, t);
    assert FlPcOk(s, t);
    forall c | 0 <= c < |s'.bls| ensures BlockOk(s', c) && s'.fl.place[c] == Below(s', c) { CondemnBlock(s, t, c); }
    forall c | 0 <= c < |s'.bls| ensures ReadersOk(s', c) {
      assert ReadersOk(s, c);
      CondemnReaders(s, t, c);
    }
    forall u | 0 <= u < |s'.th| ensures PcOk(s', u) { CondemnPc(s, t, u); }
    forall u | 0 <= u < |s'.th| ensures FlPcOk(s', u) { assert FlPcOk(s, u); }
    forall v ensures IncOk(s', v) { assert IncOk(s, v); }
    forall j | 0 <= j < |s'.slots| ensures SlotOk(s', j) { assert SlotOk(s, j); }
  }

  lemma UnlinkKeeps(s: State, t: nat)
    requires Inv(s) && t < |s.th| && s.th[t].pc.Unlink?
    ensures Inv(SwapStep(s, t))
  {
    var vi := s.th[t].pc.vi;
    var r := s.bls[vi.idx];
    assert PcOk(s, t) && ThreadShape(s.bs, |s.bls|, s.th[t]);
    assert BlockOk(s, vi.idx) && ReadersOk(s, vi.idx);
    KnownIsNumbered(s, vi);
    if r.readers == 0 {
      var k := Return(if s.th[t].job.Put? then Stored else Removed);
      FreeingKeeps(s, t, vi.idx, r.(deleted := true), k);
      assert SwapStep(s, t) == Freeing(s, t, vi.idx, r.(deleted := true), k);
    } else {
      CondemnKeeps(s, t);
    }
  }

  lemma SwapKeeps(s: State, t: nat)
    requires Inv(s) && t < |s.th| && (s.th[t].pc.SwapSlot? || s.th[t].pc.Unlink?)
    ensures Inv(SwapStep(s, t))
  {
    if s.th[t].pc.Unlink? {
      UnlinkKeeps(s, t);
    } else {
      var i, vi := s.th[t].pc.i, s.th[t].pc.vi;
      assert PcOk(s, t) && ThreadShape(s.bs, |s.bls|, s.th[t]) && SlotOk(s, i);
      if s.slots[i] != vi {
        Move(s, t, LoadSlot(i));
      } else {
        if Live(vi) { assert BlockOk(s, vi.idx); }
        if s.th[t].job.Put? { assert BlockOk(s, s.th[t].mine.idx); PublishKeeps(s, t); } else { DeleteKeeps(s, t); }
      }
    }
  }
}
