/** Every step of every thread keeps the invariant of StoreInvariant. */
module StoreProof {
  import opened Handles
  import opened StoreSteps
  import opened StoreInvariant

  // ---------------------------------------------------------------- steps that only take or drop readers

  /** Program points at which a thread owns no block other than its own unpublished list. */
  predicate Plain(pc: Pc) {
    !pc.Popping? && !pc.Popped? && !pc.Numbered? && !pc.Recorded? && !pc.Titled? && !pc.Unlink? && !AtFree(pc)
  }

  function WithReader(s: State, t: nat, pc: Pc, b: nat, readers: int, leak: nat): State
    requires Shape(s) && t < |s.th| && b < |s.bls|
  {
    s.(th := s.th[t := s.th[t].(pc := pc)], bls := s.bls[b := s.bls[b].(readers := readers)],
       leaks := s.leaks[b := leak])
  }

  /** A count that may move: the block belongs to a list that has been in a slot and is not yet returned. */
  predicate Shared(p: Place) { p.Published? || p.Unlinked? || p.Condemned? }

  ghost predicate SameClaims(x: Thread, y: Thread) {
    forall b, v :: Owns(x, b, v) == Owns(y, b, v)
  }

  ghost predicate QuietStep(s: State, t: nat, pc: Pc, b: nat, readers: int, leak: nat) {
    && Shape(s) && t < |s.th| && b < |s.bls|
    && Plain(s.th[t].pc) && Plain(pc) && ThreadShape(s.bs, |s.bls|, s.th[t].(pc := pc))
    && SameClaims(s.th[t], s.th[t].(pc := pc))
    && (var vi := VerIdx(b, s.bls[b].version);
        && readers - s.bls[b].readers == Holds(pc, vi) - Holds(s.th[t].pc, vi) + leak - s.leaks[b]
        && forall w | w != vi :: Holds(pc, w) == Holds(s.th[t].pc, w))
    && (Shared(s.place[b]) || (readers == s.bls[b].readers && leak == s.leaks[b]))
    && (s.place[b].Condemned? ==> readers > 0)
  }

  lemma QuietShape(s: State, t: nat, pc: Pc, b: nat, readers: int, leak: nat)
    requires QuietStep(s, t, pc, b, readers, leak)
    ensures Shape(WithReader(s, t, pc, b, readers, leak))
  {
  }

  lemma QuietReaders(s: State, t: nat, pc: Pc, b: nat, readers: int, leak: nat, c: nat)
    requires QuietStep(s, t, pc, b, readers, leak) && c < |s.bls| && ReadersOk(s, c)
    ensures var s' := WithReader(s, t, pc, b, readers, leak); Shape(s') && ReadersOk(s', c)
  {
    QuietShape(s, t, pc, b, readers, leak);
    SumUpdate(s.th, t, s.th[t].(pc := pc), VerIdx(c, s.bls[c].version));
  }

  lemma QuietPc(s: State, t: nat, pc: Pc, b: nat, readers: int, leak: nat, u: nat)
    requires QuietStep(s, t, pc, b, readers, leak) && u < |s.th| && u != t && PcOk(s, u)
    ensures var s' := WithReader(s, t, pc, b, readers, leak); Shape(s') && PcOk(s', u)
  {
    QuietShape(s, t, pc, b, readers, leak);
  }

  lemma QuietBlock(s: State, t: nat, pc: Pc, b: nat, readers: int, leak: nat, c: nat)
    requires QuietStep(s, t, pc, b, readers, leak) && c < |s.bls| && BlockOk(s, c) && s.fl.place[c] == Below(s, c)
    ensures var s' := WithReader(s, t, pc, b, readers, leak);
      Shape(s') && BlockOk(s', c) && s'.fl.place[c] == Below(s', c)
  {
    QuietShape(s, t, pc, b, readers, leak);
  }

  lemma Quiet(s: State, t: nat, pc: Pc, b: nat, readers: int, leak: nat)
    requires Inv(s) && QuietStep(s, t, pc, b, readers, leak)
    requires var s' := WithReader(s, t, pc, b, readers, leak); Shape(s') ==> PcOk(s', t)
    ensures Inv(WithReader(s, t, pc, b, readers, leak))
  {
    var s' := WithReader(s, t, pc, b, readers, leak);
    QuietShape(s, t, pc, b, readers, leak);
    forall c | 0 <= c < |s'.bls| ensures ReadersOk(s', c) { QuietReaders(s, t, pc, b, readers, leak, c); }
    forall u | 0 <= u < |s'.th| ensures FlPcOk(s', u) { assert FlPcOk(s, u) && FlPcOk(s, t); }
    forall c | 0 <= c < |s'.bls| ensures BlockOk(s', c) && s'.fl.place[c] == Below(s', c) {
      QuietBlock(s, t, pc, b, readers, leak, c);
    }
    forall u | 0 <= u < |s'.th| ensures PcOk(s', u) {
      if u != t { QuietPc(s, t, pc, b, readers, leak, u); }
    }
    forall v ensures IncOk(s', v) { assert IncOk(s, v); }
    forall i | 0 <= i < |s'.slots| ensures SlotOk(s', i) { assert SlotOk(s, i); }
  }

  // ---------------------------------------------------------------- a put gives up

  function Abandoned(s: State, t: nat, pc: Pc): State
    requires Shape(s) && t < |s.th|
  {
    s.(th := s.th[t := s.th[t].(pc := pc)], place := StoreSteps.Abandon(s, t))
  }

  ghost predicate AbandonStep(s: State, t: nat, pc: Pc) {
    && Shape(s) && t < |s.th| && s.th[t].job.Put? && PcOk(s, t) && BlockOk(s, s.th[t].mine.idx)
    && ((s.th[t].pc.LoadSlot? && pc == Done(GaveUp))
        || (s.th[t].pc.Clear? && s.th[t].pc.k.Probe? && pc == Clear(s.th[t].pc.b, Return(GaveUp))))
  }

  lemma AbandonShape(s: State, t: nat, pc: Pc)
    requires AbandonStep(s, t, pc)
    ensures Shape(Abandoned(s, t, pc))
  {
    assert ThreadShape(s.bs, |s.bls|, s.th[t]);
  }

  lemma AbandonPc(s: State, t: nat, pc: Pc, u: nat)
    requires AbandonStep(s, t, pc) && u < |s.th| && PcOk(s, u)
    ensures var s' := Abandoned(s, t, pc); Shape(s') && PcOk(s', u)
  {
    AbandonShape(s, t, pc);
  }

  lemma AbandonPrivate(s: State, t: nat, pc: Pc, c: nat)
    requires AbandonStep(s, t, pc) && c < |s.bls| && BlockOk(s, c) && s.place[c].Private?
    ensures var s' := Abandoned(s, t, pc); Shape(s') && BlockOk(s', c)
  {
    AbandonShape(s, t, pc);
  }

  lemma AbandonBlock(s: State, t: nat, pc: Pc, c: nat)
    requires AbandonStep(s, t, pc) && c < |s.bls| && BlockOk(s, c)
    ensures var s' := Abandoned(s, t, pc); Shape(s') && BlockOk(s', c)
  {
    AbandonShape(s, t, pc);
    if s.place[c].Private? { AbandonPrivate(s, t, pc, c); }
  }

  lemma AbandonCounts(s: State, t: nat, pc: Pc, c: nat)
    requires AbandonStep(s, t, pc) && c < |s.bls| && ReadersOk(s, c) && s.fl.place[c] == Below(s, c)
    ensures var s' := Abandoned(s, t, pc); Shape(s') && ReadersOk(s', c) && s'.fl.place[c] == Below(s', c)
  {
    AbandonShape(s, t, pc);
    SumUpdate(s.th, t, s.th[t].(pc := pc), VerIdx(c, s.bls[c].version));
  }

  lemma AbandonKeeps(s: State, t: nat, pc: Pc)
    requires Inv(s) && AbandonStep(s, t, pc)
    ensures Inv(Abandoned(s, t, pc))
  {
    var s' := Abandoned(s, t, pc);
    AbandonShape(s, t, pc);
    forall c | 0 <= c < |s'.bls| ensures BlockOk(s', c) && ReadersOk(s', c) && s'.fl.place[c] == Below(s', c) {
      AbandonBlock(s, t, pc, c);
      AbandonCounts(s, t, pc, c);
    }
    forall u | 0 <= u < |s'.th| ensures PcOk(s', u) { AbandonPc(s, t, pc, u); }
    forall u | 0 <= u < |s'.th| ensures FlPcOk(s', u) { assert FlPcOk(s, u) && FlPcOk(s, t); }
    forall v ensures IncOk(s', v) { assert IncOk(s, v); }
    forall i | 0 <= i < |s'.slots| ensures SlotOk(s', i) { assert SlotOk(s, i); }
  }

  // ---------------------------------------------------------------- doFree begins

  function Freeing(s: State, t: nat, b: nat, r: Rec, k: Then): State
    requires Shape(s) && t < |s.th| && b < |s.bls|
  {
    s.(th := s.th[t := s.th[t].(pc := Clear(b, k))], bls := s.bls[b := r], place := s.place[b := Returning(t)])
  }

  /** The last reader of a deleted list, or the thread that deletes a list nobody reads. */
  ghost predicate FreeingStep(s: State, t: nat, b: nat, r: Rec, k: Then) {
    && Shape(s) && t < |s.th| && b < |s.bls| && PcOk(s, t) && BlockOk(s, b) && ReadersOk(s, b)
    && (var vi, pc := VerIdx(b, s.bls[b].version), s.th[t].pc;
        && vi.ver in s.pub && vi.ver != 0
        && r == s.bls[b].(readers := 0, deleted := true)
        && s.bls[b].readers == Holds(pc, vi)
        && (forall w | w != vi :: Holds(pc, w) == 0)
        && (if pc.Unlink? then pc.vi == vi && s.bls[b].readers == 0
            else (pc.CmpDec? || pc.GetDec?) && s.bls[b].deleted && s.bls[b].readers == 1))
    && ThenShape(|s.bls|, k) && ThenOk(s, t, k)
    && (s.th[t].job.Put? && s.th[t].pc.CmpDec? ==> k.Probe?)
  }

  lemma FreeingPlace(s: State, t: nat, b: nat, r: Rec, k: Then)
    requires FreeingStep(s, t, b, r, k)
    ensures s.place[b] == (if s.th[t].pc.Unlink? then Unlinked(t, s.bls[b].version) else Condemned(s.bls[b].version))
    ensures forall u | 0 <= u < |s.th| && u != t :: Holds(s.th[u].pc, VerIdx(b, s.bls[b].version)) == 0
  {
    var vi := VerIdx(b, s.bls[b].version);
    SumUpdate(s.th, t, s.th[t], vi);
    forall u | 0 <= u < |s.th| && u != t ensures Holds(s.th[u].pc, vi) == 0 {
      var idle := s.th[t].(pc := Idle);
      SumUpdate(s.th, t, idle, vi);
      SumUpdate(s.th[t := idle], u, s.th[u], vi);
    }
  }

  lemma FreeingShape(s: State, t: nat, b: nat, r: Rec, k: Then)
    requires FreeingStep(s, t, b, r, k)
    ensures Shape(Freeing(s, t, b, r, k))
  {
    assert ThreadShape(s.bs, |s.bls|, s.th[t]);
  }

  lemma FreeingSelf(s: State, t: nat, b: nat, r: Rec, k: Then)
    requires FreeingStep(s, t, b, r, k) && s.fl.place[b] == Below(s, b)
    ensures var s' := Freeing(s, t, b, r, k); Shape(s') && BlockOk(s', b) && s'.fl.place[b] == Below(s', b)
  {
    FreeingShape(s, t, b, r, k);
    FreeingPlace(s, t, b, r, k);
  }

  lemma FreeingPrivate(s: State, t: nat, b: nat, r: Rec, k: Then, c: nat)
    requires FreeingStep(s, t, b, r, k) && c < |s.bls| && c != b && BlockOk(s, c) && s.place[c].Private?
    ensures var s' := Freeing(s, t, b, r, k); Shape(s') && BlockOk(s', c)
  {
    FreeingShape(s, t, b, r, k);
  }

  lemma FreeingOther(s: State, t: nat, b: nat, r: Rec, k: Then, c: nat)
    requires FreeingStep(s, t, b, r, k) && c < |s.bls| && c != b && BlockOk(s, c)
    ensures var s' := Freeing(s, t, b, r, k); Shape(s') && BlockOk(s', c)
  {
    FreeingShape(s, t, b, r, k);
    if s.place[c].Private? { FreeingPrivate(s, t, b, r, k, c); }
  }

  lemma FreeingBelow(s: State, t: nat, b: nat, r: Rec, k: Then, c: nat)
    requires FreeingStep(s, t, b, r, k) && c < |s.bls| && c != b && s.fl.place[c] == Below(s, c)
    ensures var s' := Freeing(s, t, b, r, k); Shape(s') && s'.fl.place[c] == Below(s', c)
  {
    FreeingShape(s, t, b, r, k);
  }

  lemma FreeingReaders(s: State, t: nat, b: nat, r: Rec, k: Then, c: nat)
    requires FreeingStep(s, t, b, r, k) && c < |s.bls| && ReadersOk(s, c)
    ensures var s' := Freeing(s, t, b, r, k); Shape(s') && ReadersOk(s', c)
  {
    FreeingShape(s, t, b, r, k);
    SumUpdate(s.th, t, s.th[t].(pc := Clear(b, k)), VerIdx(c, s.bls[c].version));
  }

  lemma FreeingPc(s: State, t: nat, b: nat, r: Rec, k: Then, u: nat)
    requires FreeingStep(s, t, b, r, k) && u < |s.th| && PcOk(s, u)
    ensures var s' := Freeing(s, t, b, r, k); Shape(s') && PcOk(s', u)
  {
    FreeingShape(s, t, b, r, k);
    FreeingPlace(s, t, b, r, k);
  }

  lemma FreeingKeeps(s: State, t: nat, b: nat, r: Rec, k: Then)
    requires Inv(s) && FreeingStep(s, t, b, r, k)
    ensures Inv(Freeing(s, t, b, r, k))
  {
    var s' := Freeing(s, t, b, r, k);
    FreeingShape(s, t, b, r, k);
    FreeingPlace(s, t, b, r, k);
    forall c | 0 <= c < |s'.bls| ensures BlockOk(s', c) && ReadersOk(s', c) && s'.fl.place[c] == Below(s', c) {
      if c == b { FreeingSelf(s, t, b, r, k); } else { FreeingOther(s, t, b, r, k, c); FreeingBelow(s, t, b, r, k, c); }
      FreeingReaders(s, t, b, r, k, c);
    }
    forall u | 0 <= u < |s'.th| ensures PcOk(s', u) { FreeingPc(s, t, b, r, k, u); }
    forall u | 0 <= u < |s'.th| ensures FlPcOk(s', u) { assert FlPcOk(s, u) && FlPcOk(s, t); }
    forall v ensures IncOk(s', v) { assert IncOk(s, v); }
    forall i | 0 <= i < |s'.slots| ensures SlotOk(s', i) { assert SlotOk(s, i); }
  }
}
