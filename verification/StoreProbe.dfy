/** The probing and reading steps keep the invariant. */
module StoreProbe {
  import opened Handles
  import opened StoreSteps
  import opened StoreInvariant
  import opened StoreProof

  /** A step that touches nothing but the program counter of a thread that holds no reader. */
  lemma Move(s: State, t: nat, pc: Pc)
    requires Inv(s) && t < |s.th|
    requires Plain(s.th[t].pc) && Plain(pc) && ThreadShape(s.bs, |s.bls|, s.th[t].(pc := pc))
    requires SameClaims(s.th[t], s.th[t].(pc := pc))
    requires forall w :: Holds(pc, w) == Holds(s.th[t].pc, w)
    requires Shape(Goto(s, t, pc)) ==> PcOk(Goto(s, t, pc), t)
    ensures Inv(Goto(s, t, pc))
  {
    var r := s.bls[0];
    assert BlockOk(s, 0);
    Quiet(s, t, pc, 0, r.readers, s.leaks[0]);
    assert s.bls[0 := r] == s.bls && s.leaks[0 := s.leaks[0]] == s.leaks;
    assert WithReader(s, t, pc, 0, r.readers, s.leaks[0]) == Goto(s, t, pc);
  }

  /** Where a probe can go after a slot that did not match. */
  predicate IsStep(n: nat, job: Job, k: Then) {
    match k
    case Probe(i) => i < n
    case Return(r) => (r == Miss && !job.Put?) || (r == GaveUp && job.Put?)
    case Drop(_, _) => false
  }

  lemma NextSlotIsStep(n: nat, job: Job, i: nat)
    requires i < n
    ensures IsStep(n, job, NextSlot(n, job, i)) && IsStep(n, job, AfterRemoved(n, job, i))
  {
  }

  lemma ResumeKeeps(s: State, t: nat, k: Then)
    requires Inv(s) && t < |s.th| && s.th[t].pc.LoadSlot? && IsStep(|s.bls|, s.th[t].job, k)
    ensures Inv(Resume(s, t, k))
  {
    assert PcOk(s, t) && ThreadShape(s.bs, |s.bls|, s.th[t]);
    if k == Return(GaveUp) {
      assert BlockOk(s, s.th[t].mine.idx);
      AbandonKeeps(s, t, Done(GaveUp));
      assert Resume(s, t, k) == Abandoned(s, t, Done(GaveUp));
    } else {
      Move(s, t, PcOf(k));
    }
  }

  /** Leaving a slot that did not match, without a reader in hand. */
  lemma LeaveSlot(s: State, t: nat, k: Then)
    requires Inv(s) && t < |s.th| && IsStep(|s.bls|, s.th[t].job, k)
    requires var pc := s.th[t].pc; pc.CkHash? || pc.CkVer? || pc.CkLen? || pc.CmpInc?
    ensures Inv(Resume(s, t, k))
  {
    assert PcOk(s, t) && ThreadShape(s.bs, |s.bls|, s.th[t]);
    Move(s, t, LoadSlot(0));
    ResumeKeeps(Goto(s, t, LoadSlot(0)), t, k);
    assert s.th[t := s.th[t].(pc := LoadSlot(0))][t := s.th[t].(pc := PcOf(k))] == s.th[t := s.th[t].(pc := PcOf(k))];
    assert Resume(Goto(s, t, LoadSlot(0)), t, k) == Resume(s, t, k);
  }

  lemma KnownIsNumbered(s: State, vi: VerIdx)
    requires Inv(s) && Known(s, vi)
    ensures vi.ver != 0
  {
    assert IncOk(s, vi.ver);
  }

  lemma LoadKeeps(s: State, t: nat)
    requires Inv(s) && t < |s.th| && s.th[t].pc.LoadSlot?
    ensures Inv(ProbeStep(s, t))
  {
    var i, n := s.th[t].pc.i, |s.bls|;
    var vi := s.slots[i];
    assert PcOk(s, t) && ThreadShape(s.bs, n, s.th[t]) && SlotOk(s, i) && SlotShape(n, vi);
    if Live(vi) {
      assert BlockOk(s, vi.idx);
      Move(s, t, CkHash(i, vi));
    } else if s.th[t].job.Put? {
      Move(s, t, SwapSlot(i, vi));
    } else {
      NextSlotIsStep(n, s.th[t].job, i);
      ResumeKeeps(s, t, NextSlot(n, s.th[t].job, i));
    }
  }

  lemma CheckKeeps(s: State, t: nat)
    requires Inv(s) && t < |s.th|
    requires s.th[t].pc.CkHash? || s.th[t].pc.CkVer? || s.th[t].pc.CkLen?
    ensures Inv(ProbeStep(s, t))
  {
    var pc, n := s.th[t].pc, |s.bls|;
    var i, vi := pc.i, pc.vi;
    var k := NextSlot(n, s.th[t].job, i);
    assert PcOk(s, t) && ThreadShape(s.bs, n, s.th[t]);
    NextSlotIsStep(n, s.th[t].job, i);
    if ProbeStep(s, t) == Resume(s, t, k) {
      LeaveSlot(s, t, k);
    } else if pc.CkHash? {
      Move(s, t, CkVer(i, vi));
    } else if pc.CkVer? {
      Move(s, t, CkLen(i, vi));
    } else {
      LenAgrees(s, t);
    }
  }

  lemma LenAgrees(s: State, t: nat)
    requires Inv(s) && t < |s.th| && s.th[t].pc.CkLen?
    requires s.th[t].pc.vi.idx < |s.bls| && s.bls[s.th[t].pc.vi.idx].klen == |s.th[t].job.key|
    ensures Inv(Goto(s, t, CmpInc(s.th[t].pc.i, s.th[t].pc.vi)))
  {
    var vi := s.th[t].pc.vi;
    assert PcOk(s, t) && ThreadShape(s.bs, |s.bls|, s.th[t]) && RecShape(s.bs, s.bls[vi.idx]);
    if Current(s, vi) { CurrentIsFilled(s, vi); }
    Move(s, t, CmpInc(s.th[t].pc.i, vi));
  }

  /** While a known handle is current, its record describes what was allocated under it. */
  lemma CurrentIsFilled(s: State, vi: VerIdx)
    requires Inv(s) && Known(s, vi) && Current(s, vi)
    ensures Filled(s, vi.idx, vi.ver)
  {
    KnownIsNumbered(s, vi);
    assert BlockOk(s, vi.idx);
  }

  /** A live, undeleted, known handle: its count may move, and it is not on its way back. */
  lemma AdmitsIsShared(s: State, vi: VerIdx)
    requires Inv(s) && Known(s, vi) && Admits(s.bls[vi.idx], vi.ver)
    ensures Shared(s.place[vi.idx]) && !s.place[vi.idx].Condemned? && Filled(s, vi.idx, vi.ver)
  {
    KnownIsNumbered(s, vi);
    assert BlockOk(s, vi.idx);
  }

  /** A list some thread holds a reader of is in a slot, just taken out of one, or waiting for its readers. */
  lemma HeldIsShared(s: State, t: nat, vi: VerIdx)
    requires Inv(s) && t < |s.th| && Known(s, vi) && Current(s, vi) && Holds(s.th[t].pc, vi) > 0
    ensures Shared(s.place[vi.idx]) && Filled(s, vi.idx, vi.ver)
    ensures s.place[vi.idx].Condemned? <==> s.bls[vi.idx].deleted
    ensures s.bls[vi.idx].readers >= Holds(s.th[t].pc, vi)
  {
    KnownIsNumbered(s, vi);
    assert BlockOk(s, vi.idx) && ReadersOk(s, vi.idx);
    SumUpdate(s.th, t, s.th[t], vi);
  }

  lemma CmpIncKeeps(s: State, t: nat)
    requires Inv(s) && t < |s.th| && s.th[t].pc.CmpInc?
    ensures Inv(ProbeStep(s, t))
  {
    var pc, n := s.th[t].pc, |s.bls|;
    var i, vi := pc.i, pc.vi;
    var r := s.bls[vi.idx];
    assert PcOk(s, t) && ThreadShape(s.bs, n, s.th[t]);
    NextSlotIsStep(n, s.th[t].job, i);
    if !Admits(r, vi.ver) {
      LeaveSlot(s, t, AfterRemoved(n, s.th[t].job, i));
    } else {
      AdmitsIsShared(s, vi);
      Quiet(s, t, CmpRead(i, vi), vi.idx, r.readers + 1, s.leaks[vi.idx]);
      assert s.leaks[vi.idx := s.leaks[vi.idx]] == s.leaks;
      assert ProbeStep(s, t) == WithReader(s, t, CmpRead(i, vi), vi.idx, r.readers + 1, s.leaks[vi.idx]);
    }
  }

  lemma CmpReadKeeps(s: State, t: nat)
    requires Inv(s) && t < |s.th| && s.th[t].pc.CmpRead?
    ensures Inv(ProbeStep(s, t))
  {
    var pc := s.th[t].pc;
    var i, vi, key := pc.i, pc.vi, s.th[t].job.key;
    assert PcOk(s, t) && ThreadShape(s.bs, |s.bls|, s.th[t]);
    HeldIsShared(s, t, vi);
    var inc := s.incs[vi.ver];
    assert s.dat[vi.idx][..|key|] == s.dat[vi.idx][..s.bls[vi.idx].len][..|key|] == inc.key;
    Move(s, t, CmpDec(i, vi, s.dat[vi.idx][..|key|] == key));
  }

  /** Dropping the reader of a comparison without being the last one out. */
  lemma CmpDrop(s: State, t: nat, pc: Pc)
    requires Inv(s) && t < |s.th| && s.th[t].pc.CmpDec?
    requires var vi := s.th[t].pc.vi; !LastOut(s.bls[vi.idx], vi.ver)
    requires pc.LoadSlot? || (s.th[t].pc.eq && pc == AfterMatch(s.th[t].job, s.th[t].pc.i, s.th[t].pc.vi))
    requires pc.LoadSlot? ==> pc.i < |s.bls|
    ensures var vi := s.th[t].pc.vi;
      Inv(Goto(s.(bls := s.bls[vi.idx := Dropped(s.bls[vi.idx], vi.ver)]), t, pc))
  {
    var vi := s.th[t].pc.vi;
    var r := s.bls[vi.idx];
    assert PcOk(s, t) && ThreadShape(s.bs, |s.bls|, s.th[t]);
    HeldIsShared(s, t, vi);
    Quiet(s, t, pc, vi.idx, r.readers - 1, s.leaks[vi.idx]);
    assert s.leaks[vi.idx := s.leaks[vi.idx]] == s.leaks;
    assert WithReader(s, t, pc, vi.idx, r.readers - 1, s.leaks[vi.idx])
        == Goto(s.(bls := s.bls[vi.idx := Dropped(r, vi.ver)]), t, pc);
  }

  /** The last reader of a deleted list frees it on the way to wherever it was going. */
  lemma CmpFree(s: State, t: nat, k: Then)
    requires Inv(s) && t < |s.th| && s.th[t].pc.CmpDec? && IsStep(|s.bls|, s.th[t].job, k)
    requires var vi := s.th[t].pc.vi; LastOut(s.bls[vi.idx], vi.ver)
    ensures var vi := s.th[t].pc.vi; Inv(BeginFree(s, t, vi.idx, Dropped(s.bls[vi.idx], vi.ver), k))
  {
    var vi, n := s.th[t].pc.vi, |s.bls|;
    var r := Dropped(s.bls[vi.idx], vi.ver);
    assert PcOk(s, t) && ThreadShape(s.bs, n, s.th[t]) && BlockOk(s, vi.idx) && ReadersOk(s, vi.idx);
    HeldIsShared(s, t, vi);
    KnownIsNumbered(s, vi);
    if k == Return(GaveUp) {
      FreeingKeeps(s, t, vi.idx, r, Probe(0));
      CmpFreeGaveUp(s, Freeing(s, t, vi.idx, r, Probe(0)), t, r);
    } else {
      FreeingKeeps(s, t, vi.idx, r, k);
      assert BeginFree(s, t, vi.idx, r, k) == Freeing(s, t, vi.idx, r, k);
    }
  }

  lemma CmpFreeGaveUp(s: State, s1: State, t: nat, r: Rec)
    requires Shape(s) && t < |s.th| && s.th[t].pc.CmpDec? && s.th[t].job.Put? && ThreadShape(s.bs, |s.bls|, s.th[t])
    requires Probing(s, t) && Shared(s.place[s.th[t].pc.vi.idx])
    requires s1 == Freeing(s, t, s.th[t].pc.vi.idx, r, Probe(0)) && Inv(s1)
    ensures Inv(BeginFree(s, t, s.th[t].pc.vi.idx, r, Return(GaveUp)))
  {
    var vi, k := s.th[t].pc.vi, Return(GaveUp);
    assert PcOk(s1, t) && BlockOk(s1, s.th[t].mine.idx);
    AbandonKeeps(s1, t, Clear(vi.idx, k));
    assert s.th[t].mine.idx != vi.idx;
    assert s1.th[t := s1.th[t].(pc := Clear(vi.idx, k))] == s.th[t := s.th[t].(pc := Clear(vi.idx, k))];
    assert s1.place[s.th[t].mine.idx := Lost(s.th[t].mine.ver)]
        == s.place[s.th[t].mine.idx := Lost(s.th[t].mine.ver)][vi.idx := Returning(t)];
    assert BeginFree(s, t, vi.idx, r, k) == Abandoned(s1, t, Clear(vi.idx, k));
  }

  lemma CmpDecKeeps(s: State, t: nat)
    requires Inv(s) && t < |s.th| && s.th[t].pc.CmpDec?
    ensures Inv(ProbeStep(s, t))
  {
    var pc, n, job := s.th[t].pc, |s.bls|, s.th[t].job;
    var i, vi := pc.i, pc.vi;
    assert PcOk(s, t) && ThreadShape(s.bs, n, s.th[t]);
    NextSlotIsStep(n, job, i);
    if LastOut(s.bls[vi.idx], vi.ver) {
      CmpFree(s, t, AfterRemoved(n, job, i));
    } else if pc.eq {
      CmpDrop(s, t, AfterMatch(job, i, vi));
    } else {
      CmpDrop(s, t, LoadSlot(i));
      var s0 := s.(bls := s.bls[vi.idx := Dropped(s.bls[vi.idx], vi.ver)]);
      var s1, k := Goto(s0, t, LoadSlot(i)), NextSlot(n, job, i);
      ResumeKeeps(s1, t, k);
      assert s1.th[t := s1.th[t].(pc := PcOf(k))] == s.th[t := s.th[t].(pc := PcOf(k))];
      assert Resume(s1, t, k) == Resume(s0, t, k);
    }
  }

  lemma ProbeKeeps(s: State, t: nat)
    requires Inv(s) && t < |s.th|
    requires var pc := s.th[t].pc;
      pc.LoadSlot? || pc.CkHash? || pc.CkVer? || pc.CkLen? || pc.CmpInc? || pc.CmpRead? || pc.CmpDec?
    ensures Inv(ProbeStep(s, t))
  {
    match s.th[t].pc
    case LoadSlot(_) => LoadKeeps(s, t);
    case CmpInc(_, _) => CmpIncKeeps(s, t);
    case CmpRead(_, _) => CmpReadKeeps(s, t);
    case CmpDec(_, _, _) => CmpDecKeeps(s, t);
    case _ => CheckKeeps(s, t);
  }

  // ---------------------------------------------------------------- CncrStr::get

  lemma GetIncTakes(s: State, t: nat)
    requires Inv(s) && t < |s.th| && s.th[t].pc.GetInc?
    requires var vi := s.th[t].pc.vi; vi.idx < |s.bls| && Admits(s.bls[vi.idx], vi.ver)
    ensures Inv(ReadStep(s, t))
  {
    var vi, th := s.th[t].pc.vi, s.th[t];
    var r := s.bls[vi.idx];
    assert PcOk(s, t) && ThreadShape(s.bs, |s.bls|, th);
    AdmitsIsShared(s, vi);
    var leak, big := s.leaks[vi.idx], r.len - r.klen > th.job.maxlen;
    var pc := if big then Done(TooBig) else RdInc(vi, r.klen, r.len - r.klen);
    Quiet(s, t, pc, vi.idx, r.readers + 1, if big then leak + 1 else leak);
    assert s.leaks[vi.idx := leak] == s.leaks;
    assert ReadStep(s, t) == WithReader(s, t, pc, vi.idx, r.readers + 1, if big then leak + 1 else leak);
  }

  lemma GetIncKeeps(s: State, t: nat)
    requires Inv(s) && t < |s.th| && s.th[t].pc.GetInc?
    ensures Inv(ReadStep(s, t))
  {
    assert PcOk(s, t) && ThreadShape(s.bs, |s.bls|, s.th[t]);
    if Admits(s.bls[s.th[t].pc.vi.idx], s.th[t].pc.vi.ver) { GetIncTakes(s, t); } else { Move(s, t, Done(Vanished)); }
  }

  lemma RdIncKeeps(s: State, t: nat)
    requires Inv(s) && t < |s.th| && s.th[t].pc.RdInc?
    ensures Inv(ReadStep(s, t))
  {
    var pc := s.th[t].pc;
    var vi := pc.vi;
    var r := s.bls[vi.idx];
    assert PcOk(s, t) && ThreadShape(s.bs, |s.bls|, s.th[t]);
    if Admits(r, vi.ver) {
      AdmitsIsShared(s, vi);
      Quiet(s, t, RdCopy(vi, pc.at, pc.vlen), vi.idx, r.readers + 1, s.leaks[vi.idx]);
      assert s.leaks[vi.idx := s.leaks[vi.idx]] == s.leaks;
      assert ReadStep(s, t)
          == WithReader(s, t, RdCopy(vi, pc.at, pc.vlen), vi.idx, r.readers + 1, s.leaks[vi.idx]);
    } else {
      Move(s, t, GetDec(vi, []));
    }
  }

  lemma RdCopyKeeps(s: State, t: nat)
    requires Inv(s) && t < |s.th| && s.th[t].pc.RdCopy?
    ensures Inv(ReadStep(s, t))
  {
    var pc := s.th[t].pc;
    var vi := pc.vi;
    assert PcOk(s, t) && ThreadShape(s.bs, |s.bls|, s.th[t]);
    HeldIsShared(s, t, vi);
    var inc, len := s.incs[vi.ver], s.bls[vi.idx].len;
    assert s.dat[vi.idx][pc.at..pc.at + pc.vlen] == s.dat[vi.idx][..len][|inc.key|..] == inc.val;
    Move(s, t, RdDec(vi, s.dat[vi.idx][pc.at..pc.at + pc.vlen]));
  }

  lemma RdDecKeeps(s: State, t: nat)
    requires Inv(s) && t < |s.th| && s.th[t].pc.RdDec?
    ensures Inv(ReadStep(s, t))
  {
    var vi, out := s.th[t].pc.vi, s.th[t].pc.out;
    var r := s.bls[vi.idx];
    assert PcOk(s, t) && ThreadShape(s.bs, |s.bls|, s.th[t]);
    HeldIsShared(s, t, vi);
    Quiet(s, t, GetDec(vi, out), vi.idx, r.readers - 1, s.leaks[vi.idx]);
    assert s.leaks[vi.idx := s.leaks[vi.idx]] == s.leaks;
    assert ReadStep(s, t) == WithReader(s, t, GetDec(vi, out), vi.idx, r.readers - 1, s.leaks[vi.idx]);
  }

  lemma GetDecFrees(s: State, t: nat)
    requires Inv(s) && t < |s.th| && s.th[t].pc.GetDec?
    requires var vi := s.th[t].pc.vi; vi.idx < |s.bls| && LastOut(s.bls[vi.idx], vi.ver)
    ensures Inv(ReadStep(s, t))
  {
    var vi, out := s.th[t].pc.vi, s.th[t].pc.out;
    var r, k := s.bls[vi.idx], Return(if out == [] then Vanished else Hit(out));
    assert PcOk(s, t) && ThreadShape(s.bs, |s.bls|, s.th[t]);
    HeldIsShared(s, t, vi);
    assert ResultOk(s, s.th[t], k.r);
    KnownIsNumbered(s, vi);
    assert BlockOk(s, vi.idx) && ReadersOk(s, vi.idx);
    FreeingKeeps(s, t, vi.idx, Dropped(r, vi.ver), k);
    assert ReadStep(s, t) == Freeing(s, t, vi.idx, Dropped(r, vi.ver), k);
  }

  lemma GetDecKeeps(s: State, t: nat)
    requires Inv(s) && t < |s.th| && s.th[t].pc.GetDec?
    ensures Inv(ReadStep(s, t))
  {
    var vi, out := s.th[t].pc.vi, s.th[t].pc.out;
    assert PcOk(s, t) && ThreadShape(s.bs, |s.bls|, s.th[t]);
    var r, k := s.bls[vi.idx], Return(if out == [] then Vanished else Hit(out));
    if LastOut(r, vi.ver) {
      GetDecFrees(s, t);
    } else {
      HeldIsShared(s, t, vi);
      var s' := WithReader(s, t, PcOf(k), vi.idx, r.readers - 1, s.leaks[vi.idx]);
      assert s.leaks[vi.idx := s.leaks[vi.idx]] == s.leaks;
      assert ReadStep(s, t) == s';
      assert out != [] ==> WasPut(s', s.th[t].job.key, out);
      Quiet(s, t, PcOf(k), vi.idx, r.readers - 1, s.leaks[vi.idx]);
    }
  }

  lemma ReadKeeps(s: State, t: nat)
    requires Inv(s) && t < |s.th|
    requires var pc := s.th[t].pc; pc.GetInc? || pc.RdInc? || pc.RdCopy? || pc.RdDec? || pc.GetDec?
    ensures Inv(ReadStep(s, t))
  {
    match s.th[t].pc
    case GetInc(_) => GetIncKeeps(s, t);
    case RdInc(_, _, _) => RdIncKeeps(s, t);
    case RdCopy(_, _, _) => RdCopyKeeps(s, t);
    case RdDec(_, _) => RdDecKeeps(s, t);
    case _ => GetDecKeeps(s, t);
  }
}
