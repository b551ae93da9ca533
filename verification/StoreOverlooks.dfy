/** A schedule in which a get misses a key that is in the table throughout its call: another thread puts a new value
    under the key while the get compares the old list. */
module StoreOverlooks {
  import opened Bytes
  import opened Handles
  import opened StoreSteps
  import opened StoreInvariant
  import opened StoreRuns
  import opened StoreFresh
  import opened StorePaths
  import opened StoreAlone

  /** Slot i names a list under this key. */
  predicate Has(s: State, i: nat, key: Str) {
    i < |s.slots| && Live(s.slots[i]) && UnderKey(s, s.slots[i], key)
  }

  /** No thread is inside a del. */
  predicate NoDels(s: State) { forall t | 0 <= t < |s.th| :: s.th[t].job.Del? ==> s.th[t].pc.Idle? }

  /** Without a del, a key stays in its slot. */
  lemma KeyStays(s: State, k: Tick, i: nat, key: Str)
    requires Inv(s) && Has(s, i, key) && NoDels(s) && !k.job.Del? && Inv(Step(s, k))
    ensures Has(Step(s, k), i, key) && NoDels(Step(s, k))
  {
    var s' := Step(s, k);
    SlotsChangeForOwnKey(s, k, i);
    IncsGrow(s, k, s.slots[i].ver);
    if s'.slots[i] != s.slots[i] { PutsIn(s, k, i); }
    forall t | 0 <= t < |s'.th| ensures s'.th[t].job.Del? ==> s'.th[t].pc.Idle? {
      if k.t != t && t < |s.th| { OthersStay(s, k, t); } else { OwnNoDel(s, k); }
    }
  }

  lemma PutsIn(s: State, k: Tick, i: nat)
    requires Inv(s) && NoDels(s) && Shape(Step(s, k))
    requires i < |s.slots| == |Step(s, k).slots| && Step(s, k).slots[i] != s.slots[i]
    ensures Live(Step(s, k).slots[i])
  {
    SlotChange(s, k, i);
    assert ThreadShape(s.bs, |s.bls|, s.th[k.t]);
  }

  lemma OwnNoDel(s: State, k: Tick)
    requires Inv(s) && NoDels(s) && !k.job.Del? && k.t < |s.th|
    ensures |Step(s, k).th| == |s.th| && (Step(s, k).th[k.t].job.Del? ==> Step(s, k).th[k.t].pc.Idle?)
  {
    StepCall(s, k, k.t);
  }

  // ---------------------------------------------------------------- runs in which the key stays

  ghost predicate HasAt(bs: nat, dat: seq<Str>, sched: seq<Tick>, i: nat, key: Str)
    requires WellSized(bs, dat)
  {
    Has(Run(bs, dat, 2, sched), i, key)
  }

  /** From p steps on, slot i has had the key. */
  ghost predicate HasSince(bs: nat, dat: seq<Str>, p: nat, sched: seq<Tick>, i: nat, key: Str)
    requires WellSized(bs, dat)
  {
    p <= |sched| && forall q | p <= q <= |sched| :: HasAt(bs, dat, sched[..q], i, key)
  }

  lemma HasLonger(bs: nat, dat: seq<Str>, p: nat, sched: seq<Tick>, i: nat, key: Str, k: Tick)
    requires WellSized(bs, dat) && HasSince(bs, dat, p, sched, i, key) && HasAt(bs, dat, sched + [k], i, key)
    ensures HasSince(bs, dat, p, sched + [k], i, key)
  {
    var more := sched + [k];
    forall q | p <= q <= |more| ensures HasAt(bs, dat, more[..q], i, key) { HasThen(bs, dat, p, sched, i, key, k, q); }
  }

  lemma HasThen(bs: nat, dat: seq<Str>, p: nat, sched: seq<Tick>, i: nat, key: Str, k: Tick, q: nat)
    requires WellSized(bs, dat) && HasSince(bs, dat, p, sched, i, key) && HasAt(bs, dat, sched + [k], i, key)
    requires p <= q <= |sched| + 1
    ensures HasAt(bs, dat, (sched + [k])[..q], i, key)
  {
    var more := sched + [k];
    if q < |more| { assert more[..q] == sched[..q]; } else { assert more[..q] == more; }
  }

  /** Two threads come to s after these steps, none of which began a del. */
  ghost predicate Quiet(bs: nat, dat: seq<Str>, sched: seq<Tick>, s: State)
    requires WellSized(bs, dat)
  {
    Leads(bs, dat, 2, sched, s) && NoDels(s)
  }

  lemma QuietOn(bs: nat, dat: seq<Str>, sched: seq<Tick>, s: State, k: Tick)
    requires WellSized(bs, dat) && Shape(s) && Quiet(bs, dat, sched, s) && !k.job.Del?
    ensures Quiet(bs, dat, sched + [k], Step(s, k))
  {
    LeadsOn(bs, dat, 2, sched, s, k);
    forall t | 0 <= t < |Step(s, k).th| ensures Step(s, k).th[t].job.Del? ==> Step(s, k).th[t].pc.Idle? {
      if k.t != t && t < |s.th| { OthersStay(s, k, t); } else if k.t < |s.th| { OwnNoDel(s, k); }
    }
  }

  ghost predicate Quietly(bs: nat, dat: seq<Str>, s: State) {
    WellSized(bs, dat) && exists sched :: Quiet(bs, dat, sched, s)
  }

  lemma QuietIsClosed(bs: nat, dat: seq<Str>)
    ensures Closed(s => Quietly(bs, dat, s))
  {
    var r: State -> bool := s => Quietly(bs, dat, s);
    forall s | r(s) ensures Ready(s) { QuietReady(bs, dat, s); }
    forall s, k: Tick | r(s) && !k.job.Del? ensures Ready(s) && r(Step(s, k)) {
      QuietReady(bs, dat, s);
      QuietlyOn(bs, dat, s, k);
    }
  }

  lemma QuietlyOn(bs: nat, dat: seq<Str>, s: State, k: Tick)
    requires Quietly(bs, dat, s) && Shape(s) && !k.job.Del?
    ensures Quietly(bs, dat, Step(s, k))
  {
    var sched :| Quiet(bs, dat, sched, s);
    QuietOn(bs, dat, sched, s, k);
  }

  lemma QuietReady(bs: nat, dat: seq<Str>, s: State)
    requires Quietly(bs, dat, s)
    ensures Ready(s)
  {
    var sched :| Quiet(bs, dat, sched, s);
    LeadsReady(bs, dat, 2, sched, s);
  }

  /** These steps go on from the first ones, and slot i has had the key since. */
  ghost predicate Holding(bs: nat, dat: seq<Str>, first: seq<Tick>, sched: seq<Tick>, i: nat, key: Str, s: State)
    requires WellSized(bs, dat)
  {
    first <= sched && Quiet(bs, dat, sched, s) && Has(s, i, key) && HasSince(bs, dat, |first|, sched, i, key)
  }

  lemma HoldingOn(bs: nat, dat: seq<Str>, first: seq<Tick>, sched: seq<Tick>, i: nat, key: Str, s: State, k: Tick)
    requires WellSized(bs, dat) && Shape(s) && Holding(bs, dat, first, sched, i, key, s) && !k.job.Del?
    ensures Holding(bs, dat, first, sched + [k], i, key, Step(s, k))
  {
    QuietOn(bs, dat, sched, s, k);
    StepKeeps(s, k);
    KeyStays(s, k, i, key);
    HasLonger(bs, dat, |first|, sched, i, key, k);
  }

  ghost predicate Held(bs: nat, dat: seq<Str>, first: seq<Tick>, i: nat, key: Str, s: State) {
    WellSized(bs, dat) && exists sched :: Holding(bs, dat, first, sched, i, key, s)
  }

  lemma HoldingIsClosed(bs: nat, dat: seq<Str>, first: seq<Tick>, i: nat, key: Str)
    ensures Closed(s => Held(bs, dat, first, i, key, s))
  {
    var r: State -> bool := s => Held(bs, dat, first, i, key, s);
    forall s | r(s) ensures Ready(s) { HeldReady(bs, dat, first, i, key, s); }
    forall s, k: Tick | r(s) && !k.job.Del? ensures Ready(s) && r(Step(s, k)) {
      HeldReady(bs, dat, first, i, key, s);
      HeldOn(bs, dat, first, i, key, s, k);
    }
  }

  lemma HeldOn(bs: nat, dat: seq<Str>, first: seq<Tick>, i: nat, key: Str, s: State, k: Tick)
    requires Held(bs, dat, first, i, key, s) && Shape(s) && !k.job.Del?
    ensures Held(bs, dat, first, i, key, Step(s, k))
  {
    var sched :| Holding(bs, dat, first, sched, i, key, s);
    HoldingOn(bs, dat, first, sched, i, key, s, k);
  }

  lemma HeldReady(bs: nat, dat: seq<Str>, first: seq<Tick>, i: nat, key: Str, s: State)
    requires Held(bs, dat, first, i, key, s)
    ensures Ready(s)
  {
    var sched :| Holding(bs, dat, first, sched, i, key, s);
    LeadsReady(bs, dat, 2, sched, s);
  }

  /** A list whose bytes begin with the key, and whose record says so, is under that key. */
  lemma HasFromBytes(bs: nat, dat: seq<Str>, sched: seq<Tick>, i: nat, key: Str, s: State)
    requires WellSized(bs, dat) && Leads(bs, dat, 2, sched, s) && i < |s.slots| && Live(s.slots[i])
    requires var b := s.slots[i].idx; b < |s.bls| == |s.dat| && s.bls[b].klen == |key| && key <= s.dat[b]
    ensures Has(s, i, key)
  {
    var vi := s.slots[i];
    assert SlotOk(s, i) && BlockOk(s, vi.idx);
    var inc, d := s.incs[vi.ver], s.dat[vi.idx];
    assert d[..|inc.key| + |inc.val|][..|inc.key|] == inc.key;
    assert d[..|inc.key|] == d[..|inc.key| + |inc.val|][..|inc.key|] == key;
  }

  // ---------------------------------------------------------------- the schedule

  const OLD: Job := Put([1], 0, [7])
  const NEW: Job := Put([1], 0, [8])
  const ASK: Job := Get([1], 0, 1)

  const BYTES: seq<Str> := [[0, 0], [0, 0]]

  /** Thread 1 stores the key. */
  lemma FirstPart() returns (sched: seq<Tick>, s: State)
    ensures WellSized(2, BYTES) && Quiet(2, BYTES, sched, s) && Ready(s) && |s.bls| == 2 && |s.th| == 2 && s.bs == 2
    ensures s.slots == [VerIdx(0, 1), NO_SLOT] && s.fl.list == [1] && s.ver == 2 && s.th[0].pc == Idle && s.th[1].pc == Idle
    ensures s.bls[0] == Rec(1, 0, false, 2, 1, 0) && |s.dat| == 2 && [1] <= s.dat[0]
  {
    assert WellSized(2, BYTES);
    QuietIsClosed(2, BYTES);
    var r: State -> bool := s => Quietly(2, BYTES, s);
    var s0 := Init(2, BYTES, 2);
    assert Quiet(2, BYTES, [], s0) && s0.fl.list == [0, 1];
    s := SoloPut(r, s0, 1, OLD, 0);
    sched :| Quiet(2, BYTES, sched, s);
  }

  /** Thread 0 loads the slot; thread 1 stores the key again, in a new list; thread 0 finds the old one gone. */
  lemma SecondPart(r: State -> bool, s: State) returns (s': State)
    requires Closed(r) && r(s) && Ready(s) && |s.bls| == 2 && |s.th| == 2 && s.bs == 2
    requires s.slots == [VerIdx(0, 1), NO_SLOT] && s.fl.list == [1] && s.ver == 2 && s.th[0].pc == Idle && s.th[1].pc == Idle
    requires s.bls[0] == Rec(1, 0, false, 2, 1, 0) && |s.dat| == 2 && [1] <= s.dat[0]
    ensures r(s') && |s'.th| == 2 && s'.th[0].job == ASK && s'.th[0].pc == Done(Miss)
  {
    var s1 := Asks(r, s);
    var s2 := Pops(r, s1, 1, NEW, 1);
    var s3 := Fills(r, s2, 1, 1);
    var s4 := Replaces(r, s3, 1, 0, VerIdx(0, 1));
    assert s4.bls[0].version == 0 && s4.bls[0].hash == 0 && s4.th[0] == s1.th[0];
    s' := Overlooks(r, s4);
  }

  lemma Asks(r: State -> bool, s: State) returns (s': State)
    requires Closed(r) && r(s) && Ready(s) && |s.bls| == 2 && |s.th| == 2 && s.th[0].pc == Idle
    requires s.slots == [VerIdx(0, 1), NO_SLOT]
    ensures r(s') && Ready(s') && s' == s.(th := s.th[0 := s.th[0].(job := ASK, pc := CkHash(0, VerIdx(0, 1)))])
  {
    var s1 := Step(s, Tick(0, ASK));
    assert s1 == Start(s, 0, ASK) && s1 == s.(th := s.th[0 := s.th[0].(job := ASK, pc := LoadSlot(0))]);
    s' := Step(s1, On(0));
    assert s' == ProbeStep(s1, 0);
  }

  lemma Overlooks(r: State -> bool, s: State) returns (s': State)
    requires Closed(r) && r(s) && Ready(s) && |s.bls| == 2 && |s.th| == 2
    requires s.th[0].job == ASK && s.th[0].pc == CkHash(0, VerIdx(0, 1)) && s.bls[0].version == 0 && s.bls[0].hash == 0
    requires |s.slots| == 2 && !Live(s.slots[1])
    ensures r(s') && |s'.th| == 2 && s'.th[0].job == ASK && s'.th[0].pc == Done(Miss)
  {
    var s1 := Step(s, On(0));
    assert s1 == ProbeStep(s, 0) && Went(s, s1, 0, CkVer(0, VerIdx(0, 1)));
    var s2 := Step(s1, On(0));
    assert s2 == ProbeStep(s1, 0) && Went(s, s2, 0, LoadSlot(1));
    s' := AsksLast(r, s2);
  }

  lemma AsksLast(r: State -> bool, s: State) returns (s': State)
    requires Closed(r) && r(s) && Ready(s) && |s.bls| == 2 && |s.th| == 2 && |s.slots| == 2 && !Live(s.slots[1])
    requires s.th[0].job == ASK && s.th[0].pc == LoadSlot(1)
    ensures r(s') && |s'.th| == 2 && s'.th[0].job == ASK && s'.th[0].pc == Done(Miss)
  {
    s' := Step(s, On(0));
    assert s' == ProbeStep(s, 0);
  }

  ghost predicate IdleAt(bs: nat, dat: seq<Str>, sched: seq<Tick>, t: nat)
    requires WellSized(bs, dat)
  {
    var s := Run(bs, dat, 2, sched);
    t < |s.th| && s.th[t].pc.Idle?
  }

  ghost predicate MissAt(bs: nat, dat: seq<Str>, sched: seq<Tick>, t: nat, job: Job)
    requires WellSized(bs, dat)
  {
    var s := Run(bs, dat, 2, sched);
    t < |s.th| && s.th[t].job == job && s.th[t].pc == Done(Miss)
  }

  /** There is a run in which a get answers that its key is missing, although the key is in slot 0 at every moment from
      before the call to its return. */
  lemma AGetCanOverlook()
    ensures WellSized(2, BYTES)
    ensures exists sched, p: nat ::
      && p <= |sched| && IdleAt(2, BYTES, sched[..p], 0) && MissAt(2, BYTES, sched, 0, ASK)
      && HasSince(2, BYTES, p, sched, 0, ASK.key)
  {
    var first, s := FirstPart();
    var r: State -> bool := s => Held(2, BYTES, first, 0, ASK.key, s);
    HoldingIsClosed(2, BYTES, first, 0, ASK.key);
    HasFromBytes(2, BYTES, first, 0, ASK.key, s);
    HoldsFirst(2, BYTES, first, 0, ASK.key, s);
    var s' := SecondPart(r, s);
    var sched :| Holding(2, BYTES, first, sched, 0, ASK.key, s');
    MissFound(2, BYTES, first, sched, 0, ASK, s, s');
  }

  lemma HoldsFirst(bs: nat, dat: seq<Str>, first: seq<Tick>, i: nat, key: Str, s: State)
    requires WellSized(bs, dat) && Quiet(bs, dat, first, s) && Has(s, i, key)
    ensures Holding(bs, dat, first, first, i, key, s)
  {
    assert first[..|first|] == first;
  }

  lemma MissFound(bs: nat, dat: seq<Str>, first: seq<Tick>, sched: seq<Tick>, t: nat, job: Job, s: State, s': State)
    requires WellSized(bs, dat) && Leads(bs, dat, 2, first, s) && t < |s.th| && s.th[t].pc.Idle?
    requires first <= sched && Leads(bs, dat, 2, sched, s') && t < |s'.th| && s'.th[t].job == job && s'.th[t].pc == Done(Miss)
    ensures IdleAt(bs, dat, sched[..|first|], t) && MissAt(bs, dat, sched, t, job)
  {
    assert sched[..|first|] == first;
  }
}
