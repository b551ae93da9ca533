/** How fresh a get is: what it returns stood in the table at some moment during the call. */
module StoreFresh {
  import opened Bytes
  import opened Options
  import opened Handles
  import opened StoreSteps
  import opened StoreInvariant
  import opened StoreProbe
  import opened StoreAlloc
  import opened StoreRuns

  /** The handle a probe or a get works on. */
  function Carry(pc: Pc): Option<VerIdx> {
    match pc
    case CkHash(_, vi) => Some(vi)
    case CkVer(_, vi) => Some(vi)
    case CkLen(_, vi) => Some(vi)
    case CmpInc(_, vi) => Some(vi)
    case CmpRead(_, vi) => Some(vi)
    case CmpDec(_, vi, _) => Some(vi)
    case GetInc(vi) => Some(vi)
    case RdInc(vi, _, _) => Some(vi)
    case RdCopy(vi, _, _) => Some(vi)
    case RdDec(vi, _) => Some(vi)
    case GetDec(vi, _) => Some(vi)
    case Clear(_, k) => CarryOf(k)
    case ToPush(_, k) => CarryOf(k)
    case Pushing(_, k) => CarryOf(k)
    case _ => None
  }

  function CarryOf(k: Then): Option<VerIdx> { if k.Drop? then Some(k.vi) else None }

  /** The bytes a get is about to return. */
  function Out(pc: Pc): Option<Str> {
    match pc
    case Clear(_, k) => OutOf(k)
    case ToPush(_, k) => OutOf(k)
    case Pushing(_, k) => OutOf(k)
    case Done(r) => if r.Hit? then Some(r.bytes) else None
    case _ => None
  }

  function OutOf(k: Then): Option<Str> { if k.Return? && k.r.Hit? then Some(k.r.bytes) else None }

  /** What a step does to a call: it keeps its job, takes handles from the slots it loads only, and returns only
      bytes a get has read. */
  ghost predicate CallStep(s: State, s': State, t: nat)
    requires t < |s.th| == |s'.th|
  {
    var pc, pc' := s.th[t].pc, s'.th[t].pc;
    && (Carry(pc').Some? ==>
          Carry(pc') == Carry(pc) || (pc.LoadSlot? && pc.i < |s.slots| && Carry(pc') == Some(s.slots[pc.i])))
    && (Out(pc').Some? ==> Out(pc') == Out(pc) || (pc.GetDec? && Out(pc') == Some(pc.out) && pc.out != []))
    && (!pc.Idle? ==> s'.th[t].job == s.th[t].job)
    && (Carry(pc').Some? || Out(pc').Some? ==> !pc.Idle?)
  }

  lemma AllocCall(s: State, t: nat)
    requires Shape(s) && t < |s.th| && (s.th[t].pc.Popping? || Filling(s.th[t].pc)) && FlPcOk(s, t)
    ensures |AllocStep(s, t).th| == |s.th| && CallStep(s, AllocStep(s, t), t)
  {
    assert ThreadShape(s.bs, |s.bls|, s.th[t]);
  }

  lemma DropCall(s: State, t: nat)
    requires Shape(s) && t < |s.th| && s.th[t].pc.CmpDec?
    ensures |ProbeStep(s, t).th| == |s.th| && CallStep(s, ProbeStep(s, t), t)
  {
    assert ThreadShape(s.bs, |s.bls|, s.th[t]);
    NextSlotIsStep(|s.bls|, s.th[t].job, s.th[t].pc.i);
  }

  lemma CompareCall(s: State, t: nat)
    requires Shape(s) && t < |s.th| && (s.th[t].pc.CmpInc? || s.th[t].pc.CmpRead?)
    ensures |ProbeStep(s, t).th| == |s.th| && CallStep(s, ProbeStep(s, t), t)
  {
    assert ThreadShape(s.bs, |s.bls|, s.th[t]);
    NextSlotIsStep(|s.bls|, s.th[t].job, s.th[t].pc.i);
  }

  lemma ProbeCall(s: State, t: nat)
    requires Shape(s) && t < |s.th|
    requires var pc := s.th[t].pc; pc.LoadSlot? || pc.CkHash? || pc.CkVer? || pc.CkLen?
    ensures |ProbeStep(s, t).th| == |s.th| && CallStep(s, ProbeStep(s, t), t)
  {
    assert ThreadShape(s.bs, |s.bls|, s.th[t]);
    NextSlotIsStep(|s.bls|, s.th[t].job, s.th[t].pc.i);
  }

  lemma OtherCall(s: State, t: nat)
    requires Shape(s) && t < |s.th|
    requires var pc := s.th[t].pc;
      pc.SwapSlot? || pc.Unlink? || pc.GetInc? || pc.RdInc? || pc.RdCopy? || pc.RdDec? || pc.GetDec?
    ensures var s' := if s.th[t].pc.SwapSlot? || s.th[t].pc.Unlink? then SwapStep(s, t) else ReadStep(s, t);
      |s'.th| == |s.th| && CallStep(s, s', t)
  {
    assert ThreadShape(s.bs, |s.bls|, s.th[t]);
  }

  lemma StepCall(s: State, k: Tick, t: nat)
    requires Inv(s) && t < |s.th|
    ensures |Step(s, k).th| == |s.th| && CallStep(s, Step(s, k), t)
  {
    if k.t == t {
      var pc := s.th[t].pc;
      assert FlPcOk(s, t) && ThreadShape(s.bs, |s.bls|, s.th[t]);
      if pc.Idle? || pc.Done? { }
      else if pc.Popping? || Filling(pc) { AllocCall(s, t); }
      else if AtFree(pc) { }
      else if pc.CmpDec? { DropCall(s, t); }
      else if pc.CmpInc? || pc.CmpRead? { CompareCall(s, t); }
      else if pc.LoadSlot? || pc.CkHash? || pc.CkVer? || pc.CkLen? { ProbeCall(s, t); }
      else { OtherCall(s, t); }
    } else {
      OthersStay(s, k, t);
    }
  }

  // ---------------------------------------------------------------- what stood in the table

  /** Some slot names a list with this key and value. */
  ghost predicate Standing(s: State, key: Str, val: Str) {
    exists i :: 0 <= i < |s.slots| && Names(s, s.slots[i], key, val)
  }

  predicate Names(s: State, vi: VerIdx, key: Str, val: Str) {
    Live(vi) && vi.ver in s.incs && s.incs[vi.ver].key == key && s.incs[vi.ver].val == val
  }

  /** Key and value stand in the table now, or stood there earlier in the call thread t is in. */
  ghost predicate Seen(bs: nat, dat: seq<Str>, threads: nat, sched: seq<Tick>, t: nat, key: Str, val: Str)
    requires WellSized(bs, dat)
  {
    || Standing(Run(bs, dat, threads, sched), key, val)
    || (sched != [] &&
        var before := Run(bs, dat, threads, sched[..|sched| - 1]);
        t < |before.th| && !before.th[t].pc.Idle? && Seen(bs, dat, threads, sched[..|sched| - 1], t, key, val))
  }

  ghost predicate CarriesSeen(bs: nat, dat: seq<Str>, threads: nat, sched: seq<Tick>, t: nat)
    requires WellSized(bs, dat)
  {
    var s := Run(bs, dat, threads, sched);
    t < |s.th| ==>
      && (Carry(s.th[t].pc).Some? ==>
            var v := Carry(s.th[t].pc).value.ver;
            v in s.incs && Seen(bs, dat, threads, sched, t, s.incs[v].key, s.incs[v].val))
      && (Out(s.th[t].pc).Some? ==> Seen(bs, dat, threads, sched, t, s.th[t].job.key, Out(s.th[t].pc).value))
  }

  lemma LoadedStands(s: State, t: nat)
    requires Inv(s) && t < |s.th| && s.th[t].pc.LoadSlot? && s.th[t].pc.i < |s.slots| && Live(s.slots[s.th[t].pc.i])
    ensures var v := s.slots[s.th[t].pc.i].ver; v in s.incs && Standing(s, s.incs[v].key, s.incs[v].val)
  {
    var i := s.th[t].pc.i;
    assert SlotOk(s, i) && BlockOk(s, s.slots[i].idx);
    assert Names(s, s.slots[i], s.incs[s.slots[i].ver].key, s.incs[s.slots[i].ver].val);
  }

  /** A probe takes only live handles out of slots. */
  lemma CarriedIsLive(s: State, t: nat)
    requires Inv(s) && t < |s.th| && s.th[t].pc.LoadSlot?
    ensures s.th[t].pc.i < |s.slots| && (Carry(ProbeStep(s, t).th[t].pc).Some? ==> Live(s.slots[s.th[t].pc.i]))
  {
    assert ThreadShape(s.bs, |s.bls|, s.th[t]);
    NextSlotIsStep(|s.bls|, s.th[t].job, s.th[t].pc.i);
  }

  /** What get is about to return is what the list it carries stores under the key it asked for. */
  lemma OutIsCarried(s: State, t: nat)
    requires Inv(s) && t < |s.th| && s.th[t].pc.GetDec? && s.th[t].pc.out != []
    ensures var v := s.th[t].pc.vi.ver;
      v in s.incs && s.incs[v].key == s.th[t].job.key && s.incs[v].val == s.th[t].pc.out
  {
    assert PcOk(s, t);
  }

  lemma CarryKept(bs: nat, dat: seq<Str>, threads: nat, rest: seq<Tick>, k: Tick, t: nat)
    requires WellSized(bs, dat) && CarriesSeen(bs, dat, threads, rest, t)
    requires var s' := Run(bs, dat, threads, rest + [k]); t < |s'.th| && Carry(s'.th[t].pc).Some?
    ensures var s' := Run(bs, dat, threads, rest + [k]);
      var v := Carry(s'.th[t].pc).value.ver;
      v in s'.incs && Seen(bs, dat, threads, rest + [k], t, s'.incs[v].key, s'.incs[v].val)
  {
    assert (rest + [k])[..|rest|] == rest;
    var s := Run(bs, dat, threads, rest);
    SameThreads(s, k);
    StepCall(s, k, t);
    if Carry(Step(s, k).th[t].pc) != Carry(s.th[t].pc) { LoadedIsSeen(s, k, t); }
    IncsGrow(s, k, Carry(Step(s, k).th[t].pc).value.ver);
  }

  lemma OutKept(bs: nat, dat: seq<Str>, threads: nat, rest: seq<Tick>, k: Tick, t: nat)
    requires WellSized(bs, dat) && CarriesSeen(bs, dat, threads, rest, t)
    requires var s' := Run(bs, dat, threads, rest + [k]); t < |s'.th| && Out(s'.th[t].pc).Some?
    ensures var s' := Run(bs, dat, threads, rest + [k]);
      Seen(bs, dat, threads, rest + [k], t, s'.th[t].job.key, Out(s'.th[t].pc).value)
  {
    assert (rest + [k])[..|rest|] == rest;
    var s := Run(bs, dat, threads, rest);
    SameThreads(s, k);
    StepCall(s, k, t);
    OutWasSeen(s, k, t, (key, val) => Seen(bs, dat, threads, rest, t, key, val));
  }

  /** The same for one step, whatever it means to have been seen. */
  lemma OutWasSeen(s: State, k: Tick, t: nat, seen: (Str, Str) -> bool)
    requires Inv(s) && t < |s.th| == |Step(s, k).th| && CallStep(s, Step(s, k), t)
    requires Out(Step(s, k).th[t].pc).Some?
    requires Carry(s.th[t].pc).Some? ==>
      var v := Carry(s.th[t].pc).value.ver; v in s.incs && seen(s.incs[v].key, s.incs[v].val)
    requires Out(s.th[t].pc).Some? ==> seen(s.th[t].job.key, Out(s.th[t].pc).value)
    ensures !s.th[t].pc.Idle? && Step(s, k).th[t].job == s.th[t].job
    ensures seen(s.th[t].job.key, Out(Step(s, k).th[t].pc).value)
  {
    if Out(Step(s, k).th[t].pc) != Out(s.th[t].pc) { OutIsCarried(s, t); }
  }

  lemma SameThreads(s: State, k: Tick)
    requires Inv(s)
    ensures |Step(s, k).th| == |s.th|
  {
    if k.t < |s.th| { StepCall(s, k, k.t); }
  }

  lemma {:induction false} EveryCallHasSeen(bs: nat, dat: seq<Str>, threads: nat, sched: seq<Tick>, t: nat)
    requires WellSized(bs, dat)
    ensures CarriesSeen(bs, dat, threads, sched, t)
  {
    if sched != [] {
      var rest, k := sched[..|sched| - 1], sched[|sched| - 1];
      assert sched == rest + [k];
      EveryCallHasSeen(bs, dat, threads, rest, t);
      var s' := Run(bs, dat, threads, sched);
      if t < |s'.th| && Carry(s'.th[t].pc).Some? { CarryKept(bs, dat, threads, rest, k, t); }
      if t < |s'.th| && Out(s'.th[t].pc).Some? { OutKept(bs, dat, threads, rest, k, t); }
    }
  }

  lemma LoadedIsSeen(s: State, k: Tick, t: nat)
    requires Inv(s) && t < |s.th| && Shape(Step(s, k)) && |Step(s, k).th| == |s.th|
    requires Carry(Step(s, k).th[t].pc).Some? && Carry(Step(s, k).th[t].pc) != Carry(s.th[t].pc)
    ensures s.th[t].pc.LoadSlot? && s.th[t].pc.i < |s.slots|
    ensures var vi := s.slots[s.th[t].pc.i];
      Carry(Step(s, k).th[t].pc) == Some(vi) && vi.ver in s.incs && Standing(s, s.incs[vi.ver].key, s.incs[vi.ver].val)
  {
    StepCall(s, k, t);
    if k.t != t { OthersStay(s, k, t); }
    CarriedIsLive(s, t);
    LoadedStands(s, t);
  }

  /** Thread t is inside a call after this schedule. */
  ghost predicate BusyAt(bs: nat, dat: seq<Str>, threads: nat, sched: seq<Tick>, t: nat)
    requires WellSized(bs, dat)
  {
    Busy(Run(bs, dat, threads, sched), t)
  }

  lemma BusyOn(bs: nat, dat: seq<Str>, threads: nat, sched: seq<Tick>, t: nat, p: nat, q: nat)
    requires WellSized(bs, dat) && sched != [] && p <= q < |sched|
    requires var rest := sched[..|sched| - 1];
      BusyAt(bs, dat, threads, rest, t) && (q < |rest| ==> BusyAt(bs, dat, threads, rest[..q], t))
    ensures BusyAt(bs, dat, threads, sched[..q], t)
  {
    var rest := sched[..|sched| - 1];
    if q < |rest| { assert sched[..q] == rest[..q]; } else { assert sched[..q] == rest; }
  }

  /** Key and value stood in the table after p steps, and thread t has been inside one call since. */
  ghost predicate StoodSince(
    bs: nat, dat: seq<Str>, threads: nat, sched: seq<Tick>, t: nat, key: Str, val: Str, p: nat)
    requires WellSized(bs, dat)
  {
    && p <= |sched| && Standing(Run(bs, dat, threads, sched[..p]), key, val)
    && forall q | p <= q < |sched| :: BusyAt(bs, dat, threads, sched[..q], t)
  }

  lemma StoodLater(
    bs: nat, dat: seq<Str>, threads: nat, sched: seq<Tick>, t: nat, key: Str, val: Str, p: nat)
    requires WellSized(bs, dat) && sched != []
    requires StoodSince(bs, dat, threads, sched[..|sched| - 1], t, key, val, p)
    requires BusyAt(bs, dat, threads, sched[..|sched| - 1], t)
    ensures StoodSince(bs, dat, threads, sched, t, key, val, p)
  {
    assert sched[..p] == sched[..|sched| - 1][..p];
    forall q | p <= q < |sched| ensures BusyAt(bs, dat, threads, sched[..q], t) {
      BusyOn(bs, dat, threads, sched, t, p, q);
    }
  }

  /** When that was: at some point of the run, with thread t inside one call from then to the end. */
  lemma {:induction false} SeenWhen(
    bs: nat, dat: seq<Str>, threads: nat, sched: seq<Tick>, t: nat, key: Str, val: Str) returns (p: nat)
    requires WellSized(bs, dat) && Seen(bs, dat, threads, sched, t, key, val)
    ensures StoodSince(bs, dat, threads, sched, t, key, val, p)
  {
    if Standing(Run(bs, dat, threads, sched), key, val) {
      p := |sched|;
      assert sched[..p] == sched;
    } else {
      assert BusyAt(bs, dat, threads, sched[..|sched| - 1], t);
      p := SeenWhen(bs, dat, threads, sched[..|sched| - 1], t, key, val);
      StoodLater(bs, dat, threads, sched, t, key, val, p);
    }
  }

  predicate Busy(s: State, t: nat) { t < |s.th| && !s.th[t].pc.Idle? }

  lemma HitIsSeen(bs: nat, dat: seq<Str>, threads: nat, sched: seq<Tick>, t: nat)
    requires WellSized(bs, dat)
    requires var s := Run(bs, dat, threads, sched); t < |s.th| && s.th[t].pc.Done? && s.th[t].pc.r.Hit?
    ensures var th := Run(bs, dat, threads, sched).th[t]; Seen(bs, dat, threads, sched, t, th.job.key, th.pc.r.bytes)
  {
    EveryCallHasSeen(bs, dat, threads, sched, t);
    assert CarriesSeen(bs, dat, threads, sched, t);
  }

  /** In every run, what a get returns stood in the table, under just the key asked for, at some moment between the
      start of the call and its return. */
  lemma GetIsFresh(bs: nat, dat: seq<Str>, threads: nat, sched: seq<Tick>, t: nat)
    requires WellSized(bs, dat)
    requires var s := Run(bs, dat, threads, sched); t < |s.th| && s.th[t].pc.Done? && s.th[t].pc.r.Hit?
    ensures var s := Run(bs, dat, threads, sched);
      exists p :: StoodSince(bs, dat, threads, sched, t, s.th[t].job.key, s.th[t].pc.r.bytes, p)
  {
    var s := Run(bs, dat, threads, sched);
    HitIsSeen(bs, dat, threads, sched, t);
    var p := SeenWhen(bs, dat, threads, sched, t, s.th[t].job.key, s.th[t].pc.r.bytes);
  }
}
