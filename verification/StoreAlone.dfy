/** Calls of one thread while no other moves: what a put, and the deletion of a list, do from their first step to their
    last. */
module StoreAlone {
  import opened Bytes
  import opened Handles
  import opened StoreSteps
  import opened StoreRuns
  import FL = FreeListSteps

  /** A set of states that no step leaves, unless it begins a del. */
  ghost predicate Closed(r: State -> bool) {
    && (forall s {:trigger r(s)} | r(s) :: Ready(s))
    && (forall s, k: Tick {:trigger Step(s, k)} | r(s) && !k.job.Del? :: Ready(s) && r(Step(s, k)))
  }

  /** Nor then. */
  ghost predicate ClosedToDels(r: State -> bool) {
    Closed(r) && forall s, k: Tick {:trigger Step(s, k)} | r(s) :: Ready(s) && r(Step(s, k))
  }

  /** A call that goes on: the job of a tick matters to an idle thread only. */
  function On(t: nat): Tick { Tick(t, Get([], 0, 0)) }

  predicate Ready(s: State) {
    Shape(s) && (s.fl.list != [] ==> s.fl.head.idx == s.fl.list[0] && s.fl.list[0] < |s.bls|)
  }

  /** What a solo step of thread t leaves alone. */
  predicate Kept(s: State, s': State, t: nat) {
    && s'.bs == s.bs && |s'.bls| == |s.bls| && t < |s.th| == |s'.th|
    && forall u | 0 <= u < |s.th| && u != t :: s'.th[u] == s.th[u]
  }

  /** Thread t, alone, pops block b for a put. */
  lemma Pops(r: State -> bool, s: State, t: nat, job: Job, b: nat) returns (s': State)
    requires Closed(r) && r(s) && t < |s.th| && s.th[t].pc.Idle? && job.Put? && OneBlock(s.bs, job)
    requires Ready(s) && s.fl.list != [] && s.fl.list[0] == b
    ensures r(s') && Ready(s') && Kept(s, s', t) && s'.th[t] == s.th[t].(job := job, pc := Popped(b))
    ensures s'.fl.list == s.fl.list[1..]
    ensures s'.ver == s.ver && s'.bls == s.bls && s'.dat == s.dat && s'.slots == s.slots
  {
    var k := Tick(t, job);
    var s1 := Step(s, k);
    assert s1 == Start(s, t, job) && s1.th[t].pc == Popping;
    var s2 := Step(s1, k);
    assert s2 == AllocStep(s1, t) && s2.th == s1.th && s2.fl.pcs[t].PopLinked? && s2.fl.pcs[t].cur == s2.fl.head;
    s' := Step(s2, k);
    assert s' == AllocStep(s2, t);
  }

  lemma Writes(r: State -> bool, s: State, t: nat, b: nat) returns (s': State)
    requires Closed(r) && r(s) && Ready(s) && t < |s.th| && s.th[t].pc == Popped(b)
    ensures r(s') && Ready(s') && Kept(s, s', t) && s'.th[t] == s.th[t].(pc := Titled(b, s.ver)) && s'.ver == s.ver + 1
    ensures s'.fl == s.fl && s'.dat == s.dat && s'.slots == s.slots && s.th[t].job.Put? && b < |s.bls|
    ensures var job := s.th[t].job;
      s'.bls == s.bls[b := Rec(s.ver, 0, false, |job.key| + |job.val|, |job.key|, job.hash)]
  {
    var s1 := Step(s, On(t));
    assert s1 == AllocStep(s, t) && ThreadShape(s.bs, |s.bls|, s.th[t]);
    s' := Records(r, s1, t, b, s.ver);
  }

  lemma Records(r: State -> bool, s: State, t: nat, b: nat, v: nat) returns (s': State)
    requires Closed(r) && r(s) && Ready(s) && t < |s.th| && s.th[t].pc == Numbered(b, v) && b < |s.bls|
    ensures r(s') && Ready(s') && Kept(s, s', t) && s'.th[t] == s.th[t].(pc := Titled(b, v)) && s'.ver == s.ver
    ensures s'.fl == s.fl && s'.dat == s.dat && s'.slots == s.slots && s.th[t].job.Put?
    ensures var job := s.th[t].job; s'.bls == s.bls[b := Rec(v, 0, false, |job.key| + |job.val|, |job.key|, job.hash)]
  {
    assert ThreadShape(s.bs, |s.bls|, s.th[t]);
    var s1 := Step(s, On(t));
    assert s1 == AllocStep(s, t) && s1.th == s.th[t := s.th[t].(pc := Recorded(b, v))];
    s' := Step(s1, On(t));
    assert s' == AllocStep(s1, t) && s'.th == s.th[t := s.th[t].(pc := Titled(b, v))];
  }

  /** And fills it. */
  lemma Fills(r: State -> bool, s: State, t: nat, b: nat) returns (s': State)
    requires Closed(r) && r(s) && Ready(s) && t < |s.th| && s.th[t].pc == Popped(b)
    ensures r(s') && Ready(s') && Kept(s, s', t) && s.th[t].job.Put? && b < |s.bls| == |s'.dat| == |s.dat|
    ensures var job := s.th[t].job;
      && s'.th[t] == Thread(job, VerIdx(b, s.ver), LoadSlot(Home(|s.bls|, job)))
      && s'.bls == s.bls[b := Rec(s.ver, 0, false, |job.key| + |job.val|, |job.key|, job.hash)]
      && s'.dat == s.dat[b := s'.dat[b]] && job.key <= s'.dat[b]
    ensures s'.ver == s.ver + 1 && s'.fl == s.fl && s'.slots == s.slots
  {
    var job := s.th[t].job;
    var s1 := Writes(r, s, t, b);
    assert ThreadShape(s.bs, |s.bls|, s.th[t]);
    s' := Step(s1, Tick(t, job));
    assert s' == AllocStep(s1, t);
    assert s'.dat[b] == job.key + (job.val + s.dat[b][|job.key| + |job.val|..]);
  }

  /** And puts it into its first slot, which is free. */
  lemma Lands(r: State -> bool, s: State, t: nat, i: nat) returns (s': State)
    requires Closed(r) && r(s) && Ready(s) && t < |s.th| && s.th[t].pc == LoadSlot(i) && s.th[t].job.Put?
    requires i < |s.slots| && !Live(s.slots[i])
    ensures r(s') && Ready(s') && Kept(s, s', t) && s'.th[t] == s.th[t].(pc := Idle)
    ensures s'.slots == s.slots[i := s.th[t].mine]
    ensures s'.fl == s.fl && s'.bls == s.bls && s'.dat == s.dat && s'.ver == s.ver
  {
    var k := On(t);
    var s1 := Step(s, k);
    assert s1 == ProbeStep(s, t) && s1.th[t].pc == SwapSlot(i, s.slots[i]);
    var s2 := Step(s1, k);
    assert s2 == SwapStep(s1, t) && s2.th[t].pc == Done(Stored);
    s' := Step(s2, k);
  }

  /** A whole put that finds its first slot unused. */
  lemma SoloPut(r: State -> bool, s: State, t: nat, job: Job, b: nat) returns (s': State)
    requires Closed(r) && r(s) && Ready(s) && t < |s.th| && s.th[t].pc.Idle? && job.Put? && OneBlock(s.bs, job)
    requires s.fl.list != [] && s.fl.list[0] == b && !Live(s.slots[Home(|s.bls|, job)])
    ensures r(s') && Ready(s') && Kept(s, s', t) && s'.th[t] == Thread(job, VerIdx(b, s.ver), Idle)
    ensures s'.slots == s.slots[Home(|s.bls|, job) := VerIdx(b, s.ver)]
    ensures b < |s.bls| == |s'.dat| == |s.dat| && s'.dat == s.dat[b := s'.dat[b]]
    ensures s'.bls == s.bls[b := Rec(s.ver, 0, false, |job.key| + |job.val|, |job.key|, job.hash)]
    ensures job.key <= s'.dat[b] && s'.ver == s.ver + 1 && s'.fl.list == s.fl.list[1..]
  {
    var s1 := Pops(r, s, t, job, b);
    var s2 := Fills(r, s1, t, b);
    s' := Lands(r, s2, t, Home(|s.bls|, job));
  }

  // ---------------------------------------------------------------- a del

  /** The list vi in slot i is alive, unread, and stores the key that thread t looks for. */
  predicate Found(s: State, t: nat, i: nat, vi: VerIdx) {
    && Shape(s) && t < |s.th| && i < |s.slots| && s.slots[i] == vi && Live(vi) && vi.idx < |s.bls|
    && var rec, job := s.bls[vi.idx], s.th[t].job;
    && !job.Get? && rec.hash == job.hash && rec.version == vi.ver && rec.klen == |job.key| && rec.len != 0
    && rec.readers == 0 && !rec.deleted && vi.ver != 0
    && job.key <= s.dat[vi.idx]
  }

  /** Only thread t moved on. */
  predicate Went(s: State, s': State, t: nat, pc: Pc) {
    t < |s.th| && s' == s.(th := s.th[t := s.th[t].(pc := pc)])
  }

  /** The check behind the one at pc. */
  function Behind(pc: Pc, i: nat, vi: VerIdx): Pc {
    if pc.LoadSlot? then CkHash(i, vi) else if pc.CkHash? then CkVer(i, vi)
    else if pc.CkVer? then CkLen(i, vi) else CmpInc(i, vi)
  }

  lemma Checks(r: State -> bool, s: State, t: nat, i: nat, vi: VerIdx) returns (s': State)
    requires Closed(r) && r(s) && Found(s, t, i, vi)
    requires var pc := s.th[t].pc; pc in {LoadSlot(i), CkHash(i, vi), CkVer(i, vi), CkLen(i, vi)}
    ensures r(s') && Ready(s') && Went(s, s', t, Behind(s.th[t].pc, i, vi)) && Found(s', t, i, vi)
  {
    s' := Step(s, On(t));
    assert s' == ProbeStep(s, t);
  }

  lemma Enters(r: State -> bool, s: State, t: nat, i: nat, vi: VerIdx) returns (s': State)
    requires Closed(r) && r(s) && Found(s, t, i, vi) && s.th[t].pc == CmpInc(i, vi)
    ensures r(s') && Ready(s') && s' == s.(bls := s.bls[vi.idx := s.bls[vi.idx].(readers := 1)],
                                           th := s.th[t := s.th[t].(pc := CmpRead(i, vi))])
  {
    s' := Step(s, On(t));
    assert s' == ProbeStep(s, t);
  }

  lemma Compares(r: State -> bool, s: State, t: nat, i: nat, vi: VerIdx) returns (s': State)
    requires Closed(r) && r(s) && Found(s, t, i, vi) && s.th[t].pc == CmpInc(i, vi)
    ensures r(s') && Ready(s') && Went(s, s', t, SwapSlot(i, vi)) && Found(s', t, i, vi)
  {
    var s1 := Enters(r, s, t, i, vi);
    var s2 := Step(s1, On(t));
    assert s2 == ProbeStep(s1, t) && Went(s1, s2, t, CmpDec(i, vi, true));
    s' := Exits(r, s2, t, i, vi);
    assert s'.bls == s.bls && s'.th == s.th[t := s.th[t].(pc := SwapSlot(i, vi))];
  }

  lemma Exits(r: State -> bool, s: State, t: nat, i: nat, vi: VerIdx) returns (s': State)
    requires Closed(r) && r(s) && Ready(s) && t < |s.th| && s.th[t].pc == CmpDec(i, vi, true) && !s.th[t].job.Get?
    requires vi.idx < |s.bls| && s.bls[vi.idx].version == vi.ver && s.bls[vi.idx].readers == 1 && !s.bls[vi.idx].deleted
    ensures r(s') && Ready(s') && s' == s.(bls := s.bls[vi.idx := s.bls[vi.idx].(readers := 0)],
                                           th := s.th[t := s.th[t].(pc := SwapSlot(i, vi))])
  {
    s' := Step(s, On(t));
    assert s' == ProbeStep(s, t);
  }

  lemma Matches(r: State -> bool, s: State, t: nat, i: nat, vi: VerIdx) returns (s': State)
    requires Closed(r) && r(s) && Found(s, t, i, vi) && s.th[t].pc == LoadSlot(i)
    ensures r(s') && Ready(s') && Went(s, s', t, SwapSlot(i, vi)) && Found(s', t, i, vi)
  {
    var s1 := Checks(r, s, t, i, vi);
    var s2 := Checks(r, s1, t, i, vi);
    var s3 := Checks(r, s2, t, i, vi);
    var s4 := Checks(r, s3, t, i, vi);
    s' := Compares(r, s4, t, i, vi);
  }

  /** Thread t, alone, takes the list it has found out of its slot, or puts its own there, and frees it. */
  lemma Unlinks(r: State -> bool, s: State, t: nat, i: nat, vi: VerIdx) returns (s': State)
    requires Closed(r) && r(s) && Found(s, t, i, vi) && s.th[t].pc == SwapSlot(i, vi)
    ensures r(s') && Ready(s') && Kept(s, s', t)
    ensures s'.th[t] == s.th[t].(pc := Clear(vi.idx, Return(if s.th[t].job.Put? then Stored else Removed)))
    ensures s'.slots == s.slots[i := if s.th[t].job.Put? then s.th[t].mine else TOMBSTONE]
    ensures s'.fl == s.fl && s'.ver == s.ver && s'.dat == s.dat
    ensures s'.bls == s.bls[vi.idx := s.bls[vi.idx].(deleted := true)]
  {
    var k := On(t);
    var s1 := Step(s, k);
    assert s1 == SwapStep(s, t) && s1.th[t] == s.th[t].(pc := Unlink(vi)) && s1.bls == s.bls;
    s' := Step(s1, k);
    assert s' == SwapStep(s1, t);
  }

  lemma Clears(r: State -> bool, s: State, t: nat, b: nat, k: Then) returns (s': State)
    requires Closed(r) && r(s) && Ready(s) && t < |s.th| && s.th[t].pc == Clear(b, k) && b < |s.bls|
    ensures r(s') && Ready(s') && Kept(s, s', t) && s'.th[t] == s.th[t].(pc := Pushing(b, k))
    ensures s'.slots == s.slots && s'.ver == s.ver && s'.bls == s.bls[b := s.bls[b].(version := 0)]
    ensures b < |s.fl.lv| && s'.fl == FL.StartPush(s.fl, t, b)
  {
    var tick := On(t);
    var s1 := Step(s, tick);
    assert s1 == FreeStep(s, t) && s1.th[t].pc == ToPush(b, k);
    s' := Step(s1, tick);
    assert s' == FreeStep(s1, t);
  }

  lemma Frees(r: State -> bool, s: State, t: nat, b: nat, k: Then) returns (s': State)
    requires Closed(r) && r(s) && Ready(s) && t < |s.th| && s.th[t].pc == Clear(b, k) && b < |s.bls|
    ensures r(s') && Ready(s') && Kept(s, s', t) && s'.th[t] == s.th[t].(pc := PcOf(k))
    ensures s'.slots == s.slots && s'.ver == s.ver && s'.fl.list == [b] + s.fl.list
    ensures s'.bls == s.bls[b := s.bls[b].(version := 0)]
  {
    var tick := On(t);
    var s1 := Clears(r, s, t, b, k);
    var s2 := Step(s1, tick);
    assert s2 == FreeStep(s1, t) && s2.th == s1.th && s2.fl.head == s.fl.head;
    assert s2.fl.pcs[t] == FL.PushLinked(b, s.fl.head);
    s' := Step(s2, tick);
    assert s' == FreeStep(s2, t);
  }

  /** A put or del at its first slot, from loading it to its return. */
  lemma Replaces(r: State -> bool, s: State, t: nat, i: nat, vi: VerIdx) returns (s': State)
    requires Closed(r) && r(s) && Found(s, t, i, vi) && s.th[t].pc == LoadSlot(i)
    ensures r(s') && Ready(s') && Kept(s, s', t) && s'.th[t].pc.Done?
    ensures s'.slots == s.slots[i := if s.th[t].job.Put? then s.th[t].mine else TOMBSTONE]
    ensures s'.fl.list == [vi.idx] + s.fl.list && s'.ver == s.ver
    ensures s'.bls == s.bls[vi.idx := s.bls[vi.idx].(deleted := true, version := 0)]
  {
    var s1 := Matches(r, s, t, i, vi);
    var s2 := Unlinks(r, s1, t, i, vi);
    assert Kept(s, s2, t) && s2.fl == s.fl;
    s' := Frees(r, s2, t, vi.idx, Return(if s.th[t].job.Put? then Stored else Removed));
  }

  /** A whole del that finds its key in the first slot. */
  lemma SoloDel(r: State -> bool, s: State, t: nat, job: Job, vi: VerIdx) returns (s': State)
    requires ClosedToDels(r) && r(s) && Ready(s) && t < |s.th| && s.th[t].pc.Idle? && job.Del?
    requires Home(|s.bls|, job) != EndIdx(|s.bls|, job)
    requires Found(s.(th := s.th[t := s.th[t].(job := job, pc := LoadSlot(Home(|s.bls|, job)))]), t, Home(|s.bls|, job), vi)
    ensures r(s') && Ready(s') && Kept(s, s', t) && s'.th[t].pc == Idle
    ensures s'.slots == s.slots[Home(|s.bls|, job) := TOMBSTONE] && s'.fl.list == [vi.idx] + s.fl.list && s'.ver == s.ver
  {
    var s1 := Step(s, Tick(t, job));
    assert s1 == Start(s, t, job);
    var s2 := Replaces(r, s1, t, Home(|s.bls|, job), vi);
    s' := Step(s2, Tick(t, job));
  }

  /** A put finds a list of another hash in slot i. */
  lemma Misses(r: State -> bool, s: State, t: nat, i: nat) returns (s': State)
    requires Closed(r) && r(s) && Ready(s) && t < |s.th| && s.th[t].pc == LoadSlot(i) && s.th[t].job.Put?
    requires i < |s.slots| && Live(s.slots[i]) && s.slots[i].idx < |s.bls|
    requires s.bls[s.slots[i].idx].hash != s.th[t].job.hash
    ensures r(s') && Ready(s') && Kept(s, s', t) && 0 < |s.bls|
    ensures s'.th[t] == s.th[t].(pc := PcOf(NextSlot(|s.bls|, s.th[t].job, i)))
    ensures s'.slots == s.slots && s'.fl == s.fl && s'.bls == s.bls && s'.dat == s.dat && s'.ver == s.ver
  {
    var s1 := Step(s, On(t));
    assert s1 == ProbeStep(s, t) && Went(s, s1, t, CkHash(i, s.slots[i]));
    s' := Step(s1, On(t));
    assert s' == ProbeStep(s1, t);
  }

  // ---------------------------------------------------------------- reachable states

  ghost predicate Leads(bs: nat, dat: seq<Str>, threads: nat, sched: seq<Tick>, s: State)
    requires WellSized(bs, dat)
  {
    s == Run(bs, dat, threads, sched)
  }

  lemma LeadsOn(bs: nat, dat: seq<Str>, threads: nat, sched: seq<Tick>, s: State, k: Tick)
    requires WellSized(bs, dat) && Shape(s) && Leads(bs, dat, threads, sched, s)
    ensures Leads(bs, dat, threads, sched + [k], Step(s, k))
  {
    assert (sched + [k])[..|sched|] == sched;
  }

  lemma LeadsReady(bs: nat, dat: seq<Str>, threads: nat, sched: seq<Tick>, s: State)
    requires WellSized(bs, dat) && Leads(bs, dat, threads, sched, s)
    ensures Ready(s)
  {
    if s.fl.list != [] { assert s.fl.list[0] < |s.fl.lv|; }
  }
}
