/** The shared-memory store with any number of threads, as a state machine over its atomic steps.

    Threads interleave CncrHsh::put, get and del.  Every list here is one block long, which is how the
    repository uses the store: the chain a list records in its block records is then the block itself.  The
    free list underneath runs step by step as in FreeListSteps.  The version test and the compare-and-swap
    of a reader count are one step (ReaderRace looks at them apart).

    A put of n blocks of bs bytes:  pop a block, draw a version, write the record, write its head fields,
    copy key and value, then probe the slots.  A probe loads a slot, reads hash, version and key length of
    the record it names, takes a reader, compares the key, and drops the reader.

    `place`, `leaks`, `incs` and `pub` are history variables: no step's outcome depends on them. */
module StoreSteps {
  import opened Bytes
  import opened Chains
  import opened Handles
  import Circle
  import FL = FreeListSteps

  datatype Job =
    | Put(key: Str, hash: nat, val: Str)
    | Get(key: Str, hash: nat, maxlen: nat)
    | Del(key: Str, hash: nat)

  /** The block record; its link is always LIST_END for lists of one block. */
  datatype Rec = Rec(version: nat, readers: int, deleted: bool, len: nat, klen: nat, hash: nat)

  datatype Result =
    | Stored            // put: the list is in a slot
    | OutOfBlocks       // put: no block left, nothing happened
    | GaveUp            // put: every slot looked taken, the new list is in no slot
    | Miss              // get, del: no slot matched
    | Hit(bytes: Str)   // get: the whole value was copied out
    | Vanished          // get: a slot matched, but its list went away before the copy
    | TooBig            // get: a slot matched, but the value exceeds maxlen
    | Removed           // del: the slot was marked deleted

  /** Where a thread that frees a list on the way goes on: at slot i, at its caller, or dropping the reader
      that get holds around readBlock. */
  datatype Then = Probe(i: nat) | Return(r: Result) | Drop(vi: VerIdx, out: Str)

  datatype Pc =
    | Idle
    | Popping                                     // inside CncrLst::nxt()
    | Popped(b: nat)                              // about to draw a version
    | Numbered(b: nat, v: nat)                    // about to write the block record
    | Recorded(b: nat, v: nat)                    // about to write the head fields
    | Titled(b: nat, v: nat)                      // about to copy key and value
    | LoadSlot(i: nat)
    | CkHash(i: nat, vi: VerIdx)                  // CncrStr::compare, three plain reads
    | CkVer(i: nat, vi: VerIdx)
    | CkLen(i: nat, vi: VerIdx)
    | CmpInc(i: nat, vi: VerIdx)                  // CncrStr::memcmpBlk
    | CmpRead(i: nat, vi: VerIdx)
    | CmpDec(i: nat, vi: VerIdx, eq: bool)
    | SwapSlot(i: nat, vi: VerIdx)
    | Unlink(vi: VerIdx)                          // vi was taken out of its slot, about to delete it
    | GetInc(vi: VerIdx)                          // CncrStr::get
    | RdInc(vi: VerIdx, at: nat, vlen: nat)       // CncrStr::readBlock
    | RdCopy(vi: VerIdx, at: nat, vlen: nat)
    | RdDec(vi: VerIdx, out: Str)
    | GetDec(vi: VerIdx, out: Str)
    | Clear(b: nat, k: Then)                      // CncrStr::doFree, about to clear the version
    | ToPush(b: nat, k: Then)
    | Pushing(b: nat, k: Then)                    // inside CncrLst::free()
    | Done(r: Result)

  datatype Thread = Thread(job: Job, mine: VerIdx, pc: Pc)

  /** The one place a block is in. */
  datatype Place =
    | Free                          // on the free list
    | Taken(t: nat)                 // popped by the put of thread t
    | Private(t: nat, v: nat)       // a list that only the put of thread t knows
    | Published(i: nat, v: nat)     // named by slot i
    | Unlinked(t: nat, v: nat)      // taken out of its slot by thread t, which is about to delete it
    | Condemned(v: nat)             // deleted, waiting for its readers
    | Returning(t: nat)             // on its way back to the free list, by thread t
    | Lost(v: nat)                  // left behind by a put that gave up

  /** What one allocation stored; versions name allocations. */
  datatype Inc = Inc(idx: nat, key: Str, val: Str, hash: nat)

  datatype State = State(
    bs: nat, fl: FL.State, ver: nat, bls: seq<Rec>, dat: seq<Str>, slots: seq<VerIdx>, th: seq<Thread>,
    place: seq<Place>, leaks: seq<nat>, incs: map<nat, Inc>, pub: set<nat>)

  // ---------------------------------------------------------------- probing

  function Home(n: nat, job: Job): nat
    requires 0 < n
  {
    Circle.Home(job.hash, n)
  }

  /** The slot a probe for this job examines last; del stops before it. */
  function EndIdx(n: nat, job: Job): nat
    requires 0 < n
  {
    Circle.Prev(n, Home(n, job))
  }

  /** Where a job goes after slot i did not match. */
  function NextSlot(n: nat, job: Job, i: nat): Then
    requires 0 < n
  {
    match job
    case Put(_, _, _) => if i == EndIdx(n, job) then Return(GaveUp) else Probe(Circle.Next(n, i))
    case Get(_, _, _) => if i == EndIdx(n, job) then Return(Miss) else Probe(Circle.Next(n, i))
    case Del(_, _) => if Circle.Next(n, i) == EndIdx(n, job) then Return(Miss) else Probe(Circle.Next(n, i))
  }

  /** Where a job goes when the list of slot i went away during the comparison: del returns at once. */
  function AfterRemoved(n: nat, job: Job, i: nat): Then
    requires 0 < n
  {
    if job.Del? then Return(Miss) else NextSlot(n, job, i)
  }

  function AfterMatch(job: Job, i: nat, vi: VerIdx): Pc {
    if job.Get? then GetInc(vi) else SwapSlot(i, vi)
  }

  function PcOf(k: Then): Pc {
    match k
    case Probe(i) => LoadSlot(i)
    case Return(r) => Done(r)
    case Drop(vi, out) => GetDec(vi, out)
  }

  // ---------------------------------------------------------------- shapes

  predicate OneBlock(bs: nat, job: Job) {
    job.Put? ==> 0 < |job.key| < bs && 0 < |job.val| && |job.key| + |job.val| <= bs
  }

  predicate ThenShape(n: nat, k: Then) {
    match k
    case Probe(i) => i < n
    case Return(_) => true
    case Drop(vi, _) => vi.idx < n
  }

  predicate PcShape(bs: nat, n: nat, th: Thread) {
    match th.pc
    case Idle => true
    case Popping => th.job.Put?
    case Popped(b) => b < n && th.job.Put?
    case Numbered(b, _) => b < n && th.job.Put?
    case Recorded(b, _) => b < n && th.job.Put?
    case Titled(b, _) => b < n && th.job.Put?
    case LoadSlot(i) => i < n
    case CkHash(i, vi) => i < n && vi.idx < n
    case CkVer(i, vi) => i < n && vi.idx < n
    case CkLen(i, vi) => i < n && vi.idx < n
    case CmpInc(i, vi) => i < n && vi.idx < n && |th.job.key| <= bs
    case CmpRead(i, vi) => i < n && vi.idx < n && |th.job.key| <= bs
    case CmpDec(i, vi, _) => i < n && vi.idx < n
    case SwapSlot(i, vi) => i < n && (Live(vi) ==> vi.idx < n) && !th.job.Get?
    case Unlink(vi) => vi.idx < n
    case GetInc(vi) => vi.idx < n && th.job.Get?
    case RdInc(vi, at, vlen) => vi.idx < n && at + vlen <= bs
    case RdCopy(vi, at, vlen) => vi.idx < n && at + vlen <= bs
    case RdDec(vi, _) => vi.idx < n
    case GetDec(vi, _) => vi.idx < n
    case Clear(b, k) => b < n && ThenShape(n, k)
    case ToPush(b, k) => b < n && ThenShape(n, k)
    case Pushing(b, k) => b < n && ThenShape(n, k)
    case Done(_) => true
  }

  predicate RecShape(bs: nat, r: Rec) { r.klen <= r.len <= bs }

  predicate SlotShape(n: nat, vi: VerIdx) { Live(vi) ==> vi.idx < n }

  predicate ThreadShape(bs: nat, n: nat, th: Thread) {
    PcShape(bs, n, th) && OneBlock(bs, th.job) && th.mine.idx < n
  }

  predicate Shape(s: State) {
    var n := |s.bls|;
    && 0 < n < DELETED
    && |s.fl.lv| == |s.dat| == |s.slots| == |s.place| == |s.leaks| == n
    && |s.fl.pcs| == |s.th|
    && FL.Shape(s.fl)
    && (forall b | 0 <= b < n :: RecShape(s.bs, s.bls[b]))
    && (forall b | 0 <= b < n :: |s.dat[b]| == s.bs)
    && (forall i | 0 <= i < n :: SlotShape(n, s.slots[i]))
    && (forall t | 0 <= t < |s.th| :: ThreadShape(s.bs, n, s.th[t]))
  }

  // ---------------------------------------------------------------- steps

  /** n free blocks of bs bytes whose contents are arbitrary, all slots empty, all threads idle. */
  function Init(bs: nat, dat: seq<Str>, threads: nat): State
    requires 0 < |dat|
  {
    var n := |dat|;
    State(bs, FL.Init(n, threads), 1, seq(n, i => Rec(0, 0, false, 0, 0, 0)), dat,
      seq(n, i => VerIdx(EMPTY, 0)), seq(threads, i => Thread(Del([], 0), VerIdx(0, 0), Idle)),
      seq(n, i => Free), seq(n, i => 0), map[], {})
  }

  function Goto(s: State, t: nat, pc: Pc): State
    requires t < |s.th|
  {
    s.(th := s.th[t := s.th[t].(pc := pc)])
  }

  /** Go on after a slot that did not match; a put that gives up here leaves its own list behind. */
  function Resume(s: State, t: nat, k: Then): State
    requires Shape(s) && t < |s.th|
  {
    var s1 := Goto(s, t, PcOf(k));
    if k == Return(GaveUp) then s1.(place := Abandon(s, t)) else s1
  }

  function Abandon(s: State, t: nat): seq<Place>
    requires Shape(s) && t < |s.th|
  {
    s.place[s.th[t].mine.idx := Lost(s.th[t].mine.ver)]
  }

  /** CncrStr::doFree begins: the thread owns the block from here to its winning swap of the free list. */
  function BeginFree(s: State, t: nat, b: nat, r: Rec, k: Then): State
    requires Shape(s) && t < |s.th| && b < |s.bls|
  {
    var s1 := Goto(s, t, Clear(b, k)).(bls := s.bls[b := r]);
    var place1 := if k == Return(GaveUp) then Abandon(s, t) else s.place;
    s1.(place := place1[b := Returning(t)])
  }

  /** incReaders, when it succeeds. */
  predicate Admits(r: Rec, v: nat) { MayRead(r.version, r.readers, r.deleted, v) }

  /** decReadersOrDel without del. */
  predicate LastOut(r: Rec, v: nat) { r.version == v && r.readers == 1 && r.deleted }

  function Dropped(r: Rec, v: nat): Rec {
    if r.version == v then r.(readers := r.readers - 1) else r
  }

  function Start(s: State, t: nat, job: Job): State
    requires Shape(s) && t < |s.th|
  {
    var n := |s.bls|;
    var s1 := s.(th := s.th[t := s.th[t].(job := job)]);
    if !OneBlock(s.bs, job) then s
    else match job
      case Put(_, _, _) => Goto(s1, t, Popping).(fl := FL.StartPop(s.fl, t))
      case Get(key, _, _) => Goto(s1, t, if key == [] then Done(Miss) else LoadSlot(Home(n, job)))
      case Del(_, _) => Goto(s1, t, if Home(n, job) == EndIdx(n, job) then Done(Miss) else LoadSlot(Home(n, job)))
  }

  /** The allocation half of put. */
  function AllocStep(s: State, t: nat): State
    requires Shape(s) && t < |s.th|
    requires s.th[t].pc.Popping? || s.th[t].pc.Popped? || s.th[t].pc.Numbered? || s.th[t].pc.Recorded? || s.th[t].pc.Titled?
  {
    var th := s.th[t];
    match th.pc
    case Popping =>
      var s1 := s.(fl := FL.Advance(s.fl, t));
      (match s.fl.pcs[t]
       case PopLoaded(cur) => if cur.idx == LIST_END then Goto(s1, t, Done(OutOfBlocks)) else s1
       case PopLinked(cur, _) =>
         if s.fl.head == cur then Goto(s1, t, Popped(cur.idx)).(place := s.place[cur.idx := Taken(t)]) else s1
       case _ => s1)
    case Popped(b) =>
      Goto(s, t, Numbered(b, s.ver)).(ver := s.ver + 1, place := s.place[b := Private(t, s.ver)],
        incs := s.incs[s.ver := Inc(b, th.job.key, th.job.val, th.job.hash)])
    case Numbered(b, v) =>
      Goto(s, t, Recorded(b, v)).(
        bls := s.bls[b := Rec(v, 0, false, |th.job.key| + |th.job.val|, 0, 0)], leaks := s.leaks[b := 0])
    case Recorded(b, v) =>
      Goto(s, t, Titled(b, v)).(
        bls := s.bls[b := s.bls[b].(hash := th.job.hash, klen := |th.job.key|,
                                    len := |th.job.key| + |th.job.val|, deleted := false)])
    case Titled(b, v) =>
      s.(dat := s.dat[b := th.job.key + th.job.val + s.dat[b][|th.job.key| + |th.job.val|..]],
         th := s.th[t := th.(mine := VerIdx(b, v), pc := LoadSlot(Home(|s.bls|, th.job)))])
  }

  /** One slot of a probe. */
  function ProbeStep(s: State, t: nat): State
    requires Shape(s) && t < |s.th|
    requires var pc := s.th[t].pc;
      pc.LoadSlot? || pc.CkHash? || pc.CkVer? || pc.CkLen? || pc.CmpInc? || pc.CmpRead? || pc.CmpDec?
  {
    var n, th := |s.bls|, s.th[t];
    match th.pc
    case LoadSlot(i) =>
      var vi := s.slots[i];
      if Live(vi) then Goto(s, t, CkHash(i, vi))
      else if th.job.Put? then Goto(s, t, SwapSlot(i, vi))
      else Resume(s, t, NextSlot(n, th.job, i))
    case CkHash(i, vi) =>
      if s.bls[vi.idx].hash != th.job.hash then Resume(s, t, NextSlot(n, th.job, i)) else Goto(s, t, CkVer(i, vi))
    case CkVer(i, vi) =>
      if s.bls[vi.idx].version != vi.ver then Resume(s, t, NextSlot(n, th.job, i)) else Goto(s, t, CkLen(i, vi))
    case CkLen(i, vi) =>
      if s.bls[vi.idx].klen != |th.job.key| then Resume(s, t, NextSlot(n, th.job, i)) else Goto(s, t, CmpInc(i, vi))
    case CmpInc(i, vi) =>
      var r := s.bls[vi.idx];
      if !Admits(r, vi.ver) then Resume(s, t, AfterRemoved(n, th.job, i))
      else
        var s1 := s.(bls := s.bls[vi.idx := r.(readers := r.readers + 1)]);
        if r.len == 0 then
          // a list without bytes counts as removed, and its reader stays
          Resume(s1.(leaks := s.leaks[vi.idx := s.leaks[vi.idx] + 1]), t, AfterRemoved(n, th.job, i))
        else Goto(s1, t, CmpRead(i, vi))
    case CmpRead(i, vi) => Goto(s, t, CmpDec(i, vi, s.dat[vi.idx][..|th.job.key|] == th.job.key))
    case CmpDec(i, vi, eq) =>
      var r := s.bls[vi.idx];
      if LastOut(r, vi.ver) then BeginFree(s, t, vi.idx, Dropped(r, vi.ver), AfterRemoved(n, th.job, i))
      else
        var s1 := s.(bls := s.bls[vi.idx := Dropped(r, vi.ver)]);
        if r.version != vi.ver then Resume(s1, t, AfterRemoved(n, th.job, i))
        else if eq then Goto(s1, t, AfterMatch(th.job, i, vi))
        else Resume(s1, t, NextSlot(n, th.job, i))
  }

  /** Swapping a slot, and deleting the list that was in it. */
  function SwapStep(s: State, t: nat): State
    requires Shape(s) && t < |s.th|
    requires s.th[t].pc.SwapSlot? || s.th[t].pc.Unlink?
  {
    var th := s.th[t];
    match th.pc
    case SwapSlot(i, vi) =>
      if s.slots[i] != vi then Goto(s, t, LoadSlot(i))
      else if th.job.Put? then
        var place1 := if Live(vi) then s.place[vi.idx := Unlinked(t, vi.ver)] else s.place;
        Goto(s, t, if Live(vi) then Unlink(vi) else Done(Stored)).(
          slots := s.slots[i := th.mine], pub := s.pub + {th.mine.ver},
          place := place1[th.mine.idx := Published(i, th.mine.ver)])
      else if Live(vi) then
        Goto(s, t, Unlink(vi)).(slots := s.slots[i := VerIdx(DELETED, 0)],
          place := s.place[vi.idx := Unlinked(t, vi.ver)])
      else s
    case Unlink(vi) =>
      var r := s.bls[vi.idx];
      var k := Return(if th.job.Put? then Stored else Removed);
      if r.version != vi.ver then Goto(s, t, PcOf(k))
      else if r.readers == 0 && !r.deleted then BeginFree(s, t, vi.idx, r.(deleted := true), k)
      else Goto(s, t, PcOf(k)).(bls := s.bls[vi.idx := r.(deleted := true)],
                                place := s.place[vi.idx := Condemned(vi.ver)])
  }

  /** CncrStr::get on the list of a slot that matched. */
  function ReadStep(s: State, t: nat): State
    requires Shape(s) && t < |s.th|
    requires var pc := s.th[t].pc; pc.GetInc? || pc.RdInc? || pc.RdCopy? || pc.RdDec? || pc.GetDec?
  {
    var th := s.th[t];
    match th.pc
    case GetInc(vi) =>
      var r := s.bls[vi.idx];
      if !Admits(r, vi.ver) then Goto(s, t, Done(Vanished))
      else
        var s1 := s.(bls := s.bls[vi.idx := r.(readers := r.readers + 1)]);
        if r.len == 0 || r.len - r.klen > th.job.maxlen then
          // returns without dropping the reader it took
          Goto(s1, t, Done(TooBig)).(leaks := s.leaks[vi.idx := s.leaks[vi.idx] + 1])
        else Goto(s1, t, RdInc(vi, r.klen, r.len - r.klen))
    case RdInc(vi, at, vlen) =>
      var r := s.bls[vi.idx];
      if Admits(r, vi.ver) then
        Goto(s, t, RdCopy(vi, at, vlen)).(bls := s.bls[vi.idx := r.(readers := r.readers + 1)])
      else Goto(s, t, GetDec(vi, []))
    case RdCopy(vi, at, vlen) => Goto(s, t, RdDec(vi, s.dat[vi.idx][at..at + vlen]))
    case RdDec(vi, out) =>
      var r := s.bls[vi.idx];
      if LastOut(r, vi.ver) then BeginFree(s, t, vi.idx, Dropped(r, vi.ver), Drop(vi, out))
      else Goto(s, t, GetDec(vi, out)).(bls := s.bls[vi.idx := Dropped(r, vi.ver)])
    case GetDec(vi, out) =>
      var r := s.bls[vi.idx];
      var k := Return(if out == [] then Vanished else Hit(out));
      if LastOut(r, vi.ver) then BeginFree(s, t, vi.idx, Dropped(r, vi.ver), k)
      else Goto(s, t, PcOf(k)).(bls := s.bls[vi.idx := Dropped(r, vi.ver)])
  }

  /** CncrStr::doFree on a list of one block. */
  function FreeStep(s: State, t: nat): State
    requires Shape(s) && t < |s.th|
    requires s.th[t].pc.Clear? || s.th[t].pc.ToPush? || s.th[t].pc.Pushing?
  {
    match s.th[t].pc
    case Clear(b, k) => Goto(s, t, ToPush(b, k)).(bls := s.bls[b := s.bls[b].(version := 0)])
    case ToPush(b, k) => Goto(s, t, Pushing(b, k)).(fl := FL.StartPush(s.fl, t, b))
    case Pushing(b, k) =>
      var s1 := s.(fl := FL.Advance(s.fl, t));
      if s.fl.pcs[t].PushLinked? && s.fl.head == s.fl.pcs[t].cur then
        Goto(s1, t, PcOf(k)).(place := s.place[b := Free])
      else s1
  }

  /** The next step of thread t; `job` is what it calls next when it is idle. */
  function Next(s: State, t: nat, job: Job): State
    requires Shape(s) && t < |s.th|
  {
    var pc := s.th[t].pc;
    if pc.Idle? then Start(s, t, job)
    else if pc.Done? then Goto(s, t, Idle)
    else if pc.Popping? || pc.Popped? || pc.Numbered? || pc.Recorded? || pc.Titled? then AllocStep(s, t)
    else if pc.SwapSlot? || pc.Unlink? then SwapStep(s, t)
    else if pc.Clear? || pc.ToPush? || pc.Pushing? then FreeStep(s, t)
    else if pc.GetInc? || pc.RdInc? || pc.RdCopy? || pc.RdDec? || pc.GetDec? then ReadStep(s, t)
    else ProbeStep(s, t)
  }
}
