/** What every step of every thread keeps: each block is in exactly one place, reader counts are exact, and a
    thread that holds a reader sees the bytes its list was given. */
module StoreInvariant {
  import opened Bytes
  import opened Handles
  import opened StoreSteps
  import FL = FreeListSteps

  // ---------------------------------------------------------------- what a thread holds

  /** The put of this thread is the only one to know the list (b, v). */
  predicate Owns(th: Thread, b: nat, v: nat) {
    match th.pc
    case Numbered(c, w) => c == b && w == v
    case Recorded(c, w) => c == b && w == v
    case Titled(c, w) => c == b && w == v
    case LoadSlot(_) => OwnsMine(th, b, v)
    case CkHash(_, _) => OwnsMine(th, b, v)
    case CkVer(_, _) => OwnsMine(th, b, v)
    case CkLen(_, _) => OwnsMine(th, b, v)
    case CmpInc(_, _) => OwnsMine(th, b, v)
    case CmpRead(_, _) => OwnsMine(th, b, v)
    case CmpDec(_, _, _) => OwnsMine(th, b, v)
    case SwapSlot(_, _) => OwnsMine(th, b, v)
    case Clear(_, k) => k.Probe? && OwnsMine(th, b, v)
    case ToPush(_, k) => k.Probe? && OwnsMine(th, b, v)
    case Pushing(_, k) => k.Probe? && OwnsMine(th, b, v)
    case _ => false
  }

  predicate OwnsMine(th: Thread, b: nat, v: nat) {
    th.job.Put? && th.mine == VerIdx(b, v)
  }

  /** How many readers of the list vi this thread has taken and not dropped. */
  function Holds(pc: Pc, vi: VerIdx): nat {
    match pc
    case CmpRead(_, w) => if w == vi then 1 else 0
    case CmpDec(_, w, _) => if w == vi then 1 else 0
    case RdInc(w, _, _) => if w == vi then 1 else 0
    case RdCopy(w, _, _) => if w == vi then 2 else 0
    case RdDec(w, _) => if w == vi then 2 else 0
    case GetDec(w, _) => if w == vi then 1 else 0
    case _ => 0
  }

  function SumHolds(th: seq<Thread>, vi: VerIdx): nat {
    if th == [] then 0 else SumHolds(th[..|th| - 1], vi) + Holds(th[|th| - 1].pc, vi)
  }

  lemma {:induction false} SumUpdate(th: seq<Thread>, t: nat, x: Thread, vi: VerIdx)
    requires t < |th|
    ensures SumHolds(th[t := x], vi) == SumHolds(th, vi) - Holds(th[t].pc, vi) + Holds(x.pc, vi)
    ensures SumHolds(th, vi) >= Holds(th[t].pc, vi)
  {
    var last := |th| - 1;
    if t == last {
      assert th[t := x][..last] == th[..last];
    } else {
      SumUpdate(th[..last], t, x, vi);
      assert th[t := x][..last] == th[..last][t := x];
    }
  }

  lemma {:induction false} SumZero(th: seq<Thread>, vi: VerIdx)
    requires forall t | 0 <= t < |th| :: Holds(th[t].pc, vi) == 0
    ensures SumHolds(th, vi) == 0
  {
    if th != [] { SumZero(th[..|th| - 1], vi); }
  }

  // ---------------------------------------------------------------- the invariant

  predicate Filled(s: State, b: nat, v: nat)
    requires Shape(s) && b < |s.bls|
  {
    && v in s.incs && s.incs[v].idx == b
    && var inc := s.incs[v];
    && s.bls[b].hash == inc.hash && s.bls[b].klen == |inc.key| && s.bls[b].len == |inc.key| + |inc.val|
    && s.dat[b][..s.bls[b].len] == inc.key + inc.val
    && |inc.val| > 0
  }

  predicate PrivateOk(s: State, b: nat, t: nat, v: nat)
    requires Shape(s) && b < |s.bls| && t < |s.th|
  {
    var th, r := s.th[t], s.bls[b];
    && Owns(th, b, v)
    && v !in s.pub && v in s.incs && s.incs[v] == Inc(b, th.job.key, th.job.val, th.job.hash) && th.job.Put?
    && (if th.pc.Numbered? then r.version == 0 else r.version == v && r.readers == 0 && !r.deleted && s.leaks[b] == 0)
    && (th.pc.Titled? ==> r.hash == th.job.hash && r.klen == |th.job.key| && r.len == |th.job.key| + |th.job.val|)
    && (!th.pc.Numbered? && !th.pc.Recorded? && !th.pc.Titled? ==> Filled(s, b, v))
  }

  predicate BlockOk(s: State, b: nat)
    requires Shape(s) && b < |s.bls|
  {
    var r := s.bls[b];
    match s.place[b]
    case Free => r.version == 0
    case Taken(t) => t < |s.th| && s.th[t].pc == Popped(b) && r.version == 0
    case Private(t, v) => t < |s.th| && PrivateOk(s, b, t, v)
    case Published(i, v) =>
      i < |s.slots| && s.slots[i] == VerIdx(b, v) && r.version == v && !r.deleted && v in s.pub && Filled(s, b, v)
    case Unlinked(t, v) =>
      t < |s.th| && s.th[t].pc == Unlink(VerIdx(b, v)) && r.version == v && !r.deleted && v in s.pub && Filled(s, b, v)
    case Condemned(v) => r.version == v && r.deleted && r.readers > 0 && v in s.pub && Filled(s, b, v)
    case Returning(t) =>
      t < |s.th| && AtFree(s.th[t].pc) && s.th[t].pc.b == b
      && (if s.th[t].pc.Clear? then r.deleted && r.readers == 0 && r.version in s.pub && Filled(s, b, r.version)
          else r.version == 0)
    case Lost(v) => r.version == v && v !in s.pub && v in s.incs && s.incs[v].idx == b
  }

  predicate AtFree(pc: Pc) { pc.Clear? || pc.ToPush? || pc.Pushing? }

  /** The count of a live record is exactly the readers taken and not dropped, plus those get left behind. */
  predicate ReadersOk(s: State, b: nat)
    requires Shape(s) && b < |s.bls|
  {
    var r := s.bls[b];
    r.version != 0 ==> r.readers == SumHolds(s.th, VerIdx(b, r.version)) + s.leaks[b]
  }

  predicate SlotOk(s: State, i: nat)
    requires Shape(s) && i < |s.slots|
  {
    var vi := s.slots[i];
    Live(vi) ==> s.place[vi.idx] == Published(i, vi.ver)
  }

  /** vi once stood in a slot. */
  predicate Known(s: State, vi: VerIdx) {
    vi.idx < |s.bls| && vi.ver in s.pub && vi.ver in s.incs && s.incs[vi.ver].idx == vi.idx
  }

  predicate Matches(s: State, th: Thread, vi: VerIdx) {
    Known(s, vi) && s.incs[vi.ver].key == th.job.key
  }

  predicate Current(s: State, vi: VerIdx) {
    vi.idx < |s.bls| && s.bls[vi.idx].version == vi.ver
  }

  ghost predicate WasPut(s: State, key: Str, val: Str) {
    exists v :: v in s.pub && v in s.incs && s.incs[v].key == key && s.incs[v].val == val
  }

  ghost predicate ResultOk(s: State, th: Thread, r: Result) {
    r.Hit? ==> WasPut(s, th.job.key, r.bytes)
  }

  ghost predicate ThenOk(s: State, t: nat, k: Then)
    requires Shape(s) && t < |s.th|
  {
    !k.Drop? && (k.Return? ==> ResultOk(s, s.th[t], k.r)) && (k.Probe? ==> Probing(s, t))
  }

  ghost predicate PcOk(s: State, t: nat)
    requires Shape(s) && t < |s.th|
  {
    var th := s.th[t];
    match th.pc
    case Popped(b) => s.place[b] == Taken(t)
    case Numbered(b, v) => s.place[b] == Private(t, v)
    case Recorded(b, v) => s.place[b] == Private(t, v)
    case Titled(b, v) => s.place[b] == Private(t, v)
    case LoadSlot(_) => Probing(s, t)
    case CkHash(_, vi) => Probing(s, t) && Known(s, vi)
    case CkVer(_, vi) => Probing(s, t) && Known(s, vi)
    case CkLen(_, vi) => Probing(s, t) && Known(s, vi)
    case CmpInc(_, vi) =>
      Probing(s, t) && Known(s, vi) && (Current(s, vi) ==> |s.incs[vi.ver].key| == |th.job.key|)
    case CmpRead(_, vi) =>
      Probing(s, t) && Known(s, vi) && Current(s, vi) && |s.incs[vi.ver].key| == |th.job.key|
    case CmpDec(_, vi, eq) =>
      Probing(s, t) && Known(s, vi) && Current(s, vi) && (eq ==> Matches(s, th, vi))
    case SwapSlot(_, vi) =>
      Probing(s, t) && (Live(vi) ==> Matches(s, th, vi)) && (th.job.Del? ==> Live(vi))
    case Unlink(vi) => s.place[vi.idx] == Unlinked(t, vi.ver) && Matches(s, th, vi)
    case GetInc(vi) => Matches(s, th, vi)
    case RdInc(vi, at, vlen) =>
      Matches(s, th, vi) && Current(s, vi) && at == |s.incs[vi.ver].key| && vlen == |s.incs[vi.ver].val|
    case RdCopy(vi, at, vlen) =>
      Matches(s, th, vi) && Current(s, vi) && at == |s.incs[vi.ver].key| && vlen == |s.incs[vi.ver].val|
    case RdDec(vi, out) => Matches(s, th, vi) && Current(s, vi) && out == s.incs[vi.ver].val
    case GetDec(vi, out) => Matches(s, th, vi) && Current(s, vi) && (out == [] || out == s.incs[vi.ver].val)
    case Clear(b, k) => s.place[b] == Returning(t) && ThenOk(s, t, k)
    case ToPush(b, k) => s.place[b] == Returning(t) && ThenOk(s, t, k)
    case Pushing(b, k) => s.place[b] == Returning(t) && ThenOk(s, t, k)
    case Done(r) => ResultOk(s, th, r)
    case _ => true
  }

  /** A put between its copy and its swap: its list is in no slot, and no other thread knows it. */
  predicate Probing(s: State, t: nat)
    requires Shape(s) && t < |s.th|
  {
    var th := s.th[t];
    th.job.Put? ==> s.place[th.mine.idx] == Private(t, th.mine.ver)
  }

  /** The free list sees a block as its own exactly when this layer does. */
  function Below(s: State, b: nat): FL.Place
    requires Shape(s) && b < |s.bls|
  {
    match s.place[b]
    case Free => FL.Listed
    case Returning(t) => if t < |s.th| && s.th[t].pc.Pushing? then FL.Returning(t) else FL.Out
    case _ => FL.Out
  }

  predicate FlPcOk(s: State, t: nat)
    requires Shape(s) && t < |s.th|
  {
    match s.th[t].pc
    case Popping => s.fl.pcs[t].PopLoaded? || s.fl.pcs[t].PopLinked?
    case Pushing(b, _) => FL.Pushing(s.fl.pcs[t], b)
    case _ => s.fl.pcs[t].Idle?
  }

  predicate IncOk(s: State, v: nat) {
    (v in s.incs <==> 0 < v < s.ver) && (v in s.pub ==> v in s.incs)
  }

  ghost predicate Inv(s: State) {
    && Shape(s)
    && FL.Inv(s.fl)
    && s.ver > 0
    && (forall b | 0 <= b < |s.bls| :: s.fl.place[b] == Below(s, b))
    && (forall t | 0 <= t < |s.th| :: FlPcOk(s, t))
    && (forall v :: IncOk(s, v))
    && (forall t | 0 <= t < |s.th| :: PcOk(s, t))
    && (forall b | 0 <= b < |s.bls| :: BlockOk(s, b))
    && (forall b | 0 <= b < |s.bls| :: ReadersOk(s, b))
    && (forall i | 0 <= i < |s.slots| :: SlotOk(s, i))
  }
}
