/** The lock-free list of block indices (`CncrLst`) as a state machine over its atomic steps.

    Any number of threads interleave `nxt()` and `free(idx)`.  Each of the following is one step of one
    thread: loading the head, reading a link, writing a link, and the compare-and-swap of the head.  A thread
    therefore may hold a head value, or a link read through it, that has long been overtaken.

    `list`, `place`, `fails`, `seen` and `wins` are history variables: no step's outcome depends on them. */
module FreeListSteps {

  import opened Chains

  /** The 64-bit head word: a version that every successful swap raises, and the first free index. */
  datatype Head = Head(ver: nat, idx: nat)

  datatype Pc =
    | Idle
    | PopLoaded(cur: Head)                // nxt(): head in hand, about to test it and read its link
    | PopLinked(cur: Head, nxt: nat)      // nxt(): about to swap
    | PushLoaded(b: nat, cur: Head)       // free(b): head in hand, about to write the link of b
    | PushLinked(b: nat, cur: Head)       // free(b): about to swap

  /** Where an index is: on the list, handed out by nxt(), or on its way back by thread t. */
  datatype Place = Listed | Out | Returning(t: nat)

  datatype State = State(
    lv: seq<nat>, head: Head, pcs: seq<Pc>,
    list: seq<nat>, place: seq<Place>, fails: seq<nat>, seen: seq<nat>, wins: nat)

  // ---------------------------------------------------------------- steps

  function Init(n: nat, threads: nat): State
    requires 0 < n
  {
    State(
      seq(n, i => if i == n - 1 then LIST_END else i + 1), Head(0, 0), seq(threads, i => Idle),
      seq(n, i => i), seq(n, i => Listed), seq(threads, i => 0), seq(threads, i => 0), 0)
  }

  predicate Shape(s: State) {
    && |s.place| == |s.lv| < LIST_END
    && |s.fails| == |s.seen| == |s.pcs|
    && (forall b | 0 <= b < |s.lv| :: IsLink(s, s.lv[b]))
    && IsLink(s, s.head.idx)
    && (forall t | 0 <= t < |s.pcs| :: PcShape(s, s.pcs[t]))
  }

  predicate IsLink(s: State, i: nat) { i == LIST_END || i < |s.lv| }

  predicate PcShape(s: State, pc: Pc) {
    match pc
    case Idle => true
    case PopLoaded(cur) => IsLink(s, cur.idx)
    case PopLinked(cur, nxt) => cur.idx < |s.lv| && IsLink(s, nxt)
    case PushLoaded(b, cur) => b < |s.lv| && IsLink(s, cur.idx)
    case PushLinked(b, cur) => b < |s.lv| && IsLink(s, cur.idx)
  }

  /** The head load that begins nxt(). */
  function StartPop(s: State, t: nat): State
    requires Shape(s) && t < |s.pcs|
  {
    s.(pcs := s.pcs[t := PopLoaded(s.head)], seen := s.seen[t := s.head.ver])
  }

  /** The head load that begins free(b). */
  function StartPush(s: State, t: nat, b: nat): State
    requires Shape(s) && t < |s.pcs| && b < |s.lv|
  {
    s.(pcs := s.pcs[t := PushLoaded(b, s.head)], seen := s.seen[t := s.head.ver],
       place := s.place[b := Returning(t)])
  }

  /** A compare-and-swap that loses: the thread now holds the head it found instead. */
  function Lose(s: State, t: nat, pc: Pc): State
    requires Shape(s) && t < |s.pcs|
  {
    s.(pcs := s.pcs[t := pc], seen := s.seen[t := s.head.ver], fails := s.fails[t := s.fails[t] + 1])
  }

  /** The next step of a thread inside nxt() or free(b). */
  function Advance(s: State, t: nat): State
    requires Shape(s) && t < |s.pcs|
  {
    match s.pcs[t]
    case Idle => s
    case PopLoaded(cur) =>
      if cur.idx == LIST_END then s.(pcs := s.pcs[t := Idle])
      else s.(pcs := s.pcs[t := PopLinked(cur, s.lv[cur.idx])])
    case PopLinked(cur, nxt) =>
      if s.head == cur then
        s.(pcs := s.pcs[t := Idle], head := Head(cur.ver + 1, nxt), wins := s.wins + 1,
           list := if s.list == [] then [] else s.list[1..], place := s.place[cur.idx := Out])
      else
        Lose(s, t, PopLoaded(s.head))
    case PushLoaded(b, cur) =>
      s.(lv := s.lv[b := cur.idx], pcs := s.pcs[t := PushLinked(b, cur)])
    case PushLinked(b, cur) =>
      if s.head == cur then
        s.(pcs := s.pcs[t := Idle], head := Head(cur.ver + 1, b), wins := s.wins + 1,
           list := [b] + s.list, place := s.place[b := Listed])
      else
        Lose(s, t, PushLoaded(b, s.head))
  }

  /** What a thread's next step hands to its caller, when that step is the winning swap of nxt(). */
  predicate Pops(s: State, t: nat, b: nat)
    requires t < |s.pcs|
  {
    s.pcs[t].PopLinked? && s.head == s.pcs[t].cur && s.head.idx == b
  }

  // ---------------------------------------------------------------- invariant

  predicate Overtaken(s: State, cur: Head) {
    cur.ver < s.head.ver || cur == s.head
  }

  predicate Pushing(pc: Pc, b: nat) {
    (pc.PushLoaded? || pc.PushLinked?) && pc.b == b
  }

  predicate PcOk(s: State, t: nat)
    requires Shape(s) && t < |s.pcs|
  {
    match s.pcs[t]
    case Idle => true
    case PopLoaded(cur) => Overtaken(s, cur) && s.seen[t] == cur.ver
    case PopLinked(cur, nxt) =>
      Overtaken(s, cur) && s.seen[t] == cur.ver && (cur == s.head ==> s.lv[cur.idx] == nxt)
    case PushLoaded(b, cur) =>
      Overtaken(s, cur) && s.seen[t] == cur.ver && s.place[b] == Returning(t)
    case PushLinked(b, cur) =>
      Overtaken(s, cur) && s.seen[t] == cur.ver && s.place[b] == Returning(t) && s.lv[b] == cur.idx
  }

  predicate PlaceOk(s: State, b: nat)
    requires Shape(s) && b < |s.lv|
  {
    && (b in s.list <==> s.place[b] == Listed)
    && (s.place[b].Returning? ==> s.place[b].t < |s.pcs| && Pushing(s.pcs[s.place[b].t], b))
  }

  ghost predicate Inv(s: State) {
    && Shape(s)
    && Chain(s.lv, s.head.idx, s.list)
    && (forall t | 0 <= t < |s.pcs| :: PcOk(s, t))
    && (forall b | 0 <= b < |s.lv| :: PlaceOk(s, b))
    && s.wins == s.head.ver
    && (forall t | 0 <= t < |s.pcs| :: s.fails[t] <= s.seen[t] <= s.head.ver)
  }

  lemma InitInv(n: nat, threads: nat)
    requires 0 < n < LIST_END
    ensures Inv(Init(n, threads))
  {
    var s := Init(n, threads);
    forall b | 0 <= b < n ensures b in s.list { assert s.list[b] == b; }
  }

  lemma StartPopInv(s: State, t: nat)
    requires Inv(s) && t < |s.pcs| && s.pcs[t].Idle?
    ensures Inv(StartPop(s, t))
  {
    var s' := StartPop(s, t);
    forall u | 0 <= u < |s'.pcs| ensures PcOk(s', u) { assert PcOk(s, u); }
    forall b | 0 <= b < |s'.lv| ensures PlaceOk(s', b) { assert PlaceOk(s, b); }
  }

  lemma StartPushInv(s: State, t: nat, b: nat)
    requires Inv(s) && t < |s.pcs| && s.pcs[t].Idle?
    requires b < |s.lv| && s.place[b] == Out
    ensures Inv(StartPush(s, t, b))
  {
    var s' := StartPush(s, t, b);
    forall u | 0 <= u < |s'.pcs| ensures PcOk(s', u) { assert PcOk(s, u); }
    forall c | 0 <= c < |s'.lv| ensures PlaceOk(s', c) { assert PlaceOk(s, c); }
  }

  lemma LoseInv(s: State, t: nat)
    requires Inv(s) && t < |s.pcs|
    requires s.pcs[t].PopLinked? || s.pcs[t].PushLinked?
    requires s.head != s.pcs[t].cur
    ensures Inv(Advance(s, t))
  {
    var s' := Advance(s, t);
    assert PcOk(s, t);
    forall u | 0 <= u < |s'.pcs| ensures PcOk(s', u) { assert PcOk(s, u); }
    forall b | 0 <= b < |s'.lv| ensures PlaceOk(s', b) { assert PlaceOk(s, b); }
  }

  lemma LinkInv(s: State, t: nat)
    requires Inv(s) && t < |s.pcs|
    requires s.pcs[t].Idle? || s.pcs[t].PopLoaded? || s.pcs[t].PushLoaded?
    ensures Inv(Advance(s, t))
  {
    var s' := Advance(s, t);
    assert PcOk(s, t);
    if s.pcs[t].PushLoaded? {
      var b := s.pcs[t].b;
      assert PlaceOk(s, b);
      ChainFrame(s.lv, s'.lv, s.head.idx, s.list);
    }
    forall u | 0 <= u < |s'.pcs| ensures PcOk(s', u) { assert PcOk(s, u); }
    forall b | 0 <= b < |s'.lv| ensures PlaceOk(s', b) { assert PlaceOk(s, b); }
  }

  lemma PopWinInv(s: State, t: nat)
    requires Inv(s) && t < |s.pcs| && s.pcs[t].PopLinked? && s.head == s.pcs[t].cur
    ensures Inv(Advance(s, t))
    ensures s.list != [] && Pops(s, t, s.list[0])
  {
    var s' := Advance(s, t);
    assert PcOk(s, t);
    assert s.list != [];
    var b := s.list[0];
    ChainTail(s.lv, s.head.idx, s.list);
    forall u | 0 <= u < |s'.pcs| ensures PcOk(s', u) {
      assert PcOk(s, u);
      if u != t && (s.pcs[u].PushLoaded? || s.pcs[u].PushLinked?) { assert PlaceOk(s, s.pcs[u].b); }
    }
    forall c | 0 <= c < |s'.lv| ensures PlaceOk(s', c) {
      assert PlaceOk(s, c);
    }
  }

  lemma PushWinInv(s: State, t: nat)
    requires Inv(s) && t < |s.pcs| && s.pcs[t].PushLinked? && s.head == s.pcs[t].cur
    ensures Inv(Advance(s, t))
  {
    var s' := Advance(s, t);
    assert PcOk(s, t);
    var b := s.pcs[t].b;
    assert PlaceOk(s, b);
    ChainPush(s.lv, s.head.idx, s.list, b);
    forall u | 0 <= u < |s'.pcs| ensures PcOk(s', u) { assert PcOk(s, u); }
    forall c | 0 <= c < |s'.lv| ensures PlaceOk(s', c) { assert PlaceOk(s, c); }
  }

  /** Every step of a thread inside nxt() or free() keeps the invariant. */
  lemma AdvanceInv(s: State, t: nat)
    requires Inv(s) && t < |s.pcs|
    ensures Inv(Advance(s, t))
  {
    match s.pcs[t]
    case PopLinked(cur, _) => if s.head == cur { PopWinInv(s, t); } else { LoseInv(s, t); }
    case PushLinked(_, cur) => if s.head == cur { PushWinInv(s, t); } else { LoseInv(s, t); }
    case _ => LinkInv(s, t);
  }

  // ---------------------------------------------------------------- runs

  /** What the scheduler picks: a thread, and for a thread outside nxt() and free() the call it makes next. */
  datatype Act = Pop | Push(b: nat) | Continue
  datatype Tick = Tick(t: nat, a: Act)

  /** One step of a run.  An idle thread may free only an index that is handed out; a pick that makes no
      sense leaves the state alone. */
  function Step(s: State, k: Tick): State
    requires Shape(s)
  {
    if k.t >= |s.pcs| then s
    else if !s.pcs[k.t].Idle? then Advance(s, k.t)
    else match k.a
      case Pop => StartPop(s, k.t)
      case Push(b) => if b < |s.lv| && s.place[b] == Out then StartPush(s, k.t, b) else s
      case Continue => s
  }

  lemma StepInv(s: State, k: Tick)
    requires Inv(s)
    ensures Inv(Step(s, k))
  {
    if k.t < |s.pcs| {
      if !s.pcs[k.t].Idle? { AdvanceInv(s, k.t); }
      else if k.a.Pop? { StartPopInv(s, k.t); }
      else if k.a.Push? && k.a.b < |s.lv| && s.place[k.a.b] == Out { StartPushInv(s, k.t, k.a.b); }
    }
  }

  /** The state after a schedule, from the initial list of n indices. */
  ghost function Run(n: nat, threads: nat, sched: seq<Tick>): (s: State)
    requires 0 < n < LIST_END
    ensures Inv(s) && |s.lv| == n && |s.pcs| == threads
  {
    if sched == [] then InitInv(n, threads); Init(n, threads)
    else
      var s := Run(n, threads, sched[..|sched| - 1]);
      StepInv(s, sched[|sched| - 1]);
      Step(s, sched[|sched| - 1])
  }

  /** In every reachable state the list from the head is acyclic and ends in LIST_END, and every index is
      exactly one of: on the list, handed out, or being returned by the one thread that names it. */
  lemma ListAndOwnersPartition(n: nat, threads: nat, sched: seq<Tick>)
    requires 0 < n < LIST_END
    ensures var s := Run(n, threads, sched);
      && Chain(s.lv, s.head.idx, s.list)
      && (forall b | 0 <= b < n :: b in s.list <==> s.place[b] == Listed)
      && (forall b, t | 0 <= b < n && 0 <= t < threads ::
            Pushing(s.pcs[t], b) <==> s.place[b] == Returning(t))
  {
    var s := Run(n, threads, sched);
    forall b, t | 0 <= b < n && 0 <= t < threads
      ensures (b in s.list <==> s.place[b] == Listed)
      ensures Pushing(s.pcs[t], b) <==> s.place[b] == Returning(t)
    {
      assert PlaceOk(s, b) && PcOk(s, t);
    }
    forall b | 0 <= b < n ensures b in s.list <==> s.place[b] == Listed { assert PlaceOk(s, b); }
  }

  /** Seen from outside, the list is a stack: a step leaves it alone, or is the winning swap of a nxt() that
      takes the top, or is the winning swap of a free(b) that puts b on top.  A loaded head names LIST_END
      exactly when the stack is empty at that load, so the answer "no block" is right when it is read. */
  lemma StepIsStackStep(s: State, k: Tick)
    requires Inv(s)
    ensures var s' := Step(s, k);
      && (s.head.idx == LIST_END <==> s.list == [])
      && (if k.t < |s.pcs| && s.pcs[k.t].PopLinked? && s.head == s.pcs[k.t].cur then
            s.list != [] && s'.list == s.list[1..] && Pops(s, k.t, s.list[0]) && s'.place[s.list[0]] == Out
          else if k.t < |s.pcs| && s.pcs[k.t].PushLinked? && s.head == s.pcs[k.t].cur then
            s'.list == [s.pcs[k.t].b] + s.list
          else
            s'.list == s.list)
  {
    if k.t < |s.pcs| && s.pcs[k.t].PopLinked? && s.head == s.pcs[k.t].cur { PopWinInv(s, k.t); }
    if s.list != [] { assert s.list[0] < |s.lv|; }
  }

  // ---------------------------------------------------------------- conservation over a whole run

  /** How often nxt() has handed out b, and how often free(b) has taken it back. */
  ghost function Taken(n: nat, threads: nat, sched: seq<Tick>, b: nat): nat
    requires 0 < n < LIST_END
  {
    if sched == [] then 0
    else
      var s, k := Run(n, threads, sched[..|sched| - 1]), sched[|sched| - 1];
      Taken(n, threads, sched[..|sched| - 1], b) + if k.t < threads && Pops(s, k.t, b) then 1 else 0
  }

  predicate GivesBack(s: State, t: nat, b: nat)
    requires t < |s.pcs|
  {
    s.pcs[t].PushLinked? && s.head == s.pcs[t].cur && s.pcs[t].b == b
  }

  ghost function Returned(n: nat, threads: nat, sched: seq<Tick>, b: nat): nat
    requires 0 < n < LIST_END
  {
    if sched == [] then 0
    else
      var s, k := Run(n, threads, sched[..|sched| - 1]), sched[|sched| - 1];
      Returned(n, threads, sched[..|sched| - 1], b) + if k.t < threads && GivesBack(s, k.t, b) then 1 else 0
  }

  lemma {:induction false} StepCounts(s: State, k: Tick, b: nat)
    requires Inv(s) && b < |s.lv|
    ensures var s' := Step(s, k);
      (if s'.place[b] == Listed then 0 else 1) ==
        (if s.place[b] == Listed then 0 else 1)
        + (if k.t < |s.pcs| && Pops(s, k.t, b) then 1 else 0)
        - (if k.t < |s.pcs| && GivesBack(s, k.t, b) then 1 else 0)
  {
    assert PlaceOk(s, b);
    if k.t < |s.pcs| {
      assert PcOk(s, k.t);
      if s.pcs[k.t].PopLinked? && s.head == s.pcs[k.t].cur {
        PopWinInv(s, k.t);
        assert s.list[0] in s.list && PlaceOk(s, s.list[0]);
      }
    }
  }

  /** No index is ever handed to two owners: over any run, the times nxt() returned b exceed the times
      free(b) took it back by one while b is owned, and are equal while it is on the list. */
  lemma {:induction false} NoIndexHasTwoOwners(n: nat, threads: nat, sched: seq<Tick>, b: nat)
    requires 0 < n < LIST_END && b < n
    ensures Taken(n, threads, sched, b)
         == Returned(n, threads, sched, b) + if Run(n, threads, sched).place[b] == Listed then 0 else 1
  {
    if sched != [] {
      NoIndexHasTwoOwners(n, threads, sched[..|sched| - 1], b);
      StepCounts(Run(n, threads, sched[..|sched| - 1]), sched[|sched| - 1], b);
    }
  }

  // ---------------------------------------------------------------- lock freedom

  function Sum(xs: seq<nat>): nat {
    if xs == [] then 0 else Sum(xs[..|xs| - 1]) + xs[|xs| - 1]
  }

  lemma {:induction false} SumBound(xs: seq<nat>, most: nat)
    requires forall i | 0 <= i < |xs| :: xs[i] <= most
    ensures Sum(xs) <= |xs| * most
  {
    if xs != [] {
      SumBound(xs[..|xs| - 1], most);
      assert |xs| * most == (|xs| - 1) * most + most;
    }
  }

  /** The version of the head counts the successful swaps.  In every run a thread has lost no more swaps than
      the system has won, so all lost swaps together number at most threads x wins. */
  lemma LostSwapsAreBounded(n: nat, threads: nat, sched: seq<Tick>)
    requires 0 < n < LIST_END
    ensures var s := Run(n, threads, sched);
      && s.head.ver == s.wins
      && (forall t | 0 <= t < threads :: s.fails[t] <= s.wins)
      && Sum(s.fails) <= threads * s.wins
  {
    var s := Run(n, threads, sched);
    assert forall t | 0 <= t < threads :: s.fails[t] <= s.seen[t] <= s.head.ver;
    SumBound(s.fails, s.wins);
  }

  /** How many steps are left of a call that loses no swap. */
  function Distance(pc: Pc): nat {
    match pc
    case Idle => 0
    case PopLoaded(_) => 2
    case PopLinked(_, _) => 1
    case PushLoaded(_, _) => 2
    case PushLinked(_, _) => 1
  }

  /** Every step of a thread inside nxt() or free() loses a swap or brings the call nearer to its end, and no step of
      another thread takes it back. */
  lemma StepAdvances(s: State, k: Tick, t: nat)
    requires Inv(s) && t < |s.pcs|
    ensures var s' := Step(s, k);
      && |s'.pcs| == |s.pcs| == |s.fails| == |s'.fails|
      && (k.t != t ==> s'.pcs[t] == s.pcs[t] && s'.fails[t] == s.fails[t])
      && (k.t == t && !s.pcs[t].Idle? ==>
            if s'.fails[t] == s.fails[t] then Distance(s'.pcs[t]) < Distance(s.pcs[t])
            else s'.fails[t] == s.fails[t] + 1 && s.head.ver > s.seen[t])
  {
    assert PcOk(s, t);
  }

  // ---------------------------------------------------------------- how nxt() ends

  predicate InNxt(pc: Pc) { pc.PopLoaded? || pc.PopLinked? }

  /** The list was empty after p steps, and thread t has been inside nxt() since. */
  ghost predicate EmptySince(n: nat, threads: nat, sched: seq<Tick>, t: nat, p: nat)
    requires 0 < n < LIST_END && t < threads
  {
    && p <= |sched| && Run(n, threads, sched[..p]).list == []
    && forall q | p <= q <= |sched| :: InNxt(Run(n, threads, sched[..q]).pcs[t])
  }

  predicate LoadedEnd(s: State, t: nat)
    requires t < |s.pcs|
  {
    s.pcs[t].PopLoaded? && s.pcs[t].cur.idx == LIST_END
  }

  lemma EndLoaded(s: State, k: Tick, t: nat)
    requires Inv(s) && t < |s.pcs| == |Step(s, k).pcs| && LoadedEnd(Step(s, k), t)
    ensures Step(s, k).list == [] || (LoadedEnd(s, t) && Step(s, k).pcs[t] == s.pcs[t])
  {
    EndIsEmpty(s.lv, s.head.idx, s.list);
  }

  lemma ShorterPrefix(sched: seq<Tick>, q: nat)
    requires q < |sched|
    ensures sched[..|sched| - 1][..q] == sched[..q]
  {
  }

  lemma EmptyOn(n: nat, threads: nat, sched: seq<Tick>, t: nat, p: nat)
    requires 0 < n < LIST_END && t < threads && sched != [] && EmptySince(n, threads, sched[..|sched| - 1], t, p)
    requires InNxt(Run(n, threads, sched).pcs[t])
    ensures EmptySince(n, threads, sched, t, p)
  {
    ShorterPrefix(sched, p);
    forall q | p <= q <= |sched| ensures InNxt(Run(n, threads, sched[..q]).pcs[t]) {
      if q < |sched| { ShorterPrefix(sched, q); } else { assert sched[..q] == sched; }
    }
  }

  /** Whoever has loaded LIST_END loaded it while the list was empty. */
  lemma {:induction false} EndWasEmpty(n: nat, threads: nat, sched: seq<Tick>, t: nat) returns (p: nat)
    requires 0 < n < LIST_END && t < threads && LoadedEnd(Run(n, threads, sched), t)
    ensures EmptySince(n, threads, sched, t, p)
  {
    assert sched[..|sched|] == sched;
    if Run(n, threads, sched).list == [] {
      p := |sched|;
    } else {
      var rest, k := sched[..|sched| - 1], sched[|sched| - 1];
      EndLoaded(Run(n, threads, rest), k, t);
      p := EndWasEmpty(n, threads, rest, t);
      EmptyOn(n, threads, sched, t, p);
    }
  }

  /** In every run, a thread leaves nxt() at a step of its own, and only by taking the first listed index, or because
      the list was empty at some moment while it was inside. */
  lemma NxtEndsRightly(n: nat, threads: nat, sched: seq<Tick>, k: Tick, t: nat)
    requires 0 < n < LIST_END && t < threads
    requires InNxt(Run(n, threads, sched).pcs[t]) && !InNxt(Run(n, threads, sched + [k]).pcs[t])
    ensures k.t == t
    ensures var s, s' := Run(n, threads, sched), Run(n, threads, sched + [k]);
      || (s.list != [] && s'.list == s.list[1..] && s.place[s.list[0]] == Listed && s'.place == s.place[s.list[0] := Out])
      || exists p :: EmptySince(n, threads, sched, t, p)
  {
    var s := Run(n, threads, sched);
    assert (sched + [k])[..|sched|] == sched;
    StepAdvances(s, k, t);
    if LoadedEnd(s, t) { var p := EndWasEmpty(n, threads, sched, t); } else { LeavesWithFirst(s, t); }
  }

  lemma LeavesWithFirst(s: State, t: nat)
    requires Inv(s) && t < |s.pcs| && InNxt(s.pcs[t]) && !LoadedEnd(s, t)
    ensures |Advance(s, t).pcs| == |s.pcs|
    ensures !InNxt(Advance(s, t).pcs[t]) ==>
      var s' := Advance(s, t);
      && s.list != [] && s'.list == s.list[1..] && s.list[0] < |s.place|
      && s.place[s.list[0]] == Listed && s'.place == s.place[s.list[0] := Out]
  {
    assert PcOk(s, t);
    if s.pcs[t].PopLinked? && s.head == s.pcs[t].cur {
      PopWinInv(s, t);
      assert PlaceOk(s, s.list[0]);
    }
  }
}
