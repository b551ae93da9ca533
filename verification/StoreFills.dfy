/** When a put gives up: exactly when it has looked at every slot in vain, and then only because another put has
    filled a slot since it began to look. */
module StoreFills {
  import opened Bytes
  import opened Options
  import Circle
  import opened Chains
  import opened Handles
  import opened StoreSteps
  import opened StoreInvariant
  import opened StoreRuns
  import opened StorePins
  import opened StoreSearch
  import opened StorePaths

  // ---------------------------------------------------------------- a slot that was free

  /** The step of another put takes a slot that was free. */
  predicate Fills(s: State, k: Tick, t: nat) {
    && k.t < |s.th| && k.t != t && s.th[k.t].job.Put?
    && s.th[k.t].pc.SwapSlot? && s.th[k.t].pc.i < |s.slots| && s.slots[s.th[k.t].pc.i] == s.th[k.t].pc.vi
    && !Live(s.th[k.t].pc.vi)
  }

  /** A slot that is free, and that thread t has yet to look at. */
  predicate RoomAt(s: State, t: nat, x: nat)
    requires t < |s.th| && 0 < |s.slots|
  {
    && x < |s.slots| && !Live(s.slots[x])
    && match Where(s.th[t].pc)
       case None => true
       case Some(at) =>
         && at.i < |s.slots|
         && var home := Home(|s.slots|, s.th[t].job);
         || Circle.PosOf(|s.slots|, home, at.i) < Circle.PosOf(|s.slots|, home, x)
         || (x == at.i && at.seen == None)
  }

  /** Either there is such a slot, or another put has filled one. */
  ghost predicate RoomOk(s: State, t: nat, filled: bool)
    requires t < |s.th| && 0 < |s.slots|
  {
    Searching(s.th[t]) && !filled && !Settled(s.th[t].pc) ==>
      !GivenUp(s.th[t].pc) && exists x: nat :: RoomAt(s, t, x)
  }

  /** Without a fill, free slots stay free. */
  lemma StaysFree(s: State, k: Tick, t: nat, x: nat)
    requires Inv(s) && x < |s.slots| && Shape(Step(s, k)) && |Step(s, k).slots| == |s.slots|
    requires !Live(s.slots[x]) && Live(Step(s, k).slots[x])
    ensures Fills(s, k, t) || (k.t == t && t < |s.th| && s.th[t].pc == SwapSlot(x, s.slots[x]) && s.th[t].job.Put?)
  {
    SlotChange(s, k, x);
  }

  predicate SomeFree(s: State) { exists x: nat :: x < |s.slots| && !Live(s.slots[x]) }

  /** While some block is not the head of a list in a slot, some slot is free. */
  lemma SomeSlotIsFree(s: State, b: nat)
    requires Inv(s) && b < |s.place| && !s.place[b].Published?
    ensures SomeFree(s)
  {
    var n := |s.slots|;
    if forall x: nat | x < n :: Live(s.slots[x]) {
      var blocks := seq(n, i requires 0 <= i < n => s.slots[i].idx) + [b];
      forall i | 0 <= i < n ensures s.place[blocks[i]] == Published(i, s.slots[i].ver) && blocks[i] < n {
        assert SlotOk(s, i) && SlotShape(n, s.slots[i]);
      }
      Pigeonhole(blocks, n);
    }
  }

  lemma RoomAtMove(s: State, s': State, t: nat, x: nat)
    requires t < |s.th| == |s'.th| && 0 < |s.bls| == |s.slots| && Moves(s, s', t) && !Takes(s, s', t)
    requires RoomAt(s, t, x) && Searching(s.th[t]) && !GivenUp(s.th[t].pc)
    ensures Settled(s'.th[t].pc) || (!GivenUp(s'.th[t].pc) && |s'.slots| == |s.slots| && RoomAt(s', t, x))
  {
    var n, home := |s.slots|, Home(|s.slots|, s.th[t].job);
    if Passes(s, s', t) {
      var i := Where(s.th[t].pc).value.i;
      Circle.NextPos(n, home, i);
      assert Circle.Pos(n, home, Circle.PosOf(n, home, x)) == x;
      if i != EndIdx(n, s.th[t].job) {
        assert Circle.Pos(n, home, Circle.PosOf(n, home, Circle.Next(n, i))) == Circle.Next(n, i);
      }
    }
  }

  lemma RoomStep(s: State, k: Tick, t: nat, filled: bool)
    requires SearchInv(s) && t < |s.th| == |Step(s, k).th| && Inv(Step(s, k)) && |Step(s, k).slots| == |s.slots|
    requires RoomOk(s, t, filled)
    ensures RoomOk(Step(s, k), t, Searching(s.th[t]) && (filled || Fills(s, k, t)))
  {
    var s' := Step(s, k);
    if Searching(s'.th[t]) && !Settled(s'.th[t].pc) {
      if !Searching(s.th[t]) {
        SearchBegins(s, k, t);
        assert PcOk(s, t);
        SomeSlotIsFree(s, s.th[t].pc.b);
        var x: nat :| x < |s.slots| && !Live(s.slots[x]);
        RoomAtBegin(s', t, x);
      } else if !filled && !Fills(s, k, t) {
        RoomGoesOn(s, k, t);
      }
    }
  }

  lemma RoomAtBegin(s: State, t: nat, x: nat)
    requires t < |s.th| && 0 < |s.bls| == |s.slots| && x < |s.slots| && !Live(s.slots[x])
    requires Where(s.th[t].pc) == Some(Spot(Home(|s.slots|, s.th[t].job), None)) && !GivenUp(s.th[t].pc)
    ensures RoomOk(s, t, false)
  {
    assert RoomAt(s, t, x);
  }

  lemma RoomGoesOn(s: State, k: Tick, t: nat)
    requires SearchInv(s) && t < |s.th| == |Step(s, k).th| && Inv(Step(s, k)) && |Step(s, k).slots| == |s.slots|
    requires RoomOk(s, t, false) && Searching(s.th[t]) && Searching(Step(s, k).th[t]) && !Fills(s, k, t)
    requires !Settled(Step(s, k).th[t].pc)
    ensures RoomOk(Step(s, k), t, false)
  {
    var s' := Step(s, k);
    if k.t != t {
      OthersStay(s, k, t);
      var x: nat :| RoomAt(s, t, x);
      if Live(s'.slots[x]) { StaysFree(s, k, t, x); }
      assert RoomAt(s', t, x);
    } else if s.th[t].pc.Done? {
      ReturnsToIdle(s, k);
    } else {
      SearchMoves(s, k);
      if !Settled(s.th[t].pc) {
        var x: nat :| RoomAt(s, t, x);
        RoomAtMove(s, s', t, x);
      }
    }
  }

  // ---------------------------------------------------------------- over whole runs: a fill

  /** Another put has filled a slot since the search thread t is in began. */
  ghost predicate FilledSince(bs: nat, dat: seq<Str>, threads: nat, sched: seq<Tick>, t: nat)
    requires WellSized(bs, dat)
  {
    sched != [] &&
    var rest, k := sched[..|sched| - 1], sched[|sched| - 1];
    var before := Run(bs, dat, threads, rest);
    && t < |before.th| && Searching(before.th[t])
    && (FilledSince(bs, dat, threads, rest, t) || Fills(before, k, t))
  }

  lemma {:induction false} RunRoom(bs: nat, dat: seq<Str>, threads: nat, sched: seq<Tick>, t: nat)
    requires WellSized(bs, dat) && t < |Run(bs, dat, threads, sched).th|
    ensures RoomOk(Run(bs, dat, threads, sched), t, FilledSince(bs, dat, threads, sched, t))
  {
    if sched != [] {
      var rest, k := sched[..|sched| - 1], sched[|sched| - 1];
      var before := Run(bs, dat, threads, rest);
      SameSizes(before, k);
      RunRoom(bs, dat, threads, rest, t);
      RunSearches(bs, dat, threads, rest);
      RoomStep(before, k, t, FilledSince(bs, dat, threads, rest, t));
    }
  }

  ghost predicate SearchingAt(bs: nat, dat: seq<Str>, threads: nat, sched: seq<Tick>, t: nat)
    requires WellSized(bs, dat)
  {
    var s := Run(bs, dat, threads, sched);
    t < |s.th| && Searching(s.th[t])
  }

  /** Step p of the run is another put's, and fills a slot, and thread t has been searching since. */
  ghost predicate FillAt(bs: nat, dat: seq<Str>, threads: nat, sched: seq<Tick>, t: nat, p: nat)
    requires WellSized(bs, dat)
  {
    && p < |sched| && Fills(Run(bs, dat, threads, sched[..p]), sched[p], t)
    && forall q | p <= q < |sched| :: SearchingAt(bs, dat, threads, sched[..q], t)
  }

  lemma {:induction false} FillWhen(bs: nat, dat: seq<Str>, threads: nat, sched: seq<Tick>, t: nat) returns (p: nat)
    requires WellSized(bs, dat) && FilledSince(bs, dat, threads, sched, t)
    ensures FillAt(bs, dat, threads, sched, t, p)
  {
    var rest := sched[..|sched| - 1];
    if FilledSince(bs, dat, threads, rest, t) {
      p := FillWhen(bs, dat, threads, rest, t);
      FillLater(bs, dat, threads, sched, t, p);
    } else {
      p := |sched| - 1;
      FillNow(bs, dat, threads, sched, t);
    }
  }

  lemma FillNow(bs: nat, dat: seq<Str>, threads: nat, sched: seq<Tick>, t: nat)
    requires WellSized(bs, dat) && sched != [] && SearchingAt(bs, dat, threads, sched[..|sched| - 1], t)
    requires Fills(Run(bs, dat, threads, sched[..|sched| - 1]), sched[|sched| - 1], t)
    ensures FillAt(bs, dat, threads, sched, t, |sched| - 1)
  {
  }

  lemma SearchLater(bs: nat, dat: seq<Str>, threads: nat, sched: seq<Tick>, t: nat, q: nat)
    requires WellSized(bs, dat) && q < |sched| && SearchingAt(bs, dat, threads, sched[..|sched| - 1], t)
    requires q < |sched| - 1 ==> SearchingAt(bs, dat, threads, sched[..|sched| - 1][..q], t)
    ensures SearchingAt(bs, dat, threads, sched[..q], t)
  {
    var rest := sched[..|sched| - 1];
    if q < |rest| { assert sched[..q] == rest[..q]; } else { assert sched[..q] == rest; }
  }

  lemma FillLater(bs: nat, dat: seq<Str>, threads: nat, sched: seq<Tick>, t: nat, p: nat)
    requires WellSized(bs, dat) && sched != [] && FillAt(bs, dat, threads, sched[..|sched| - 1], t, p)
    requires SearchingAt(bs, dat, threads, sched[..|sched| - 1], t)
    ensures FillAt(bs, dat, threads, sched, t, p)
  {
    var rest := sched[..|sched| - 1];
    assert sched[..p] == rest[..p];
    forall q | p <= q < |sched| ensures SearchingAt(bs, dat, threads, sched[..q], t) {
      SearchLater(bs, dat, threads, sched, t, q);
    }
  }

  /** In every run, a put gives up only after another put has filled a slot since it began to look. */
  lemma GivingUpNeedsAFill(bs: nat, dat: seq<Str>, threads: nat, sched: seq<Tick>, t: nat)
    requires WellSized(bs, dat)
    requires var s := Run(bs, dat, threads, sched); t < |s.th| && GivenUp(s.th[t].pc)
    ensures exists p :: FillAt(bs, dat, threads, sched, t, p)
  {
    FilledWhenGivenUp(bs, dat, threads, sched, t);
    var p := FillWhen(bs, dat, threads, sched, t);
  }

  /** All the same, a slot is free then, because the block of the list that was lost is in none. */
  lemma GivenUpBesideAFreeSlot(bs: nat, dat: seq<Str>, threads: nat, sched: seq<Tick>, t: nat)
    requires WellSized(bs, dat)
    requires var s := Run(bs, dat, threads, sched); t < |s.th| && GivenUp(s.th[t].pc)
    ensures SomeFree(Run(bs, dat, threads, sched))
  {
    GivenUpIsLost(bs, dat, threads, sched, t);
    LostLeavesRoom(Run(bs, dat, threads, sched), t);
  }

  lemma LostLeavesRoom(s: State, t: nat)
    requires Inv(s) && t < |s.th| && Stray(s, s.th[t].mine.idx, s.th[t].mine.ver)
    ensures SomeFree(s)
  {
    SomeSlotIsFree(s, s.th[t].mine.idx);
  }

  lemma FilledWhenGivenUp(bs: nat, dat: seq<Str>, threads: nat, sched: seq<Tick>, t: nat)
    requires WellSized(bs, dat)
    requires var s := Run(bs, dat, threads, sched); t < |s.th| && GivenUp(s.th[t].pc)
    ensures FilledSince(bs, dat, threads, sched, t)
  {
    GivenUpIsLost(bs, dat, threads, sched, t);
    RunRoom(bs, dat, threads, sched, t);
  }

  /** No two threads are inside put. */
  predicate OnePut(s: State) {
    forall t, u | 0 <= t < u < |s.th| :: !(InPut(s.th[t]) && InPut(s.th[u]))
  }

  predicate InPut(th: Thread) { th.job.Put? && !th.pc.Idle? }

  lemma FillsOverlap(bs: nat, dat: seq<Str>, threads: nat, sched: seq<Tick>, t: nat, p: nat)
    requires WellSized(bs, dat) && FillAt(bs, dat, threads, sched, t, p)
    ensures !OnePut(Run(bs, dat, threads, sched[..p]))
  {
    var s, u := Run(bs, dat, threads, sched[..p]), sched[p].t;
    assert SearchingAt(bs, dat, threads, sched[..p], t);
    assert InPut(s.th[t]) && InPut(s.th[u]);
  }

  /** So in every run in which puts do not overlap, beside any number of gets and dels, no put gives up. */
  lemma OnePutNeverGivesUp(bs: nat, dat: seq<Str>, threads: nat, sched: seq<Tick>, t: nat)
    requires WellSized(bs, dat) && t < |Run(bs, dat, threads, sched).th|
    requires forall p | 0 <= p <= |sched| :: OnePut(Run(bs, dat, threads, sched[..p]))
    ensures !GivenUp(Run(bs, dat, threads, sched).th[t].pc)
  {
    forall p: nat | FillAt(bs, dat, threads, sched, t, p) ensures false {
      FillsOverlap(bs, dat, threads, sched, t, p);
    }
    if GivenUp(Run(bs, dat, threads, sched).th[t].pc) { GivingUpNeedsAFill(bs, dat, threads, sched, t); }
  }
}
