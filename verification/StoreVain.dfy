/** A put gives up exactly when it has looked at every slot in vain: each held a live list when it was loaded, and
    that list did not, or no longer, store the key when it was passed. */
module StoreVain {
  import opened Bytes
  import opened Options
  import Circle
  import opened Handles
  import opened StoreSteps
  import opened StoreInvariant
  import opened StoreRuns
  import opened StoreSearch
  import opened StorePaths
  import opened StoreFills

  /** The slot a step of thread t passes, if it passes one. */
  function Passed(s: State, s': State, k: Tick, t: nat): set<nat> {
    if t < |s.th| == |s'.th| && 0 < |s.bls| && k.t == t && Searching(s.th[t]) && !s.th[t].pc.Done? && Passes(s, s', t)
    then {Where(s.th[t].pc).value.i}
    else {}
  }

  /** The slots passed are those in front of the one thread t stands at; all of them once it has given up, and not
      all of them once it has taken one. */
  ghost predicate DoneOk(s: State, t: nat, done: set<nat>)
    requires t < |s.th| && 0 < |s.slots|
  {
    var n, home := |s.slots|, Home(|s.slots|, s.th[t].job);
    Searching(s.th[t]) ==>
      match Where(s.th[t].pc)
      case Some(at) =>
        && at.i < n
        && forall x | 0 <= x < n :: x in done <==> Circle.PosOf(n, home, x) < Circle.PosOf(n, home, at.i)
      case None => GivenUp(s.th[t].pc) <==> forall x | 0 <= x < n :: x in done
  }

  lemma DoneAtMove(s: State, s': State, k: Tick, t: nat, done: set<nat>)
    requires t < |s.th| == |s'.th| && 0 < |s.bls| == |s.slots| == |s'.slots| && k.t == t && Moves(s, s', t)
    requires Searching(s.th[t]) && !s.th[t].pc.Done? && DoneOk(s, t, done)
    requires forall x | x in done :: x < |s.slots|
    ensures DoneOk(s', t, done + Passed(s, s', k, t))
  {
    var n, home, at := |s.slots|, Home(|s.slots|, s.th[t].job), Where(s.th[t].pc);
    if Passes(s, s', t) {
      PassesMore(n, home, at.value.i, done);
    } else if Takes(s, s', t) {
      assert at.value.i !in done;
    }
  }

  lemma PassesMore(n: nat, home: nat, i: nat, done: set<nat>)
    requires home < n && i < n
    requires forall x | 0 <= x < n :: x in done <==> Circle.PosOf(n, home, x) < Circle.PosOf(n, home, i)
    ensures i == Circle.Prev(n, home) ==> forall x | 0 <= x < n :: x in done + {i}
    ensures i != Circle.Prev(n, home) ==> var j := Circle.Next(n, i);
      j < n && forall x | 0 <= x < n :: x in done + {i} <==> Circle.PosOf(n, home, x) < Circle.PosOf(n, home, j)
  {
    Circle.NextPos(n, home, i);
    forall x | 0 <= x < n && Circle.PosOf(n, home, x) == Circle.PosOf(n, home, i) ensures x == i {
      assert Circle.Pos(n, home, Circle.PosOf(n, home, x)) == x;
      assert Circle.Pos(n, home, Circle.PosOf(n, home, i)) == i;
    }
  }

  lemma DoneStep(s: State, k: Tick, t: nat, done: set<nat>)
    requires Inv(s) && t < |s.th| == |Step(s, k).th| && Inv(Step(s, k)) && |Step(s, k).slots| == |s.slots|
    requires DoneOk(s, t, done) && forall x | x in done :: x < |s.slots|
    ensures DoneOk(Step(s, k), t, if Searching(s.th[t]) then done + Passed(s, Step(s, k), k, t) else {})
  {
    var s' := Step(s, k);
    if !Searching(s.th[t]) {
      if Searching(s'.th[t]) { SearchBegins(s, k, t); DoneAtBegin(s', t); }
    } else if k.t != t {
      OthersStay(s, k, t);
    } else if s.th[t].pc.Done? {
      ReturnsToIdle(s, k);
    } else {
      SearchMoves(s, k);
      DoneAtMove(s, s', k, t, done);
    }
  }

  lemma DoneAtBegin(s: State, t: nat)
    requires t < |s.th| && 0 < |s.bls| == |s.slots|
    requires Where(s.th[t].pc) == Some(Spot(Home(|s.slots|, s.th[t].job), None))
    ensures DoneOk(s, t, {})
  {
  }

  /** The slots that the search thread t is in has passed. */
  ghost function Examined(bs: nat, dat: seq<Str>, threads: nat, sched: seq<Tick>, t: nat): set<nat>
    requires WellSized(bs, dat)
  {
    if sched == [] then {}
    else
      var rest, k := sched[..|sched| - 1], sched[|sched| - 1];
      if SearchingAt(bs, dat, threads, rest, t) then
        Examined(bs, dat, threads, rest, t) + Passed(Run(bs, dat, threads, rest), Run(bs, dat, threads, sched), k, t)
      else {}
  }

  lemma {:induction false} RunSizes(bs: nat, dat: seq<Str>, threads: nat, sched: seq<Tick>)
    requires WellSized(bs, dat)
    ensures var s := Run(bs, dat, threads, sched); |s.slots| == |s.bls| == |dat| && |s.th| == threads
  {
    if sched == [] {
      InitSizes(bs, dat, threads);
    } else {
      var rest, k := sched[..|sched| - 1], sched[|sched| - 1];
      var s, s' := Run(bs, dat, threads, rest), Run(bs, dat, threads, sched);
      RunSizes(bs, dat, threads, rest);
      assert s' == Step(s, k);
      SameSizes(s, k);
    }
  }

  lemma InitSizes(bs: nat, dat: seq<Str>, threads: nat)
    requires 0 < |dat|
    ensures var s := Init(bs, dat, threads); |s.slots| == |s.bls| == |dat| && |s.th| == threads
  {
  }

  lemma {:induction false} ExaminedAreSlots(bs: nat, dat: seq<Str>, threads: nat, sched: seq<Tick>, t: nat, x: nat)
    requires WellSized(bs, dat) && x in Examined(bs, dat, threads, sched, t)
    ensures x < |dat|
  {
    var rest, k := sched[..|sched| - 1], sched[|sched| - 1];
    if x in Examined(bs, dat, threads, rest, t) {
      ExaminedAreSlots(bs, dat, threads, rest, t, x);
    } else {
      RunSizes(bs, dat, threads, rest);
      PassedIsSlot(Run(bs, dat, threads, rest), Run(bs, dat, threads, sched), k, t);
    }
  }

  lemma PassedIsSlot(s: State, s': State, k: Tick, t: nat)
    requires Shape(s)
    ensures forall x | x in Passed(s, s', k, t) :: x < |s.slots|
  {
    if t < |s.th| { assert ThreadShape(s.bs, |s.bls|, s.th[t]); }
  }

  lemma {:induction false} RunDone(bs: nat, dat: seq<Str>, threads: nat, sched: seq<Tick>, t: nat)
    requires WellSized(bs, dat) && t < threads
    ensures t < |Run(bs, dat, threads, sched).th| && 0 < |Run(bs, dat, threads, sched).slots|
    ensures DoneOk(Run(bs, dat, threads, sched), t, Examined(bs, dat, threads, sched, t))
  {
    RunSizes(bs, dat, threads, sched);
    if sched != [] {
      var rest, k := sched[..|sched| - 1], sched[|sched| - 1];
      RunSizes(bs, dat, threads, rest);
      RunDone(bs, dat, threads, rest, t);
      forall x | x in Examined(bs, dat, threads, rest, t) ensures x < |dat| {
        ExaminedAreSlots(bs, dat, threads, rest, t, x);
      }
      DoneStep(Run(bs, dat, threads, rest), k, t, Examined(bs, dat, threads, rest, t));
    }
  }

  predicate AllBelow(n: nat, done: set<nat>) { forall i | 0 <= i < n :: i in done }

  /** In every run, a put has given up if and only if it has passed every slot. */
  lemma GivesUpIffAllExamined(bs: nat, dat: seq<Str>, threads: nat, sched: seq<Tick>, t: nat)
    requires WellSized(bs, dat) && SearchingAt(bs, dat, threads, sched, t)
    ensures GivenUp(Run(bs, dat, threads, sched).th[t].pc) <==>
      AllBelow(|dat|, Examined(bs, dat, threads, sched, t))
  {
    RunSizes(bs, dat, threads, sched);
    RunDone(bs, dat, threads, sched, t);
    Verdict(Run(bs, dat, threads, sched), t, Examined(bs, dat, threads, sched, t));
  }

  lemma Verdict(s: State, t: nat, done: set<nat>)
    requires t < |s.th| && 0 < |s.slots| && Searching(s.th[t]) && DoneOk(s, t, done)
    ensures GivenUp(s.th[t].pc) <==> AllBelow(|s.slots|, done)
  {
    if Where(s.th[t].pc).Some? { assert Where(s.th[t].pc).value.i !in done; }
  }

  // ---------------------------------------------------------------- what was found there

  /** Slot i holds vi now, or held it earlier in the search thread t is in. */
  ghost predicate StoodIn(bs: nat, dat: seq<Str>, threads: nat, sched: seq<Tick>, t: nat, i: nat, vi: VerIdx)
    requires WellSized(bs, dat)
  {
    var s := Run(bs, dat, threads, sched);
    || (i < |s.slots| && s.slots[i] == vi)
    || (sched != [] && var rest := sched[..|sched| - 1];
        SearchingAt(bs, dat, threads, rest, t) && StoodIn(bs, dat, threads, rest, t, i, vi))
  }

  /** A handle a search holds at slot i is one it found there. */
  lemma {:induction false} SeenStood(bs: nat, dat: seq<Str>, threads: nat, sched: seq<Tick>, t: nat)
    requires WellSized(bs, dat) && SearchingAt(bs, dat, threads, sched, t)
    ensures var at := Where(Run(bs, dat, threads, sched).th[t].pc);
      at.Some? && at.value.seen.Some? ==> StoodIn(bs, dat, threads, sched, t, at.value.i, at.value.seen.value)
  {
    if sched != [] {
      var rest, k := sched[..|sched| - 1], sched[|sched| - 1];
      RunSizes(bs, dat, threads, rest);
      RunSizes(bs, dat, threads, sched);
      var at := Where(Run(bs, dat, threads, sched).th[t].pc);
      if at.Some? && at.value.seen.Some? {
        SeenFrom(Run(bs, dat, threads, rest), k, t);
        SeenStood(bs, dat, threads, rest, t);
        StoodOn(bs, dat, threads, sched, t, at.value.i, at.value.seen.value);
      }
    }
  }

  lemma StoodOn(bs: nat, dat: seq<Str>, threads: nat, sched: seq<Tick>, t: nat, i: nat, vi: VerIdx)
    requires WellSized(bs, dat) && sched != [] && SearchingAt(bs, dat, threads, sched[..|sched| - 1], t)
    requires var s := Run(bs, dat, threads, sched[..|sched| - 1]);
      (i < |s.slots| && s.slots[i] == vi) || StoodIn(bs, dat, threads, sched[..|sched| - 1], t, i, vi)
    ensures StoodIn(bs, dat, threads, sched, t, i, vi)
  {
  }

  lemma SeenFrom(s: State, k: Tick, t: nat)
    requires Inv(s) && t < |s.th| == |Step(s, k).th| && Inv(Step(s, k)) && Searching(Step(s, k).th[t])
    requires var at := Where(Step(s, k).th[t].pc); at.Some? && at.value.seen.Some?
    ensures Searching(s.th[t])
    ensures var at := Where(Step(s, k).th[t].pc).value;
      Where(s.th[t].pc) == Some(at) || (at.i < |s.slots| && at.seen == Some(s.slots[at.i]))
  {
    if k.t != t {
      OthersStay(s, k, t);
    } else if !Searching(s.th[t]) {
      SearchBegins(s, k, t);
    } else if s.th[t].pc.Done? {
      ReturnsToIdle(s, k);
    } else {
      SearchMoves(s, k);
    }
  }

  /** After p steps, thread t passes slot i, where it had found vi alive earlier in the same search, because vi does
      not, or no longer, store its key. */
  ghost predicate VainAt(
    bs: nat, dat: seq<Str>, threads: nat, sched: seq<Tick>, t: nat, i: nat, p: nat, vi: VerIdx)
    requires WellSized(bs, dat)
  {
    && p < |sched| && SearchingAt(bs, dat, threads, sched[..p], t)
    && Live(vi) && StoodIn(bs, dat, threads, sched[..p], t, i, vi)
    && !Stores(Run(bs, dat, threads, sched[..p]), vi, Run(bs, dat, threads, sched[..p]).th[t].job)
  }

  lemma {:induction false} ExaminedInVain(bs: nat, dat: seq<Str>, threads: nat, sched: seq<Tick>, t: nat, i: nat)
    requires WellSized(bs, dat) && i in Examined(bs, dat, threads, sched, t)
    ensures exists p: nat, vi :: VainAt(bs, dat, threads, sched, t, i, p, vi)
  {
    var rest, k := sched[..|sched| - 1], sched[|sched| - 1];
    if i in Examined(bs, dat, threads, rest, t) {
      ExaminedInVain(bs, dat, threads, rest, t, i);
      var p: nat, vi :| VainAt(bs, dat, threads, rest, t, i, p, vi);
      VainLater(bs, dat, threads, sched, t, i, p, vi);
    } else {
      PassedInVain(bs, dat, threads, sched, t, i);
    }
  }

  lemma VainLater(bs: nat, dat: seq<Str>, threads: nat, sched: seq<Tick>, t: nat, i: nat, p: nat, vi: VerIdx)
    requires WellSized(bs, dat) && sched != [] && VainAt(bs, dat, threads, sched[..|sched| - 1], t, i, p, vi)
    ensures VainAt(bs, dat, threads, sched, t, i, p, vi)
  {
    assert sched[..p] == sched[..|sched| - 1][..p];
  }

  lemma PassedInVain(bs: nat, dat: seq<Str>, threads: nat, sched: seq<Tick>, t: nat, i: nat)
    requires WellSized(bs, dat) && sched != [] && SearchingAt(bs, dat, threads, sched[..|sched| - 1], t)
    requires i in Passed(Run(bs, dat, threads, sched[..|sched| - 1]), Run(bs, dat, threads, sched), sched[|sched| - 1], t)
    ensures exists p: nat, vi :: VainAt(bs, dat, threads, sched, t, i, p, vi)
  {
    var rest, k := sched[..|sched| - 1], sched[|sched| - 1];
    var s, s' := Run(bs, dat, threads, rest), Run(bs, dat, threads, sched);
    assert s' == Step(s, k);
    RunSearches(bs, dat, threads, rest);
    SeenStood(bs, dat, threads, rest, t);
    MismatchAt(s, k);
    VainNow(bs, dat, threads, sched, t, i, Where(s.th[t].pc).value.seen.value);
  }

  lemma VainNow(bs: nat, dat: seq<Str>, threads: nat, sched: seq<Tick>, t: nat, i: nat, vi: VerIdx)
    requires WellSized(bs, dat) && sched != []
    requires var rest := sched[..|sched| - 1];
      && SearchingAt(bs, dat, threads, rest, t) && Live(vi) && StoodIn(bs, dat, threads, rest, t, i, vi)
      && !Stores(Run(bs, dat, threads, rest), vi, Run(bs, dat, threads, rest).th[t].job)
    ensures VainAt(bs, dat, threads, sched, t, i, |sched| - 1, vi)
  {
  }

  lemma MismatchAt(s: State, k: Tick)
    requires SearchInv(s) && k.t < |s.th| && Inv(Step(s, k)) && |Step(s, k).th| == |s.th| && Passes(s, Step(s, k), k.t)
    requires Searching(s.th[k.t]) && !s.th[k.t].pc.Done?
    ensures Live(Where(s.th[k.t].pc).value.seen.value)
    ensures !Stores(s, Where(s.th[k.t].pc).value.seen.value, s.th[k.t].job)
  {
    assert Compared(s, k.t);
    PassesOnMismatch(s, k);
  }
}
