/** A schedule in which a put gives up: with two blocks and two threads, the slot it has yet to look at fills up
    while the one it has looked at becomes free. */
module StoreGivesUp {
  import opened Bytes
  import opened Handles
  import opened StoreSteps
  import opened StoreRuns
  import opened StoreAlone

  const OTHER: Job := Put([1], 0, [7])
  const MINE: Job := Put([2], 2, [8])
  const LATE: Job := Put([3], 1, [9])

  const BYTES: seq<Str> := [[0, 0], [0, 0]]

  /** Thread 1 stores a key in slot 0; thread 0 begins a put with the same home slot and passes that slot. */
  lemma FirstHalf(r: State -> bool) returns (s: State)
    requires Closed(r) && r(Init(2, BYTES, 2))
    ensures r(s) && Ready(s) && |s.bls| == 2 && |s.th| == 2 && s.bs == 2
    ensures s.slots == [VerIdx(0, 1), NO_SLOT] && s.fl.list == [] && s.ver == 3
    ensures s.th[0] == Thread(MINE, VerIdx(1, 2), LoadSlot(1)) && s.th[1].pc == Idle
    ensures s.bls[0] == Rec(1, 0, false, 2, 1, 0) && [1] <= s.dat[0]
  {
    var s0 := Init(2, BYTES, 2);
    assert s0.fl.list == [0, 1];
    var s1 := SoloPut(r, s0, 1, OTHER, 0);
    assert s1.slots == [VerIdx(0, 1), NO_SLOT] && s1.fl.list == [1];
    var s2 := Pops(r, s1, 0, MINE, 1);
    var s3 := Fills(r, s2, 0, 1);
    s := Misses(r, s3, 0, 0);
  }

  /** Thread 1 deletes its key and stores another one, whose home is slot 1: the first slot is free and the second
      is not, and thread 0, which has passed the first, gives up at the second. */
  lemma SecondHalf(r: State -> bool) returns (s: State)
    requires ClosedToDels(r) && r(Init(2, BYTES, 2))
    ensures r(s) && |s.th| == 2 && s.th[0] == Thread(MINE, VerIdx(1, 2), Done(GaveUp))
    ensures s.slots == [TOMBSTONE, VerIdx(0, 3)]
  {
    var s0 := FirstHalf(r);
    var del := Del([1], 0);
    assert Found(s0.(th := s0.th[1 := s0.th[1].(job := del, pc := LoadSlot(0))]), 1, 0, VerIdx(0, 1));
    var s1 := SoloDel(r, s0, 1, del, VerIdx(0, 1));
    assert s1.slots == [TOMBSTONE, NO_SLOT] && s1.fl.list == [0];
    var s2 := SoloPut(r, s1, 1, LATE, 0);
    assert s2.slots == [TOMBSTONE, VerIdx(0, 3)] && s2.th[0] == s0.th[0];
    s := Misses(r, s2, 0, 1);
  }

  /** A state some run reaches from two free blocks of two bytes, with two threads. */
  ghost predicate Reached(s: State) {
    WellSized(2, BYTES) && exists sched :: Leads(2, BYTES, 2, sched, s)
  }

  lemma ReachedIsClosed()
    ensures ClosedToDels(s => Reached(s)) && Reached(Init(2, BYTES, 2))
  {
    var r: State -> bool := s => Reached(s);
    assert WellSized(2, BYTES);
    assert Leads(2, BYTES, 2, [], Init(2, BYTES, 2));
    forall s | r(s) ensures Ready(s) { ReachedReady(s); }
    forall s, k | r(s) ensures Ready(s) && r(Step(s, k)) { ReachedReady(s); ReachedOn(s, k); }
  }

  lemma ReachedReady(s: State)
    requires Reached(s)
    ensures Ready(s)
  {
    var sched :| Leads(2, BYTES, 2, sched, s);
    LeadsReady(2, BYTES, 2, sched, s);
  }

  lemma ReachedOn(s: State, k: Tick)
    requires Reached(s) && Shape(s)
    ensures Reached(Step(s, k))
  {
    var sched :| Leads(2, BYTES, 2, sched, s);
    LeadsOn(2, BYTES, 2, sched, s, k);
  }

  /** There is a run in which a put gives up although a slot is free at that moment.  CncrHsh::put answers true all
      the same, and the list is in no slot. */
  lemma APutCanGiveUp()
    ensures WellSized(2, BYTES)
    ensures exists sched: seq<Tick> ::
      var s := Run(2, BYTES, 2, sched);
      |s.th| == 2 && s.th[0].job.Put? && s.th[0].pc == Done(GaveUp) && s.slots == [TOMBSTONE, VerIdx(0, 3)]
  {
    ReachedIsClosed();
    var s := SecondHalf(s => Reached(s));
    assert Reached(s);
    var sched: seq<Tick> :| s == Run(2, BYTES, 2, sched);
  }
}
