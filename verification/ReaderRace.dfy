/** incReaders and decReadersOrDel with the version test and the swap of the count apart, as they are in the code:
    what the one atomic step of StoreSteps leaves out, and exactly when it matters. */
module ReaderRace {

  /** A block record: its version, and the word that holds count and flag. */
  datatype Rec = Rec(version: nat, kr: Word)
  datatype Word = Word(readers: int, deleted: bool)

  /** A thread that takes, and later drops, a reader of the list of version v. */
  datatype Pc = Load | Test(cur: Word) | Swap(cur: Word) | Holding | DropTest(cur: Word) | DropSwap(cur: Word) | Refused | Out

  /** The record, the thread, and how many readers of the record's list other threads hold. */
  datatype State = State(rec: Rec, pc: Pc, others: nat)

  /** What happens: a step of the thread; other readers come and go; the list is marked deleted; and once it is and
      nobody reads it, its block is freed and serves a list of a version never used before. */
  datatype Event = Reader | OtherIn | OtherOut | Delete | Reuse(version: nat)

  predicate Enabled(s: State, e: Event) {
    match e
    case Reader => true
    case OtherIn => !s.rec.kr.deleted && s.rec.kr.readers >= 0
    case OtherOut => s.others > 0
    case Delete => true
    case Reuse(w) => s.rec.kr.deleted && s.rec.kr.readers == 0 && w > s.rec.version
  }

  function ReaderStep(s: State, v: nat): State {
    match s.pc
    case Load => s.(pc := Test(s.rec.kr))
    case Test(cur) => s.(pc := if Passes(s, v) then Swap(cur) else Refused)
    case Swap(cur) =>
      if s.rec.kr == cur then s.(rec := s.rec.(kr := cur.(readers := cur.readers + 1)), pc := Holding)
      else s.(pc := Test(s.rec.kr))
    case Holding => s.(pc := DropTest(s.rec.kr))
    case DropTest(cur) => s.(pc := if s.rec.version != v then Out else DropSwap(cur))
    case DropSwap(cur) =>
      if s.rec.kr == cur then s.(rec := s.rec.(kr := cur.(readers := cur.readers - 1)), pc := Out)
      else s.(pc := DropTest(s.rec.kr))
    case _ => s
  }

  /** The test of incReaders: the version of the record now, count and flag as they were loaded. */
  predicate Passes(s: State, v: nat) {
    s.pc.Test? && s.rec.version == v && s.pc.cur.readers >= 0 && !s.pc.cur.deleted
  }

  function Next(s: State, v: nat, e: Event): State
    requires Enabled(s, e)
  {
    match e
    case Reader => ReaderStep(s, v)
    case OtherIn => s.(rec := s.rec.(kr := s.rec.kr.(readers := s.rec.kr.readers + 1)), others := s.others + 1)
    case OtherOut => s.(rec := s.rec.(kr := s.rec.kr.(readers := s.rec.kr.readers - 1)), others := s.others - 1)
    case Delete => s.(rec := s.rec.(kr := s.rec.kr.(deleted := true)))
    case Reuse(w) => s.(rec := Rec(w, Word(0, false)), others := 0)
  }

  /** A run from a record that some list has, with as many readers as its count says. */
  predicate Run(states: seq<State>, v: nat, es: seq<Event>) {
    && |states| == |es| + 1 && states[0].pc == Load && states[0].rec.kr.readers == states[0].others
    && forall i | 0 <= i < |es| :: Enabled(states[i], es[i]) && states[i + 1] == Next(states[i], v, es[i])
  }

  // ---------------------------------------------------------------- where the swap lands

  /** The last step at which the thread passed the test, before step i. */
  function LastTest(states: seq<State>, v: nat, es: seq<Event>, i: nat): (k: int)
    requires i <= |es| < |states|
    ensures -1 <= k < i && (k >= 0 ==> es[k] == Reader && Passes(states[k], v))
  {
    if i == 0 then -1
    else if es[i - 1] == Reader && Passes(states[i - 1], v) then i - 1
    else LastTest(states, v, es, i - 1)
  }

  predicate ReusedSince(es: seq<Event>, k: int, i: nat)
    requires -1 <= k && i <= |es|
  {
    exists j :: k < j < i && es[j].Reuse?
  }

  /** Between test and swap the version is the one asked for until the block is reused, and then a later one. */
  lemma {:induction false} VersionAtSwap(states: seq<State>, v: nat, es: seq<Event>, i: nat)
    requires Run(states, v, es) && i <= |es| && states[i].pc.Swap?
    ensures var k := LastTest(states, v, es, i);
      && 0 <= k && states[i].rec.version >= v
      && (states[i].rec.version != v <==> ReusedSince(es, k, i))
  {
    if i > 0 {
      var before, k := states[i - 1], LastTest(states, v, es, i);
      assert states[i] == Next(before, v, es[i - 1]);
      if before.pc.Swap? {
        VersionAtSwap(states, v, es, i - 1);
        if es[i - 1].Reuse? { assert k < i - 1 < i && es[i - 1].Reuse?; }
      }
    }
  }

  /** The step at which the thread takes its reader. */
  predicate Wins(states: seq<State>, es: seq<Event>, i: nat)
    requires i < |es| < |states|
  {
    es[i] == Reader && states[i].pc.Swap? && states[i].rec.kr == states[i].pc.cur
  }

  /** In every run, the reader lands on another list than the one asked for if and only if the block was reused
      since the last test that passed. */
  lemma LandsElsewhereIffReused(states: seq<State>, v: nat, es: seq<Event>, i: nat)
    requires Run(states, v, es) && i < |es| && Wins(states, es, i)
    ensures states[i + 1].pc == Holding
    ensures states[i + 1].rec.version != v <==> ReusedSince(es, LastTest(states, v, es, i), i)
  {
    VersionAtSwap(states, v, es, i);
    assert states[i + 1] == Next(states[i], v, es[i]);
  }

  // ---------------------------------------------------------------- what becomes of the count

  /** The reader that the thread has on the list it asked for. */
  function Held(s: State, v: nat): nat {
    if s.rec.version == v && (s.pc.Holding? || s.pc.DropTest? || s.pc.DropSwap?) then 1 else 0
  }

  /** The thread took its reader on another list, by step i. */
  ghost predicate Strayed(states: seq<State>, v: nat, es: seq<Event>, i: nat)
    requires i <= |es| < |states|
  {
    exists j :: 0 <= j < i && Wins(states, es, j) && states[j].rec.version != v
  }

  predicate Taken(pc: Pc) { pc.Holding? || pc.DropTest? || pc.DropSwap? || pc.Out? }

  lemma {:induction false} Exact(states: seq<State>, v: nat, es: seq<Event>, i: nat)
    requires Run(states, v, es) && i <= |es|
    ensures var s := states[i];
      && s.rec.kr.readers == s.others + Held(s, v) + (if Strayed(states, v, es, i) then 1 else 0)
      && (Strayed(states, v, es, i) ==> Taken(s.pc) && !s.pc.DropSwap? && s.rec.version != v)
      && (s.pc.DropSwap? || s.pc.Holding? || s.pc.DropTest? ==> s.rec.version == v || Strayed(states, v, es, i))
  {
    if i == 0 {
      assert !Strayed(states, v, es, 0);
    } else {
      Exact(states, v, es, i - 1);
      var before, after := states[i - 1], states[i];
      assert after == Next(before, v, es[i - 1]);
      StrayedOn(states, v, es, i);
      if before.pc.Swap? { VersionAtSwap(states, v, es, i - 1); }
    }
  }

  lemma StrayedOn(states: seq<State>, v: nat, es: seq<Event>, i: nat)
    requires 0 < i <= |es| < |states|
    ensures Strayed(states, v, es, i) <==>
      Strayed(states, v, es, i - 1) || (Wins(states, es, i - 1) && states[i - 1].rec.version != v)
  {
  }

  /** In every run the count is the readers of the other threads and this one's on the list it asked for, exactly;
      and one more, for good, if and only if this thread took its reader on another list. */
  lemma CountIsExactUnlessStrayed(states: seq<State>, v: nat, es: seq<Event>, i: nat)
    requires Run(states, v, es) && i <= |es|
    ensures states[i].rec.kr.readers == states[i].others + Held(states[i], v) <==> !Strayed(states, v, es, i)
  {
    Exact(states, v, es, i);
  }

  /** That reader is never dropped: the list keeps its version, so its block is never freed, and counts one reader
      that nobody holds, in every continuation. */
  lemma {:induction false} StrayReaderStays(states: seq<State>, v: nat, es: seq<Event>, i: nat, j: nat)
    requires Run(states, v, es) && i <= j <= |es| && Strayed(states, v, es, i)
    ensures states[j].rec.version == states[i].rec.version && states[j].rec.version != v
    ensures states[j].rec.kr.readers == states[j].others + 1
  {
    Exact(states, v, es, i);
    Exact(states, v, es, j);
    var w :| 0 <= w < i && Wins(states, es, w) && states[w].rec.version != v;
    assert Strayed(states, v, es, j);
    if i < j {
      StrayReaderStays(states, v, es, i, j - 1);
      assert states[j] == Next(states[j - 1], v, es[j - 1]);
    }
  }

  // ---------------------------------------------------------------- refusals and drops

  /** A word in hand was the word of the record at some step before. */
  predicate WasWord(states: seq<State>, i: nat, w: Word)
    requires i < |states|
  {
    exists j :: 0 <= j <= i && states[j].rec.kr == w
  }

  lemma {:induction false} InHand(states: seq<State>, v: nat, es: seq<Event>, i: nat)
    requires Run(states, v, es) && i <= |es|
    ensures states[i].pc.Test? || states[i].pc.Swap? ==> WasWord(states, i, states[i].pc.cur)
    ensures states[i].pc.Swap? ==> states[i].pc.cur.readers >= 0 && !states[i].pc.cur.deleted
  {
    if i > 0 {
      InHand(states, v, es, i - 1);
      assert states[i] == Next(states[i - 1], v, es[i - 1]);
    }
  }

  /** A reader is never taken on a record that is marked deleted when it is taken. */
  lemma NoReaderOnDeleted(states: seq<State>, v: nat, es: seq<Event>, i: nat)
    requires Run(states, v, es) && i < |es| && Wins(states, es, i)
    ensures !states[i].rec.kr.deleted && states[i + 1].rec.kr.readers == states[i].rec.kr.readers + 1
  {
    InHand(states, v, es, i);
    assert states[i + 1] == Next(states[i], v, es[i]);
  }

  /** A thread is refused only if the record was of another version, or marked deleted, at some step before. */
  lemma {:induction false} RefusedForAReason(states: seq<State>, v: nat, es: seq<Event>, i: nat)
    requires Run(states, v, es) && i <= |es| && states[i].pc == Refused
    ensures exists j :: 0 <= j < i && (states[j].rec.version != v || states[j].rec.kr.deleted)
  {
    assert i > 0;
    assert states[i] == Next(states[i - 1], v, es[i - 1]);
    if states[i - 1].pc == Refused {
      RefusedForAReason(states, v, es, i - 1);
    } else if states[i - 1].rec.version == v {
      InHand(states, v, es, i - 1);
      var j :| 0 <= j <= i - 1 && states[j].rec.kr == states[i - 1].pc.cur;
      Exact(states, v, es, j);
    }
  }

  /** The thread drops a reader at step j. */
  predicate Drops(states: seq<State>, es: seq<Event>, j: nat)
    requires j < |es| < |states|
  {
    es[j] == Reader && states[j + 1].rec.kr.readers == states[j].rec.kr.readers - 1
  }

  /** A thread is done only after it has dropped a reader, or found the record to be of another version. */
  lemma {:induction false} DoneForAReason(states: seq<State>, v: nat, es: seq<Event>, i: nat)
    requires Run(states, v, es) && i <= |es| && states[i].pc == Out
    ensures exists j: nat :: j < i && (Drops(states, es, j) || states[j].rec.version != v)
  {
    assert i > 0;
    assert states[i] == Next(states[i - 1], v, es[i - 1]);
    if states[i - 1].pc == Out {
      DoneForAReason(states, v, es, i - 1);
    } else if states[i - 1].rec.version == v {
      assert Drops(states, es, i - 1);
    }
  }

  function Distance(pc: Pc): nat {
    match pc
    case Load => 6 case Test(_) => 5 case Swap(_) => 4 case Holding => 3 case DropTest(_) => 2 case DropSwap(_) => 1
    case _ => 0
  }

  /** Every step of the thread brings it nearer to its end, unless it loses a swap because the word has changed. */
  lemma ReaderAdvances(s: State, v: nat)
    ensures var s' := ReaderStep(s, v);
      || Distance(s'.pc) < Distance(s.pc) || Distance(s.pc) == 0
      || ((s.pc.Swap? || s.pc.DropSwap?) && s.rec.kr != s.pc.cur)
  {
  }

  /** It can happen: for every two versions there is a run in which the reader strays. */
  lemma ReaderCanStray(v: nat, w: nat)
    requires v < w
    ensures exists states: seq<State>, es: seq<Event> :: Run(states, v, es) && Strayed(states, v, es, |es|)
  {
    var word := Word(0, false);
    var s0 := State(Rec(v, word), Load, 0);
    var s1, s2 := s0.(pc := Test(word)), s0.(pc := Swap(word));
    var s3 := s2.(rec := Rec(v, Word(0, true)));
    var s4 := State(Rec(w, word), Swap(word), 0);
    var s5 := State(Rec(w, Word(1, false)), Holding, 0);
    var states, es := [s0, s1, s2, s3, s4, s5], [Reader, Reader, Delete, Reuse(w), Reader];
    assert Run(states, v, es);
    assert Wins(states, es, 4);
  }
}
