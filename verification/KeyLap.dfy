/** Which keys the enumeration finds: it ends too early exactly when a search begins right at a live slot, because
    such a hit counts as more than a whole lap, unless it is in the last slot of the array. */
module KeyLap {
  import opened Bytes
  import opened Options
  import opened Circle
  import opened Handles
  import opened KeySearch
  import P = ProbeTable

  /** The slots the rounds of getKeyStrs find, from slot st on with a count of srchCnt. */
  function Hits(slots: seq<VerIdx>, st: nat, srchCnt: nat): set<nat>
    requires st < |slots|
    decreases |slots| - srchCnt
  {
    var m := |slots|;
    if srchCnt >= m then {}
    else
      var j := FirstLive(slots, st, 0);
      var c := if j < m then Pos(m, st, j) else st;
      (if j < m then {c} else {}) + Hits(slots, Next(m, c), srchCnt + Searched(m, st, Next(m, c)))
  }

  /** A search does not begin at live slot i in a lap from st, or it is the last slot of the array. */
  predicate Clear(slots: seq<VerIdx>, st: nat, i: nat)
    requires i < |slots|
  {
    i == |slots| - 1 || (i != st && !Live(slots[Prev(|slots|, i)]))
  }

  /** So it is for every live slot but the last one met in the lap. */
  ghost predicate Complete(slots: seq<VerIdx>, st: nat)
    requires st < |slots|
  {
    var m := |slots|;
    forall d, x | 0 <= d < x < m && Live(slots[Pos(m, st, d)]) && Live(slots[Pos(m, st, x)]) ::
      Clear(slots, st, Pos(m, st, d))
  }

  // ---------------------------------------------------------------- the lap

  /** Which slots are live, in the order in which a lap from st meets them, from distance d on. */
  function LapFrom(slots: seq<VerIdx>, st: nat, d: nat): (lap: seq<bool>)
    requires st < |slots| && d <= |slots|
    ensures |lap| == |slots| - d && forall x | 0 <= x < |lap| :: lap[x] == Live(slots[Pos(|slots|, st, d + x)])
    decreases |slots| - d
  {
    if d == |slots| then [] else [Live(slots[Pos(|slots|, st, d)])] + LapFrom(slots, st, d + 1)
  }

  ghost predicate IsLap(slots: seq<VerIdx>, st: nat, lap: seq<bool>)
    requires st < |slots|
  {
    |lap| == |slots| && forall x {:trigger lap[x]} | 0 <= x < |lap| :: lap[x] == Live(slots[Pos(|slots|, st, x)])
  }

  function First(lap: seq<bool>, d: nat): (e: nat)
    requires d <= |lap|
    ensures d <= e <= |lap| && (e < |lap| ==> lap[e]) && forall x | d <= x < e :: !lap[x]
    decreases |lap| - d
  {
    if d == |lap| || lap[d] then d else First(lap, d + 1)
  }

  /** How far a round from distance d says it came, if it finds the slot at distance e: the distance when it wraps
      around the array, whose last slot lies at distance q, and otherwise one less; but a hit right where the round
      began counts as more than a lap. */
  function More(m: nat, q: nat, d: nat, e: nat): nat
    requires d <= e < m
  {
    if d <= q <= e then e - d + 1 else if d == e then m + 1 else e - d
  }

  /** The distances of the slots the rounds find, until the lap or the enumeration ends. */
  function LapHits(lap: seq<bool>, q: nat, d: nat, cnt: nat): (h: set<nat>)
    requires d <= |lap|
    ensures forall x | x in h :: d <= x < |lap| && lap[x]
    decreases |lap| - d
  {
    var m := |lap|;
    if d == m || cnt >= m then {}
    else
      var e := First(lap, d);
      if e == m then {} else {e} + LapHits(lap, q, e + 1, cnt + More(m, q, d, e))
  }

  /** No round begins at distance d, or the last slot of the array is there. */
  predicate LapClear(lap: seq<bool>, q: nat, d: nat)
    requires d < |lap|
  {
    d == q || (d > 0 && !lap[d - 1])
  }

  predicate ClearTo(lap: seq<bool>, q: nat, d: nat, x: nat)
    requires x < |lap|
  {
    forall e | d <= e < x && lap[e] :: LapClear(lap, q, e)
  }

  lemma {:induction false} LapFinds(lap: seq<bool>, q: nat, d: nat, cnt: nat, x: nat)
    requires cnt <= d <= x < |lap| && (d > 0 ==> lap[d - 1]) && lap[x] && ClearTo(lap, q, d, x)
    ensures x in LapHits(lap, q, d, cnt)
    decreases |lap| - d
  {
    var e := First(lap, d);
    if e < x {
      assert LapClear(lap, q, e);
      LapFinds(lap, q, e + 1, cnt + More(|lap|, q, d, e), x);
    }
  }

  /** Nothing is found behind the first live slot a round begins at. */
  lemma {:induction false} LapStops(lap: seq<bool>, q: nat, d: nat, cnt: nat, stop: nat, x: nat)
    requires cnt <= d <= stop < |lap| && (d > 0 ==> lap[d - 1])
    requires lap[stop] && !LapClear(lap, q, stop) && ClearTo(lap, q, d, stop) && x in LapHits(lap, q, d, cnt)
    ensures x <= stop
    decreases |lap| - d
  {
    var e := First(lap, d);
    if e < stop {
      assert LapClear(lap, q, e);
      if x != e { LapStops(lap, q, e + 1, cnt + More(|lap|, q, d, e), stop, x); }
    } else {
      assert e == stop == d;
      assert LapHits(lap, q, e + 1, cnt + More(|lap|, q, d, e)) == {};
    }
  }

  lemma {:induction false} FirstStop(lap: seq<bool>, q: nat, d: nat) returns (stop: nat)
    requires d < |lap| && lap[d] && !LapClear(lap, q, d)
    ensures stop <= d && lap[stop] && !LapClear(lap, q, stop) && ClearTo(lap, q, 0, stop)
    decreases d
  {
    if x: nat :| x < d && lap[x] && !LapClear(lap, q, x) {
      stop := FirstStop(lap, q, x);
    } else {
      stop := d;
    }
  }

  /** A lap finds every live slot if and only if all of them but the last are clear. */
  lemma LapIsComplete(lap: seq<bool>, q: nat)
    ensures (forall x | 0 <= x < |lap| && lap[x] :: x in LapHits(lap, q, 0, 0)) <==>
      forall d, x | 0 <= d < x < |lap| && lap[d] && lap[x] :: LapClear(lap, q, d)
  {
    if forall d, x | 0 <= d < x < |lap| && lap[d] && lap[x] :: LapClear(lap, q, d) {
      forall x | 0 <= x < |lap| && lap[x] ensures x in LapHits(lap, q, 0, 0) { LapFinds(lap, q, 0, 0, x); }
    } else {
      var d: nat, x :| d < x < |lap| && lap[d] && lap[x] && !LapClear(lap, q, d);
      var stop := FirstStop(lap, q, d);
      if x in LapHits(lap, q, 0, 0) { LapStops(lap, q, 0, 0, stop, x); }
    }
  }

  // ---------------------------------------------------------------- the rounds run the lap

  lemma PosSum(m: nat, st: nat, d: nat, j: nat)
    requires st < m && d + j < m
    ensures Pos(m, Pos(m, st, d), j) == Pos(m, st, d + j) && PosOf(m, st, Pos(m, st, d)) == d
    ensures d > 0 ==> Prev(m, Pos(m, st, d)) == Pos(m, st, d - 1)
    ensures d + 1 < m ==> Next(m, Pos(m, st, d)) == Pos(m, st, d + 1)
    ensures d > 0 ==> Pos(m, st, d) != st
  {
  }

  /** The distance of the last slot of the array. */
  function Edge(m: nat, st: nat): (q: nat)
    requires st < m
    ensures q < m
  {
    m - 1 - st
  }

  lemma MoreIsSearched(m: nat, st: nat, d: nat, e: nat)
    requires st < m && d <= e < m
    ensures More(m, Edge(m, st), d, e) == Searched(m, Pos(m, st, d), Next(m, Pos(m, st, e)))
    ensures e == Edge(m, st) <==> Pos(m, st, e) == m - 1
  {
  }

  /** A search from distance d finds the first live slot of the rest of the lap. */
  lemma FirstFrom(slots: seq<VerIdx>, st: nat, lap: seq<bool>, d: nat)
    requires st < |slots| && IsLap(slots, st, lap) && d < |slots| && First(lap, d) < |slots|
    ensures var m, e := |slots|, First(lap, d);
      FirstLive(slots, Pos(m, st, d), 0) == e - d && Pos(m, Pos(m, st, d), e - d) == Pos(m, st, e)
  {
    var m, e := |slots|, First(lap, d);
    var prev := Pos(m, st, d);
    PosSum(m, st, d, e - d);
    assert lap[e];
    forall n | 0 <= n < e - d ensures !Live(slots[Pos(m, prev, n)]) {
      PosSum(m, st, d, n);
      assert !lap[d + n];
    }
  }

  lemma {:induction false} HitsAreLive(slots: seq<VerIdx>, st: nat, cnt: nat, i: nat)
    requires st < |slots| && i in Hits(slots, st, cnt)
    ensures i < |slots| && Live(slots[i])
    decreases |slots| - cnt
  {
    var m := |slots|;
    var j := FirstLive(slots, st, 0);
    var c := if j < m then Pos(m, st, j) else st;
    if !(j < m && i == c) { HitsAreLive(slots, Next(m, c), cnt + Searched(m, st, Next(m, c)), i); }
  }

  /** What the rounds find from distance d on, for any account h of them: a round that finds the slot at distance e,
      and the rounds that follow. */
  predicate RoundIs(h: (nat, nat) -> set<nat>, m: nat, st: nat, d: nat, cnt: nat, e: nat)
    requires st < m && d <= e < m
  {
    var c, more := Pos(m, st, e), More(m, Edge(m, st), d, e);
    && c in h(d, cnt)
    && (cnt + more >= m ==> h(d, cnt) == {c})
    && (e + 1 < m ==> h(d, cnt) == {c} + h(e + 1, cnt + more))
  }

  ghost predicate Accounts(h: (nat, nat) -> set<nat>, m: nat, st: nat, lap: seq<bool>)
    requires st < m
  {
    forall d, cnt, e | 0 <= d < |lap| == m && 0 <= cnt < m && e == First(lap, d) < m :: RoundIs(h, m, st, d, cnt, e)
  }

  /** The slots that the rounds find, by the distance they begin at. */
  function HitsFrom(slots: seq<VerIdx>, st: nat): (nat, nat) -> set<nat>
    requires st < |slots|
  {
    (d: nat, cnt: nat) => if d < |slots| then Hits(slots, Pos(|slots|, st, d), cnt) else {}
  }

  lemma OneRound(slots: seq<VerIdx>, st: nat, lap: seq<bool>, d: nat, cnt: nat, e: nat)
    requires st < |slots| && IsLap(slots, st, lap) && cnt < |slots| && d < |slots| && e == First(lap, d) < |slots|
    ensures RoundIs(HitsFrom(slots, st), |slots|, st, d, cnt, e)
  {
    var m, more := |slots|, More(|slots|, Edge(|slots|, st), d, e);
    var at, c := Pos(m, st, d), Pos(m, st, e);
    var next := Next(m, c);
    FirstFrom(slots, st, lap, d);
    MoreIsSearched(m, st, d, e);
    HitsOpen(slots, at, cnt, c, more);
    PosSum(m, st, e, 0);
    Rounded(HitsFrom(slots, st), m, st, d, cnt, e, Hits(slots, next, cnt + more));
  }

  lemma Rounded(h: (nat, nat) -> set<nat>, m: nat, st: nat, d: nat, cnt: nat, e: nat, rest: set<nat>)
    requires st < m && d <= e < m && h(d, cnt) == {Pos(m, st, e)} + rest
    requires cnt + More(m, Edge(m, st), d, e) >= m ==> rest == {}
    requires e + 1 < m ==> rest == h(e + 1, cnt + More(m, Edge(m, st), d, e))
    ensures RoundIs(h, m, st, d, cnt, e)
  {
  }

  lemma HitsOpen(slots: seq<VerIdx>, at: nat, cnt: nat, c: nat, more: nat)
    requires at < |slots| && cnt < |slots| && FirstLive(slots, at, 0) < |slots|
    requires c == Pos(|slots|, at, FirstLive(slots, at, 0)) && more == Searched(|slots|, at, Next(|slots|, c))
    ensures Hits(slots, at, cnt) == {c} + Hits(slots, Next(|slots|, c), cnt + more)
    ensures cnt + more >= |slots| ==> Hits(slots, Next(|slots|, c), cnt + more) == {}
  {
  }

  lemma HitsAccount(slots: seq<VerIdx>, st: nat, lap: seq<bool>)
    requires st < |slots| && IsLap(slots, st, lap)
    ensures Accounts(HitsFrom(slots, st), |slots|, st, lap)
  {
    forall d, cnt, e | 0 <= d < |slots| && 0 <= cnt < |slots| && e == First(lap, d) < |slots|
      ensures RoundIs(HitsFrom(slots, st), |slots|, st, d, cnt, e)
    {
      OneRound(slots, st, lap, d, cnt, e);
    }
  }

  lemma LaterLapHit(lap: seq<bool>, q: nat, d: nat, cnt: nat, e: nat, x: nat)
    requires d < |lap| && cnt < |lap| && e == First(lap, d) < x < |lap|
    ensures x in LapHits(lap, q, d, cnt) <==> x in LapHits(lap, q, e + 1, cnt + More(|lap|, q, d, e))
    ensures cnt + More(|lap|, q, d, e) >= |lap| ==> x !in LapHits(lap, q, d, cnt)
  {
  }

  lemma {:induction false} HitsAreLapHits(
    h: (nat, nat) -> set<nat>, m: nat, st: nat, lap: seq<bool>, d: nat, cnt: nat, x: nat)
    requires st < m && |lap| == m && Accounts(h, m, st, lap) && d <= x < m && lap[x] && cnt < m
    ensures Pos(m, st, x) in h(d, cnt) <==> x in LapHits(lap, Edge(m, st), d, cnt)
    decreases m - d
  {
    var q, e := Edge(m, st), First(lap, d);
    assert RoundIs(h, m, st, d, cnt, e);
    if e == x {
      assert x in LapHits(lap, q, d, cnt);
    } else {
      var more := More(m, q, d, e);
      PosSum(m, st, e, 0);
      PosSum(m, st, x, 0);
      LaterLapHit(lap, q, d, cnt, e, x);
      if cnt + more < m { HitsAreLapHits(h, m, st, lap, e + 1, cnt + more, x); }
    }
  }

  lemma FoundInLap(slots: seq<VerIdx>, st: nat, lap: seq<bool>, i: nat)
    requires st < |slots| && IsLap(slots, st, lap) && i < |slots| && Live(slots[i])
    ensures var d := PosOf(|slots|, st, i);
      lap[d] && (i in Hits(slots, st, 0) <==> d in LapHits(lap, Edge(|slots|, st), 0, 0))
  {
    var m, d, h := |slots|, PosOf(|slots|, st, i), HitsFrom(slots, st);
    assert lap[d] == Live(slots[Pos(m, st, d)]);
    HitsAccount(slots, st, lap);
    HitsAreLapHits(h, m, st, lap, 0, 0, d);
    assert h(0, 0) == Hits(slots, st, 0);
  }

  ghost predicate AllFound(slots: seq<VerIdx>, st: nat)
    requires st < |slots|
  {
    forall i | 0 <= i < |slots| && Live(slots[i]) :: i in Hits(slots, st, 0)
  }

  lemma AllFoundInLap(slots: seq<VerIdx>, st: nat, lap: seq<bool>)
    requires st < |slots| && IsLap(slots, st, lap)
    ensures AllFound(slots, st) <==> forall x | 0 <= x < |lap| && lap[x] :: x in LapHits(lap, Edge(|slots|, st), 0, 0)
  {
    var m := |slots|;
    forall i | 0 <= i < m && Live(slots[i])
      ensures lap[PosOf(m, st, i)]
      ensures i in Hits(slots, st, 0) <==> PosOf(m, st, i) in LapHits(lap, Edge(m, st), 0, 0)
    {
      FoundInLap(slots, st, lap, i);
    }
    forall x | 0 <= x < m && lap[x] ensures PosOf(m, st, Pos(m, st, x)) == x && Live(slots[Pos(m, st, x)]) {
      PosSum(m, st, x, 0);
    }
  }

  lemma CompleteInLap(slots: seq<VerIdx>, st: nat, lap: seq<bool>)
    requires st < |slots| && IsLap(slots, st, lap)
    ensures Complete(slots, st) <==>
      forall d, x | 0 <= d < x < |lap| && lap[d] && lap[x] :: LapClear(lap, Edge(|slots|, st), d)
  {
    forall d | 0 <= d < |slots|
      ensures Clear(slots, st, Pos(|slots|, st, d)) <==> LapClear(lap, Edge(|slots|, st), d)
      ensures lap[d] == Live(slots[Pos(|slots|, st, d)])
    {
      ClearIsLapClear(slots, st, lap, d);
    }
  }

  /** Every live slot is found if and only if each of them, but the last one met in the lap, is the last slot of the
      array, or is not the first one looked at and has no live slot just before it. */
  lemma AllFoundIffComplete(slots: seq<VerIdx>, st: nat)
    requires st < |slots|
    ensures AllFound(slots, st) <==> Complete(slots, st)
  {
    var lap := LapFrom(slots, st, 0);
    AllFoundInLap(slots, st, lap);
    CompleteInLap(slots, st, lap);
    LapIsComplete(lap, Edge(|slots|, st));
  }

  lemma ClearIsLapClear(slots: seq<VerIdx>, st: nat, lap: seq<bool>, d: nat)
    requires st < |slots| && IsLap(slots, st, lap) && d < |slots|
    ensures Clear(slots, st, Pos(|slots|, st, d)) <==> LapClear(lap, Edge(|slots|, st), d)
  {
    PosSum(|slots|, st, d, 0);
    MoreIsSearched(|slots|, st, d, d);
    if d > 0 { assert lap[d - 1] == Live(slots[Pos(|slots|, st, d - 1)]); }
  }

  /** Three live slots in a row, of five, behind a start that is not live: the third is never found. */
  lemma ThirdOfThreeIsMissed(a: VerIdx, b: VerIdx, c: VerIdx)
    requires Live(a) && Live(b) && Live(c)
    ensures var slots := [NO_SLOT, a, b, c, NO_SLOT];
      Hits(slots, 0, 0) == {1, 2} && !Complete(slots, 0)
  {
    var slots := [NO_SLOT, a, b, c, NO_SLOT];
    assert FirstLive(slots, 0, 0) == FirstLive(slots, 0, 1) == 1;
    assert FirstLive(slots, 2, 0) == 0;
    assert Hits(slots, 0, 0) == {1} + Hits(slots, 2, 1);
    assert Hits(slots, 2, 1) == {2} + Hits(slots, 3, 7);
    assert Pos(5, 0, 2) == 2 && Pos(5, 0, 3) == 3 && !Clear(slots, 0, 2);
  }

  // ---------------------------------------------------------------- the keys

  predicate Lists(keys: seq<VerStr>, str: Str) { exists x :: x in keys && x.str == str }

  /** Slot i holds this key, and it can be returned. */
  predicate KeyIs(t: P.Table, i: nat, str: Str) {
    i < |t| && Printable(t, i) && t[i].key == str
  }

  lemma InsertLists(keys: seq<VerStr>, k: VerStr, str: Str)
    requires Sorted(keys)
    ensures Lists(Insert(keys, k), str) <==> Lists(keys, str) || k.str == str
  {
    InsertSorts(keys, k);
    if k.str == str {
      if forall y | y in keys :: y.str != k.str { assert k in Insert(keys, k); }
    }
    if Lists(keys, str) {
      var x :| x in keys && x.str == str;
      assert x in Insert(keys, k);
    }
  }

  lemma AddLists(t: P.Table, keys: seq<VerStr>, c: Option<nat>, str: Str)
    requires Sorted(keys) && (c.Some? ==> c.value < |t|)
    ensures var keys' := Add(keys, if c.Some? then KeyAt(t, c.value) else None);
      Sorted(keys') && (Lists(keys', str) <==> Lists(keys, str) || (c.Some? && KeyIs(t, c.value, str)))
  {
    if c.Some? {
      KeyAtIs(t, c.value);
      if KeyAt(t, c.value).Some? {
        InsertSorts(keys, KeyAt(t, c.value).value);
        InsertLists(keys, KeyAt(t, c.value).value, str);
      }
    }
  }

  ghost predicate HitWith(slots: seq<VerIdx>, t: P.Table, st: nat, srchCnt: nat, str: Str)
    requires st < |slots|
  {
    exists i :: i in Hits(slots, st, srchCnt) && KeyIs(t, i, str)
  }

  lemma HitWithStep(slots: seq<VerIdx>, t: P.Table, st: nat, srchCnt: nat, str: Str)
    requires st < |slots| == |t| && srchCnt < |slots|
    ensures var n, j := NextKey(slots, t, st), FirstLive(slots, st, 0);
      HitWith(slots, t, st, srchCnt, str) <==>
        (j < |slots| && KeyIs(t, Pos(|slots|, st, j), str)) || HitWith(slots, t, n.next, srchCnt + n.searched, str)
  {
    var m, n, j := |slots|, NextKey(slots, t, st), FirstLive(slots, st, 0);
    var c := if j < m then Pos(m, st, j) else st;
    assert n.next == Next(m, c) && n.searched == Searched(m, st, Next(m, c));
    assert Hits(slots, st, srchCnt) == (if j < m then {c} else {}) + Hits(slots, n.next, srchCnt + n.searched);
  }

  /** The enumeration returns exactly the keys of the slots it finds, but empty ones and those with a zero byte. */
  lemma {:induction false} KeysAreHits(
    slots: seq<VerIdx>, t: P.Table, st: nat, srchCnt: nat, keys: seq<VerStr>, str: Str)
    requires st < |slots| == |t| && Sorted(keys)
    ensures Lists(Keys(slots, t, st, srchCnt, keys), str) <==>
      Lists(keys, str) || exists i :: i in Hits(slots, st, srchCnt) && KeyIs(t, i, str)
    decreases |slots| - srchCnt
  {
    var m := |slots|;
    if srchCnt < m {
      var n, j := NextKey(slots, t, st), FirstLive(slots, st, 0);
      AddLists(t, keys, if j < m then Some(Pos(m, st, j)) else None, str);
      KeysAreHits(slots, t, n.next, srchCnt + n.searched, Add(keys, n.key), str);
      HitWithStep(slots, t, st, srchCnt, str);
      KeysStep(slots, t, st, srchCnt, keys, n);
      assert HitWith(slots, t, n.next, srchCnt + n.searched, str) <==>
        exists i :: i in Hits(slots, n.next, srchCnt + n.searched) && KeyIs(t, i, str);
    }
  }

  /** If no two live slots share a key and no key has a zero byte, the enumeration returns every key if and only if
      the lap is complete.  Whatever the keys, a complete lap returns all of them but those with a zero byte. */
  lemma AllKeysIffComplete(slots: seq<VerIdx>, t: P.Table, st: nat)
    requires st < |slots| == |t| && forall i | 0 <= i < |t| :: Live(slots[i]) <==> t[i].Live?
    ensures Complete(slots, st) ==> AllListed(t, Keys(slots, t, st, 0, []))
    ensures KeysDiffer(t) && AllListed(t, Keys(slots, t, st, 0, [])) ==> Complete(slots, st)
  {
    var keys := Keys(slots, t, st, 0, []);
    AllFoundIffComplete(slots, st);
    if Complete(slots, st) {
      forall i | 0 <= i < |t| && Printable(t, i) ensures Lists(keys, t[i].key) {
        KeysAreHits(slots, t, st, 0, [], t[i].key);
        assert KeyIs(t, i, t[i].key);
      }
    }
    if KeysDiffer(t) && AllListed(t, keys) {
      forall i | 0 <= i < |t| && Live(slots[i]) ensures i in Hits(slots, st, 0) {
        var str := t[i].key;
        KeysAreHits(slots, t, st, 0, [], str);
        var h :| h in Hits(slots, st, 0) && KeyIs(t, h, str);
        assert h == i;
      }
    }
  }

  ghost predicate AllListed(t: P.Table, keys: seq<VerStr>) {
    forall i | 0 <= i < |t| && Printable(t, i) :: Lists(keys, t[i].key)
  }

  /** Every live slot has a key that can be returned, and no other slot has the same. */
  predicate KeysDiffer(t: P.Table) {
    && (forall i | 0 <= i < |t| && t[i].Live? :: Printable(t, i))
    && (forall i, j | 0 <= i < j < |t| && t[i].Live? && t[j].Live? :: t[i].key != t[j].key)
  }

  lemma ListedIs(t: P.Table, keys: seq<VerStr>)
    ensures AllListed(t, keys) <==>
      forall e | e in t && e.Live? && e.key != [] && 0 !in e.key :: exists x :: x in keys && x.str == e.key
  {
    forall i | 0 <= i < |t| ensures Printable(t, i) <==> t[i].Live? && t[i].key != [] && 0 !in t[i].key { KeyAtIs(t, i); }
    if AllListed(t, keys) {
      forall e | e in t && e.Live? && e.key != [] && 0 !in e.key ensures Lists(keys, e.key) {
        var i :| 0 <= i < |t| && t[i] == e;
      }
    }
    if forall e | e in t && e.Live? && e.key != [] && 0 !in e.key :: exists x :: x in keys && x.str == e.key {
      forall i | 0 <= i < |t| && Printable(t, i) ensures Lists(keys, t[i].key) { assert t[i] in t; }
    }
  }
}
