/** The slots of the hash table, read as a table of keys and values through the lists they name. */
module SlotTable {
  import opened Bytes
  import opened Circle
  import opened Chains
  import opened Handles
  import opened Flats
  import opened BlockLists
  import P = ProbeTable

  /** What a slot holds. */
  function EntryOf(vi: VerIdx, lists: map<nat, List>, rows: seq<Str>): P.Entry {
    if vi.idx == EMPTY then P.Empty
    else if Live(vi) && vi.ver in lists && Stored(rows, lists[vi.ver]) then
      P.Live(vi.ver, KeyIn(rows, lists[vi.ver]), ValIn(rows, lists[vi.ver]))
    else P.Deleted
  }

  function TableOf(slots: seq<VerIdx>, lists: map<nat, List>, rows: seq<Str>): (t: P.Table)
    ensures |t| == |slots|
    ensures forall i | 0 <= i < |t| :: t[i] == EntryOf(slots[i], lists, rows)
  {
    seq(|slots|, i requires 0 <= i < |slots| => EntryOf(slots[i], lists, rows))
  }

  /** A live slot names a list that is not marked deleted, by its head and version, under the hash of its key. */
  ghost predicate SlotOk(vi: VerIdx, lists: map<nat, List>, rows: seq<Str>, hashOf: Str -> nat) {
    if Live(vi) then
      && vi.ver in lists && !lists[vi.ver].deleted && lists[vi.ver].blks != [] && lists[vi.ver].blks[0] == vi.idx
      && Stored(rows, lists[vi.ver]) && lists[vi.ver].hash == hashOf(KeyIn(rows, lists[vi.ver]))
    else
      vi == VerIdx(EMPTY, 0) || vi == VerIdx(DELETED, 0)
  }

  predicate InSlot(slots: seq<VerIdx>, v: nat) {
    exists i :: 0 <= i < |slots| && Live(slots[i]) && slots[i].ver == v
  }

  ghost predicate Slots(slots: seq<VerIdx>, lists: map<nat, List>, rows: seq<Str>, hashOf: Str -> nat) {
    && (forall i | 0 <= i < |slots| :: SlotOk(slots[i], lists, rows, hashOf))
    && (forall i, j | 0 <= i < j < |slots| && Live(slots[i]) && Live(slots[j]) :: slots[i].ver != slots[j].ver)
  }

  /** Nothing leaks: a list is in a slot until it is marked deleted, and then its readers still hold it. */
  ghost predicate NoLeak(slots: seq<VerIdx>, lists: map<nat, List>) {
    forall v | v in lists && !lists[v].deleted :: InSlot(slots, v)
  }

  /** Slots read the same when their lists and bytes are unchanged. */
  lemma SlotsFrame(slots: seq<VerIdx>, lists: map<nat, List>, rows: seq<Str>,
                   lists': map<nat, List>, rows': seq<Str>, hashOf: Str -> nat)
    requires Slots(slots, lists, rows, hashOf)
    requires forall i | 0 <= i < |slots| && Live(slots[i]) ::
      && slots[i].ver in lists' && lists'[slots[i].ver] == lists[slots[i].ver]
      && SameBytes(rows, rows', lists[slots[i].ver].blks)
    ensures Slots(slots, lists', rows', hashOf)
    ensures TableOf(slots, lists', rows') == TableOf(slots, lists, rows)
  {
    forall i | 0 <= i < |slots|
      ensures SlotOk(slots[i], lists', rows', hashOf)
      ensures EntryOf(slots[i], lists', rows') == EntryOf(slots[i], lists, rows)
    {
      assert SlotOk(slots[i], lists, rows, hashOf);
    }
  }

  ghost predicate SameBytes(rows: seq<Str>, rows': seq<Str>, blks: seq<nat>) {
    In(rows, blks) ==> In(rows', blks) && Flat(rows', blks) == Flat(rows, blks)
  }

  /** Writing a handle that is in no other slot into slot i. */
  lemma SlotWritten(slots: seq<VerIdx>, i: nat, vi: VerIdx, lists: map<nat, List>, rows: seq<Str>, hashOf: Str -> nat)
    requires Slots(slots, lists, rows, hashOf) && i < |slots| && SlotOk(vi, lists, rows, hashOf)
    requires Live(vi) ==> !InSlot(slots, vi.ver)
    ensures Slots(slots[i := vi], lists, rows, hashOf)
    ensures TableOf(slots[i := vi], lists, rows) == TableOf(slots, lists, rows)[i := EntryOf(vi, lists, rows)]
  {
    var slots' := slots[i := vi];
    assert Slots(slots', lists, rows, hashOf) by {
      assert forall n | 0 <= n < |slots| && Live(vi) && Live(slots[n]) :: slots[n].ver != vi.ver;
    }
  }

  /** Only the version written is new in the slots, and only the one overwritten is gone. */
  lemma SlotsAfterWrite(slots: seq<VerIdx>, i: nat, vi: VerIdx, v: nat)
    requires i < |slots|
    ensures InSlot(slots[i := vi], v) ==> InSlot(slots, v) || (Live(vi) && vi.ver == v)
    ensures InSlot(slots, v) ==> InSlot(slots[i := vi], v) || (Live(slots[i]) && slots[i].ver == v)
    ensures Live(vi) ==> InSlot(slots[i := vi], vi.ver)
  {
    var slots' := slots[i := vi];
    assert slots'[i] == vi;
    if InSlot(slots, v) {
      var n :| 0 <= n < |slots| && Live(slots[n]) && slots[n].ver == v;
      assert n != i ==> slots'[n] == slots[n];
    }
  }

  lemma OverwrittenIsGone(slots: seq<VerIdx>, i: nat, vi: VerIdx, lists: map<nat, List>, rows: seq<Str>, hashOf: Str -> nat)
    requires Slots(slots, lists, rows, hashOf) && i < |slots| && Live(slots[i])
    requires Live(vi) ==> vi.ver != slots[i].ver
    ensures !InSlot(slots[i := vi], slots[i].ver)
  {
    var slots' := slots[i := vi];
    forall n | 0 <= n < |slots'| && Live(slots'[n]) ensures slots'[n].ver != slots[i].ver {
      if n < i { assert slots'[n] == slots[n]; }
      if n > i { assert slots'[n] == slots[n]; }
    }
  }

  /** What get does with list v: a buffer with room for the value receives it, perhaps with more behind it, and
      nothing changes; a smaller one receives nothing, and the list keeps the reader. */
  ghost predicate ValueRead(s: View, s': View, rows: seq<Str>, v: nat, maxlen: nat, out: Str) {
    && v in s.lists && Stored(rows, s.lists[v])
    && var val := ValIn(rows, s.lists[v]);
    if |val| <= maxlen then s' == s && val <= out && |out| <= maxlen
    else out == [] && Flagged(s, s', v, s.lists[v].readers + 1, s.lists[v].deleted)
  }

  lemma ReadIsValue(s: View, s': View, rows: seq<Str>, v: nat, maxlen: nat, out: Str)
    requires v in s.lists && Stored(rows, s.lists[v]) && !s.lists[v].deleted
    requires var l := s.lists[v];
      if maxlen < l.vlen then out == [] && Flagged(s, s', v, l.readers + 1, false)
      else s' == s && ReadsList(s.bs, rows, l, maxlen, out)
    ensures ValueRead(s, s', rows, v, maxlen, out)
    ensures maxlen < s.lists[v].vlen ==> s'.lists == s.lists[v := s.lists[v].(readers := s.lists[v].readers + 1)]
  {
    if maxlen >= s.lists[v].vlen { ReadsValueFirst(rows, s.bs, s.lists[v], maxlen, out); }
  }

  /** Readers do not matter to the table. */
  lemma ReaderFrame(slots: seq<VerIdx>, lists: map<nat, List>, lists': map<nat, List>, rows: seq<Str>,
                    hashOf: Str -> nat, v: nat)
    requires Slots(slots, lists, rows, hashOf) && NoLeak(slots, lists)
    requires v in lists && lists' == lists[v := lists[v].(readers := lists[v].readers + 1)]
    ensures Slots(slots, lists', rows, hashOf) && NoLeak(slots, lists')
    ensures TableOf(slots, lists', rows) == TableOf(slots, lists, rows)
  {
    forall i | 0 <= i < |slots|
      ensures SlotOk(slots[i], lists', rows, hashOf)
      ensures EntryOf(slots[i], lists', rows) == EntryOf(slots[i], lists, rows)
    {
      assert SlotOk(slots[i], lists, rows, hashOf);
      if slots[i].ver == v {
        var l, l' := lists[v], lists'[v];
        assert l'.blks == l.blks && Stored(rows, l') == Stored(rows, l);
      }
    }
    forall w | w in lists' && !lists'[w].deleted ensures InSlot(slots, w) { assert !lists[w].deleted; }
  }

  // ---------------------------------------------------------------- put and del

  /** Every list but v, which is in no slot, is as it should be. */
  ghost predicate Loose(slots: seq<VerIdx>, lists: map<nat, List>, v: nat) {
    && v in lists && !lists[v].deleted && !InSlot(slots, v)
    && forall u | u in lists && u != v && !lists[u].deleted :: InSlot(slots, u)
  }

  lemma AllocLeavesTable(s: View, s': View, k: nat, l: List, slots: seq<VerIdx>, rows: seq<Str>, hashOf: Str -> nat)
    requires Consistent(s) && Allocated(s, s', k, l) && Slots(slots, s.lists, rows, hashOf) && NoLeak(slots, s.lists)
    ensures Slots(slots, s'.lists, rows, hashOf) && Loose(slots, s'.lists, s.version)
    ensures TableOf(slots, s'.lists, rows) == TableOf(slots, s.lists, rows)
  {
    assert s.version in s.lists ==> ListOk(s, s.version);
    forall i | 0 <= i < |slots| && Live(slots[i]) ensures slots[i].ver in s.lists && slots[i].ver != s.version {
      assert SlotOk(slots[i], s.lists, rows, hashOf);
    }
    SlotsFrame(slots, s.lists, rows, s'.lists, rows, hashOf);
  }

  /** Writing the bytes of one list leaves the table alone while that list is in no slot. */
  lemma WriteLeavesTable(slots: seq<VerIdx>, lists: map<nat, List>, rows: seq<Str>, rows': seq<Str>,
                         hashOf: Str -> nat, v: nat)
    requires Slots(slots, lists, rows, hashOf) && !InSlot(slots, v)
    requires forall w | w in lists && w != v :: SameBytes(rows, rows', lists[w].blks)
    ensures Slots(slots, lists, rows', hashOf) && TableOf(slots, lists, rows') == TableOf(slots, lists, rows)
  {
    forall i | 0 <= i < |slots| && Live(slots[i]) ensures slots[i].ver in lists && slots[i].ver != v {
      assert SlotOk(slots[i], lists, rows, hashOf);
    }
    SlotsFrame(slots, lists, rows, lists, rows', hashOf);
  }

  /** After the swap of put: the new list is in slot i, and the one that was there is in no slot. */
  lemma SwapDone(slots: seq<VerIdx>, i: nat, vi: VerIdx, lists: map<nat, List>, rows: seq<Str>, hashOf: Str -> nat)
    requires Slots(slots, lists, rows, hashOf) && i < |slots| && SlotOk(vi, lists, rows, hashOf) && Live(vi)
    requires Loose(slots, lists, vi.ver)
    ensures Slots(slots[i := vi], lists, rows, hashOf)
    ensures TableOf(slots[i := vi], lists, rows) == TableOf(slots, lists, rows)[i := EntryOf(vi, lists, rows)]
    ensures if Live(slots[i]) then Loose(slots[i := vi], lists, slots[i].ver) else NoLeak(slots[i := vi], lists)
  {
    SlotWritten(slots, i, vi, lists, rows, hashOf);
    assert SlotOk(slots[i], lists, rows, hashOf);
    if Live(slots[i]) {
      assert InSlot(slots, slots[i].ver);
      OverwrittenIsGone(slots, i, vi, lists, rows, hashOf);
    }
    forall u | u in lists && !lists[u].deleted && (Live(slots[i]) ==> u != slots[i].ver)
      ensures InSlot(slots[i := vi], u)
    {
      SlotsAfterWrite(slots, i, vi, u);
    }
  }

  /** After the swap of del. */
  lemma DelDone(slots: seq<VerIdx>, i: nat, lists: map<nat, List>, rows: seq<Str>, hashOf: Str -> nat)
    requires Slots(slots, lists, rows, hashOf) && NoLeak(slots, lists) && i < |slots| && Live(slots[i])
    ensures Slots(slots[i := TOMBSTONE], lists, rows, hashOf)
    ensures TableOf(slots[i := TOMBSTONE], lists, rows) == TableOf(slots, lists, rows)[i := P.Deleted]
    ensures Loose(slots[i := TOMBSTONE], lists, slots[i].ver)
  {
    SlotWritten(slots, i, TOMBSTONE, lists, rows, hashOf);
    assert SlotOk(slots[i], lists, rows, hashOf);
    OverwrittenIsGone(slots, i, TOMBSTONE, lists, rows, hashOf);
    forall u | u in lists && !lists[u].deleted && u != slots[i].ver ensures InSlot(slots[i := TOMBSTONE], u) {
      SlotsAfterWrite(slots, i, TOMBSTONE, u);
    }
  }

  /** Freeing the list that is in no slot, or marking it deleted, leaves the table alone. */
  lemma FreeLeavesTable(slots: seq<VerIdx>, lists: map<nat, List>, lists': map<nat, List>, rows: seq<Str>,
                        hashOf: Str -> nat, v: nat)
    requires Slots(slots, lists, rows, hashOf) && Loose(slots, lists, v)
    requires lists' == lists - {v} || lists' == lists[v := lists[v].(deleted := true)]
    ensures Slots(slots, lists', rows, hashOf) && NoLeak(slots, lists')
    ensures TableOf(slots, lists', rows) == TableOf(slots, lists, rows)
  {
    forall i | 0 <= i < |slots| && Live(slots[i]) ensures slots[i].ver in lists && slots[i].ver != v {
      assert SlotOk(slots[i], lists, rows, hashOf);
    }
    SlotsFrame(slots, lists, rows, lists', rows, hashOf);
  }

  // ---------------------------------------------------------------- the table is never full

  /** Every live slot owns a block and a list that is in no slot owns another, so with as many slots as blocks
      put finds a slot that is free or holds its key. */
  lemma NeverFull(s: View, slots: seq<VerIdx>, rows: seq<Str>, hashOf: Str -> nat, v: nat, home: nat, k: Str)
    requires Consistent(s) && |slots| == |s.bls| && Slots(slots, s.lists, rows, hashOf)
    requires v in s.lists && !InSlot(slots, v) && home < |slots|
    ensures P.Slot(TableOf(slots, s.lists, rows), home, k, 0) < |slots|
  {
    var t, m := TableOf(slots, s.lists, rows), |slots|;
    if P.Slot(t, home, k, 0) == m {
      var heads := seq(m, i requires 0 <= i < m => slots[i].idx) + [s.lists[v].blks[0]];
      forall i | 0 <= i < m
        ensures Live(slots[i]) && slots[i].idx < m && slots[i].idx != s.lists[v].blks[0]
        ensures slots[i].ver in s.lists && ListOk(s, slots[i].ver) && RecOk(s, slots[i].ver, s.lists[slots[i].ver], 0)
      {
        SlotHead(s, slots, rows, hashOf, v, home, k, i);
      }
      forall i, j | 0 <= i < j < m ensures heads[i] != heads[j] {
        assert slots[i].ver != slots[j].ver && s.owner[heads[i]] == slots[i].ver && s.owner[heads[j]] == slots[j].ver;
      }
      assert ListOk(s, v) && RecOk(s, v, s.lists[v], 0);
      Pigeonhole(heads, m);
    }
  }

  lemma SlotHead(s: View, slots: seq<VerIdx>, rows: seq<Str>, hashOf: Str -> nat, v: nat, home: nat, k: Str, i: nat)
    requires Consistent(s) && |slots| == |s.bls| && Slots(slots, s.lists, rows, hashOf) && i < |slots|
    requires v in s.lists && !InSlot(slots, v) && home < |slots|
    requires P.Slot(TableOf(slots, s.lists, rows), home, k, 0) == |slots|
    ensures Live(slots[i]) && slots[i].ver in s.lists && ListOk(s, slots[i].ver)
    ensures RecOk(s, slots[i].ver, s.lists[slots[i].ver], 0) && s.lists[v].blks != []
    ensures slots[i].idx < |slots| && slots[i].idx != s.lists[v].blks[0]
  {
    var m := |slots|;
    var n := PosOf(m, home, i);
    assert Pos(m, home, n) == i;
    assert SlotOk(slots[i], s.lists, rows, hashOf);
    assert TableOf(slots, s.lists, rows)[i].Live?;
    assert ListOk(s, slots[i].ver) && RecOk(s, slots[i].ver, s.lists[slots[i].ver], 0);
    assert ListOk(s, v) && RecOk(s, v, s.lists[v], 0);
  }
}
