/** The hash table (`CncrHsh`): slots that name the lists of the store.  One call at a time. */
module HashTable {
  import opened Bytes
  import opened Options
  import opened Circle
  import opened Chains
  import opened Handles
  import opened Flats
  import opened BlockLists
  import opened Store
  import opened SlotTable
  import opened KeySearch
  import P = ProbeTable

  const SLOT_END: nat := LIST_END

  class CncrHsh {
    const m_sz: nat
    const csp: CncrStr
    const slots: array<VerIdx>
    const hashOf: Str -> nat

    ghost predicate Valid()
      reads this, slots, csp, csp.cl, csp.cl.lv, csp.bls, csp.blk
    {
      && csp.Valid()
      && 0 < m_sz == slots.Length == csp.blk.Length
      && Slots(slots[..], csp.lists, csp.blk[..], hashOf)
      && NoLeak(slots[..], csp.lists)
    }

    /** The slots as keys and values. */
    ghost function Table(): (t: P.Table)
      reads this, slots, csp, csp.blk
      ensures |t| == slots.Length
    {
      TableOf(slots[..], csp.lists, csp.blk[..])
    }

    ghost function Lookup(key: Str): Option<Str>
      requires Valid()
      reads this, slots, csp, csp.cl, csp.cl.lv, csp.bls, csp.blk
    {
      P.Lookup(Table(), Home(hashOf(key), m_sz), key)
    }

    /** The version of the list a lookup finds. */
    ghost function ListOf(key: Str): nat
      requires Valid() && Lookup(key).Some?
      reads this, slots, csp, csp.cl, csp.cl.lv, csp.bls, csp.blk
    {
      var home := Home(hashOf(key), m_sz);
      Table()[Pos(m_sz, home, P.Find(Table(), home, key, 0))].ver
    }

    function NxtIdx(i: nat): nat
      requires i < m_sz
    {
      Next(m_sz, i)
    }

    /** The source's min(i - 1, m_sz - 1), where i - 1 wraps around at 0. */
    function PrevIdx(i: nat): (r: nat)
      requires i < m_sz
      ensures r < m_sz && NxtIdx(r) == i && r == Pos(m_sz, i, m_sz - 1)
    {
      Prev(m_sz, i)
    }

    constructor (csp: CncrStr, hashOf: Str -> nat)
      requires csp.Valid() && csp.lists == map[] && 0 < csp.blk.Length
      ensures Valid() && this.csp == csp && this.hashOf == hashOf && fresh(slots)
      ensures Table() == seq(m_sz, _ => P.Empty)
    {
      m_sz := csp.blk.Length;
      this.csp := csp;
      this.hashOf := hashOf;
      slots := new VerIdx[csp.blk.Length](_ => NO_SLOT);
    }

    /** A slot's key against a key to find: never MATCH_REMOVED while one call runs at a time. */
    method CompareSlot(i: nat, key: Str, hash: nat) returns (m: Match)
      requires csp.Valid() && Slots(slots[..], csp.lists, csp.blk[..], hashOf) && i < slots.Length && Live(slots[i])
      requires hash == hashOf(key)
      modifies csp.bls
      ensures csp.Valid() && csp.View() == old(csp.View())
      ensures m == if P.Has(Table()[i], key) then MATCH_TRUE else MATCH_FALSE
    {
      assert SlotOk(slots[..][i], csp.lists, csp.blk[..], hashOf);
      assert ListOk(csp.View(), slots[i].ver);
      m := csp.Compare(slots[i], key, hash);
    }

    /** Puts a handle into the first slot, from the home of the key on, that is free or holds the key, and
        returns what was there.  If there is no such slot it returns EMPTY and changes nothing. */
    method PutHashed(hash: nat, lstVi: VerIdx, key: Str) returns (vi: VerIdx)
      requires csp.Valid() && 0 < m_sz == slots.Length && Slots(slots[..], csp.lists, csp.blk[..], hashOf)
      requires hash == hashOf(key)
      modifies slots, csp.bls
      ensures csp.Valid() && csp.View() == old(csp.View())
      ensures var j := P.Slot(old(Table()), Home(hash, m_sz), key, 0);
        if j < m_sz then
          var i := Pos(m_sz, Home(hash, m_sz), j);
          slots[..] == old(slots[..])[i := lstVi] && vi == old(slots[i])
        else
          slots[..] == old(slots[..]) && vi == NO_SLOT
    {
      var home := Home(hash, m_sz);
      var i, en := home, PrevIdx(home);
      ghost var t, j := Table(), 0;
      while true
        invariant csp.Valid() && csp.View() == old(csp.View()) && slots[..] == old(slots[..])
        invariant j < m_sz && i == Pos(m_sz, home, j)
        invariant P.Slot(t, home, key, j) == P.Slot(t, home, key, 0)
        decreases m_sz - j
      {
        vi := slots[i];
        assert t[i] == EntryOf(vi, csp.lists, csp.blk[..]) && SlotOk(slots[..][i], csp.lists, csp.blk[..], hashOf);
        if vi.idx >= DELETED {
          slots[i] := lstVi;
          return;
        }
        var m := CompareSlot(i, key, hash);
        if m == MATCH_TRUE {
          slots[i] := lstVi;
          return;
        }
        if i == en { return NO_SLOT; }
        i := NxtIdx(i);
        j := j + 1;
      }
    }

    /** Probes for a key around the whole table, and answers with the slot that holds it, if there is one. */
    method RunMatch(key: Str, hash: nat) returns (found: bool, i: nat)
      requires csp.Valid() && 0 < m_sz == slots.Length && Slots(slots[..], csp.lists, csp.blk[..], hashOf)
      requires hash == hashOf(key)
      modifies csp.bls
      ensures csp.Valid() && csp.View() == old(csp.View())
      ensures var j := P.Find(Table(), Home(hash, m_sz), key, 0);
        (found <==> j < m_sz) && (found ==> i == Pos(m_sz, Home(hash, m_sz), j))
    {
      var home := Home(hash, m_sz);
      var en := PrevIdx(home);
      i := home;
      ghost var t, j := Table(), 0;
      while true
        invariant csp.Valid() && csp.View() == old(csp.View())
        invariant j < m_sz && i == Pos(m_sz, home, j)
        invariant P.Find(t, home, key, j) == P.Find(t, home, key, 0)
        decreases m_sz - j
      {
        assert t[i] == EntryOf(slots[i], csp.lists, csp.blk[..]) && SlotOk(slots[..][i], csp.lists, csp.blk[..], hashOf);
        if slots[i].idx != EMPTY && slots[i].idx != DELETED {
          var m := CompareSlot(i, key, hash);
          if m == MATCH_TRUE { return true, i; }
        }
        if i == en { return false, i; }
        i := NxtIdx(i);
        j := j + 1;
      }
    }

    /** Marks the first slot that holds the key deleted and returns what it held; the slot probed last is never
        looked at. */
    method DelHashed(key: Str, hash: nat) returns (vi: VerIdx)
      requires csp.Valid() && 0 < m_sz == slots.Length && Slots(slots[..], csp.lists, csp.blk[..], hashOf)
      requires hash == hashOf(key)
      modifies slots, csp.bls
      ensures csp.Valid() && csp.View() == old(csp.View())
      ensures var j := P.Find(old(Table()), Home(hash, m_sz), key, 0);
        if j + 1 < m_sz then
          var i := Pos(m_sz, Home(hash, m_sz), j);
          slots[..] == old(slots[..])[i := TOMBSTONE] && vi == old(slots[i])
        else
          slots[..] == old(slots[..]) && vi == NO_SLOT
    {
      var home := Home(hash, m_sz);
      var i, en := home, PrevIdx(home);
      ghost var t, j := Table(), 0;
      while i != en
        invariant csp.Valid() && csp.View() == old(csp.View()) && slots[..] == old(slots[..])
        invariant j < m_sz && i == Pos(m_sz, home, j)
        invariant P.Find(t, home, key, j) == P.Find(t, home, key, 0)
        decreases m_sz - j
      {
        vi := slots[i];
        assert t[i] == EntryOf(vi, csp.lists, csp.blk[..]) && SlotOk(slots[..][i], csp.lists, csp.blk[..], hashOf);
        if vi.idx < DELETED {
          var m := CompareSlot(i, key, hash);
          if m == MATCH_TRUE {
            slots[i] := TOMBSTONE;
            return;
          }
          if m == MATCH_REMOVED || i == en { return NO_SLOT; }
        }
        i := NxtIdx(i);
        j := j + 1;
      }
      vi := NO_SLOT;
    }

    /** The entry of a key, when it is in a slot. */
    lemma FoundEntry(key: Str)
      requires Valid()
      ensures var j := P.Find(Table(), Home(hashOf(key), m_sz), key, 0);
        j < m_sz ==>
          var i := Pos(m_sz, Home(hashOf(key), m_sz), j);
          var vi := slots[i];
          && csp.Accepts(vi) && csp.Known(vi) && csp.KeyOf(vi.ver) == key
          && Table()[i] == P.Live(vi.ver, key, csp.ValOf(vi.ver)) && Lookup(key) == Some(csp.ValOf(vi.ver))
      ensures Lookup(key) == None <==> P.Find(Table(), Home(hashOf(key), m_sz), key, 0) == m_sz
    {
      var j := P.Find(Table(), Home(hashOf(key), m_sz), key, 0);
      if j < m_sz {
        var i := Pos(m_sz, Home(hashOf(key), m_sz), j);
        assert SlotOk(slots[..][i], csp.lists, csp.blk[..], hashOf);
        assert ListOk(csp.View(), slots[i].ver);
      }
    }

    /** RunMatch, in terms of what is stored. */
    method FindSlot(key: Str) returns (found: bool, i: nat)
      requires Valid()
      modifies csp.bls
      ensures Valid() && csp.View() == old(csp.View()) && Table() == old(Table())
      ensures found <==> Lookup(key).Some?
      ensures found ==> i < m_sz && Live(slots[i]) && slots[i].ver in csp.lists && slots[i].ver == old(ListOf(key))
      ensures found ==> var l := csp.lists[slots[i].ver];
        Stored(csp.blk[..], l) && |key| == l.klen && Lookup(key) == Some(ValIn(csp.blk[..], l))
    {
      FoundEntry(key);
      found, i := RunMatch(key, hashOf(key));
      if found { SlotAccepts(i); }
    }

    /** len: the lengths of a key and its value together, and of the value; 0 for a key that is not there. */
    method Len(key: Str) returns (len: nat, vlen: nat)
      requires Valid()
      modifies csp.bls
      ensures Valid() && csp.View() == old(csp.View()) && Table() == old(Table())
      ensures if key == [] then (len, vlen) == (0, 0) else
        match Lookup(key)
        case None => (len, vlen) == (0, 0)
        case Some(val) => (len, vlen) == (|key| + |val|, |val|)
    {
      if |key| < 1 { return 0, 0; }
      var found, i := FindSlot(key);
      if !found { return 0, 0; }
      len, vlen := LenOfSlot(i);
    }

    method LenOfSlot(i: nat) returns (len: nat, vlen: nat)
      requires Valid() && i < m_sz && Live(slots[i])
      ensures slots[i].ver in csp.lists
      ensures var l := csp.lists[slots[i].ver]; (len, vlen) == (l.klen + l.vlen, l.vlen)
    {
      SlotAccepts(i);
      len, vlen := csp.Len(slots[i]);
    }

    lemma SlotAccepts(i: nat)
      requires Valid() && i < m_sz && Live(slots[i])
      ensures csp.Accepts(slots[i]) && csp.Known(slots[i]) && Stored(csp.blk[..], csp.lists[slots[i].ver])
    {
      assert SlotOk(slots[..][i], csp.lists, csp.blk[..], hashOf);
      assert ListOk(csp.View(), slots[i].ver);
    }

    /** The get of the store, for the list in slot i. */
    method GetSlot(i: nat, maxlen: nat) returns (out: Str)
      requires Valid() && i < m_sz && Live(slots[i])
      modifies csp, csp.bls
      ensures Valid() && Table() == old(Table())
      ensures ValueRead(old(csp.View()), csp.View(), csp.blk[..], slots[i].ver, maxlen, out)
    {
      ghost var lists, v := csp.lists, slots[i].ver;
      SlotAccepts(i);
      out := ReadList(slots[i], maxlen);
      if maxlen < lists[v].vlen { ReaderFrame(slots[..], lists, csp.lists, csp.blk[..], hashOf, v); }
    }

    method ReadList(vi: VerIdx, maxlen: nat) returns (out: Str)
      requires csp.Valid() && csp.Accepts(vi) && csp.Known(vi) && Stored(csp.blk[..], csp.lists[vi.ver])
      modifies csp, csp.bls
      ensures csp.Valid() && ValueRead(old(csp.View()), csp.View(), csp.blk[..], vi.ver, maxlen, out)
      ensures var l := old(csp.lists[vi.ver]);
        csp.lists == if maxlen < l.vlen then old(csp.lists)[vi.ver := l.(readers := l.readers + 1)] else old(csp.lists)
    {
      ghost var was := csp.View();
      out := csp.Get(vi, maxlen);
      ReadIsValue(was, csp.View(), csp.blk[..], vi.ver, maxlen, out);
    }

    /** get.  A buffer of just the length of the value receives the value.  A larger one may receive more bytes
        behind it; a smaller one receives nothing, and the list keeps a reader that no one will drop. */
    method Get(key: Str, maxlen: nat) returns (found: bool, out: Str)
      requires Valid()
      modifies csp, csp.bls
      ensures Valid() && Table() == old(Table())
      ensures found <==> key != [] && old(Lookup(key)).Some?
      ensures !found ==> out == [] && csp.View() == old(csp.View())
      ensures found ==> ValueRead(old(csp.View()), csp.View(), csp.blk[..], old(ListOf(key)), maxlen, out)
      ensures found && |old(Lookup(key)).value| <= maxlen ==> old(Lookup(key)).value <= out && |out| <= maxlen
    {
      if |key| < 1 { return false, []; }
      FoundEntry(key);
      var i;
      found, i := RunMatch(key, hashOf(key));
      if !found { return false, []; }
      out := GetSlot(i, maxlen);
    }

    /** No list is held by a reader. */
    ghost predicate Settled()
      reads csp
    {
      forall v | v in csp.lists :: csp.lists[v].readers == 0
    }

    /** The first half of put: a list for key and value, which no slot names yet.  Behind a key that fills its last
        block the value is not written, and whatever w those bytes held stays. */
    method NewList(key: Str, val: Str, hash: nat) returns (lstVi: VerIdx, ghost w: Str)
      requires Valid() && 0 < |key| && 0 < |val| && hash == hashOf(key)
      requires Jagged(csp.blockSize, |key|) || |val| <= csp.blockSize
      requires csp.Short(|key| + |val|) ==> csp.Ends()
      modifies csp, csp.cl, csp.cl.lv, csp.bls, csp.blk
      ensures !old(csp.Enough(|key| + |val|)) ==>
        lstVi.idx == LIST_END && csp.lists == old(csp.lists) && Table() == old(Table())
      ensures old(csp.cl.free) == [] ==> Valid() && csp.View() == old(csp.View())
      ensures old(csp.Short(|key| + |val|)) ==>
        && (Valid() <==> old(csp.Restores()))
        && (|old(csp.cl.free)| > 1 ==> ShortFreed(old(csp.View()), csp.View()))
      ensures old(csp.Enough(|key| + |val|)) ==>
        && csp.Valid() && lstVi.idx < csp.blk.Length && lstVi.ver == old(csp.version)
        && csp.version == old(csp.version) + 1
        && lstVi.ver in csp.lists
        && csp.lists == old(csp.lists)[lstVi.ver := csp.lists[lstVi.ver]] && csp.lists[lstVi.ver].readers == 0
        && Slots(slots[..], csp.lists, csp.blk[..], hashOf) && Loose(slots[..], csp.lists, lstVi.ver)
        && SlotOk(lstVi, csp.lists, csp.blk[..], hashOf) && Table() == old(Table())
        && EntryOf(lstVi, csp.lists, csp.blk[..]) == P.Live(lstVi.ver, key, w)
        && |w| == |val| && (Jagged(csp.blockSize, |key|) ==> w == val)
    {
      ghost var was, rows := csp.View(), csp.blk[..];
      lstVi := csp.Alloc(|key| + |val|, |key|, hash);
      w := val;
      if lstVi.idx == LIST_END { return; }
      ghost var v, now := lstVi.ver, csp.View();
      AllocLeavesTable(was, now, |now.lists[v].blks|, now.lists[v], slots[..], rows, hashOf);
      w := FillList(lstVi, key, val);
    }

    /** The bytes of a list that no slot names yet. */
    method FillList(lstVi: VerIdx, key: Str, val: Str) returns (ghost w: Str)
      requires csp.Valid() && 0 < m_sz == slots.Length == csp.blk.Length && csp.Accepts(lstVi)
      requires Slots(slots[..], csp.lists, csp.blk[..], hashOf) && Loose(slots[..], csp.lists, lstVi.ver)
      requires var l := csp.lists[lstVi.ver]; |key| == l.klen && |val| == l.vlen && l.hash == hashOf(key)
      requires Jagged(csp.blockSize, |key|) || |val| <= csp.blockSize
      modifies csp.blk
      ensures csp.Valid() && csp.View() == old(csp.View()) && Table() == old(Table())
      ensures Slots(slots[..], csp.lists, csp.blk[..], hashOf) && SlotOk(lstVi, csp.lists, csp.blk[..], hashOf)
      ensures EntryOf(lstVi, csp.lists, csp.blk[..]) == P.Live(lstVi.ver, key, w)
      ensures |w| == |val| && (Jagged(csp.blockSize, |key|) ==> w == val)
    {
      ghost var rows, v := csp.blk[..], lstVi.ver;
      csp.Put(lstVi.idx, key, val, v);
      w := csp.ValOf(v);
      csp.ContentLen(v);
      forall u | u in csp.lists && u != v ensures SameBytes(rows, csp.blk[..], csp.lists[u].blks) {
      }
      WriteLeavesTable(slots[..], csp.lists, rows, csp.blk[..], hashOf, v);
    }

    /** Frees what a slot held before it was overwritten, if that was a list. */
    method FreeOld(vi: VerIdx)
      requires csp.Valid() && 0 < m_sz == slots.Length == csp.blk.Length
      requires Slots(slots[..], csp.lists, csp.blk[..], hashOf)
      requires if Live(vi) then Loose(slots[..], csp.lists, vi.ver) && csp.Known(vi) else NoLeak(slots[..], csp.lists)
      modifies csp, csp.cl, csp.cl.lv, csp.bls
      ensures Valid() && Table() == old(Table())
      ensures !Live(vi) ==> csp.View() == old(csp.View())
      ensures Live(vi) ==>
        if old(csp.lists[vi.ver].readers) == 0 then Freed(old(csp.View()), csp.View(), vi.ver)
        else Flagged(old(csp.View()), csp.View(), vi.ver, old(csp.lists[vi.ver].readers), true)
    {
      if vi.idx < DELETED {
        ghost var lists := csp.lists;
        var _ := csp.Free(vi.idx, vi.ver);
        FreeLeavesTable(slots[..], lists, csp.lists, csp.blk[..], hashOf, vi.ver);
      }
    }

    /** The second half of put: the new list goes into a slot, and what was there is freed. */
    method Install(key: Str, hash: nat, lstVi: VerIdx, ghost e: P.Entry)
      requires csp.Valid() && 0 < m_sz == slots.Length == csp.blk.Length && hash == hashOf(key)
      requires Slots(slots[..], csp.lists, csp.blk[..], hashOf) && Loose(slots[..], csp.lists, lstVi.ver)
      requires Live(lstVi) && SlotOk(lstVi, csp.lists, csp.blk[..], hashOf)
      requires EntryOf(lstVi, csp.lists, csp.blk[..]) == e && e.Live? && e.key == key
      modifies slots, csp, csp.cl, csp.cl.lv, csp.bls
      ensures Valid()
      ensures P.Slot(old(Table()), Home(hash, m_sz), key, 0) < m_sz
      ensures Table() == P.Put(old(Table()), Home(hash, m_sz), e)
      ensures old(Settled()) ==> Settled()
    {
      ghost var home, t, was := Home(hash, m_sz), Table(), slots[..];
      ghost var lists, rows := csp.lists, csp.blk[..];
      NeverFull(csp.View(), was, rows, hashOf, lstVi.ver, home, key);
      ghost var i := Pos(m_sz, home, P.Slot(t, home, key, 0));
      var vi := PutHashed(hash, lstVi, key);
      SwapDone(was, i, lstVi, lists, rows, hashOf);
      if Live(vi) { assert ListOk(csp.View(), vi.ver); }
      FreeOld(vi);
    }

    /** put.  It fails only when there are not enough free blocks, and otherwise the table takes the key with its
        value: the value that was passed, for a key that does not fill its last block.  A failed put may damage the
        store, when there were some free blocks. */
    method Put(key: Str, val: Str) returns (ok: bool, ghost w: Str)
      requires Valid() && 0 < |key| && 0 < |val|
      requires Jagged(csp.blockSize, |key|) || |val| <= csp.blockSize
      requires csp.Short(|key| + |val|) ==> csp.Ends()
      modifies slots, csp, csp.cl, csp.cl.lv, csp.bls, csp.blk
      ensures ok <==> old(csp.Enough(|key| + |val|))
      ensures !old(csp.Short(|key| + |val|)) ==> Valid()
      ensures !ok ==> csp.lists == old(csp.lists) && Table() == old(Table())
      ensures old(csp.cl.free) == [] ==> csp.View() == old(csp.View())
      ensures old(csp.Short(|key| + |val|)) ==>
        && (Valid() <==> old(csp.Restores()))
        && (|old(csp.cl.free)| > 1 ==> ShortFreed(old(csp.View()), csp.View()))
      ensures ok ==>
        var home := Home(hashOf(key), m_sz);
        && P.Slot(old(Table()), home, key, 0) < m_sz
        && Table() == P.Put(old(Table()), home, P.Live(old(csp.version), key, w))
        && |w| == |val| && (Jagged(csp.blockSize, |key|) ==> w == val)
      ensures old(Settled()) ==> Settled()
    {
      var hash, lstVi := hashOf(key), NO_SLOT;
      lstVi, w := NewList(key, val, hash);
      if lstVi.idx == LIST_END { return false, w; }
      Install(key, hash, lstVi, P.Live(lstVi.ver, key, w));
      ok := true;
    }

    /** del.  It answers whether it freed, or left to its readers, a list that held the key. */
    method Del(key: Str) returns (ok: bool)
      requires Valid()
      modifies slots, csp, csp.cl, csp.cl.lv, csp.bls
      ensures Valid() && Table() == P.Del(old(Table()), Home(hashOf(key), m_sz), key)
      ensures ok <==> P.Find(old(Table()), Home(hashOf(key), m_sz), key, 0) + 1 < m_sz
      ensures !ok ==> csp.View() == old(csp.View())
      ensures old(Settled()) ==> Settled()
    {
      ghost var home := Home(hashOf(key), m_sz);
      ghost var t, was, lists, rows := Table(), slots[..], csp.lists, csp.blk[..];
      var vi := DelHashed(key, hashOf(key));
      ghost var j := P.Find(t, home, key, 0);
      if j + 1 < m_sz {
        assert SlotOk(was[Pos(m_sz, home, j)], lists, rows, hashOf);
        DelDone(was, Pos(m_sz, home, j), lists, rows, hashOf);
        assert ListOk(csp.View(), vi.ver);
      }
      FreeOld(vi);
      ok := vi.idx < DELETED;
    }

    /** The first live slot, in a circle from stIdx; SLOT_END if there is none. */
    method Nxt(stIdx: nat) returns (idx: nat)
      requires Valid() && stIdx < m_sz
      ensures var j := FirstLive(slots[..], stIdx, 0);
        idx == if j < m_sz then Pos(m_sz, stIdx, j) else SLOT_END
    {
      idx := stIdx;
      ghost var j := 0;
      while true
        invariant j < m_sz && idx == Pos(m_sz, stIdx, j)
        invariant FirstLive(slots[..], stIdx, j) == FirstLive(slots[..], stIdx, 0)
        decreases m_sz - j
      {
        if slots[idx].idx < DELETED { return; }
        idx := NxtIdx(idx);
        j := j + 1;
        if idx == stIdx { return SLOT_END; }
      }
    }

    /** With no reader left behind, free blocks and the blocks of the lists in the slots partition all blocks. */
    lemma NothingIsLost(b: nat)
      requires Valid() && Settled() && b < csp.blk.Length
      ensures b !in csp.cl.free <==>
        exists i | 0 <= i < m_sz :: Live(slots[i]) && slots[i].ver in csp.lists && b in csp.lists[slots[i].ver].blks
    {
      var s := csp.View();
      BlocksArePartitioned(s, b);
      forall i | 0 <= i < m_sz ensures SlotOk(slots[i], csp.lists, csp.blk[..], hashOf) {
        assert SlotOk(slots[..][i], csp.lists, csp.blk[..], hashOf);
      }
      if b !in csp.cl.free {
        var v :| v in s.lists && b in s.lists[v].blks;
        assert ListOk(s, v) && InSlot(slots[..], v);
        var i :| 0 <= i < m_sz && Live(slots[..][i]) && slots[..][i].ver == v;
        assert slots[i] == slots[..][i];
      }
    }
  }
}
