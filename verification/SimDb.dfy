/** The map facade (`simdb`): strings to strings, and the enumeration of its keys.  One call at a time. */
module SimDb {
  import opened Bytes
  import opened Options
  import opened Circle
  import opened Handles
  import opened Flats
  import opened BlockLists
  import opened Store
  import opened SlotTable
  import opened HashTable
  import opened KeySearch
  import opened KeyLap
  import opened StartUp
  import P = ProbeTable

  class simdb {
    const s_cs: CncrStr
    const s_ch: CncrHsh
    const m_blkCnt: nat
    var m_nxtChIdx: nat

    ghost predicate Valid()
      reads this, s_ch, s_ch.slots, s_cs, s_cs.cl, s_cs.cl.lv, s_cs.bls, s_cs.blk
    {
      s_ch.csp == s_cs && s_ch.Valid() && m_blkCnt == s_ch.m_sz && m_nxtChIdx < m_blkCnt
    }

    /** What the store holds for a key. */
    ghost function Lookup(key: Str): Option<Str>
      requires Valid()
      reads this, s_ch, s_ch.slots, s_cs, s_cs.cl, s_cs.cl.lv, s_cs.bls, s_cs.blk
    {
      s_ch.Lookup(key)
    }

    constructor (blockSize: nat, blockCount: nat, hashOf: Str -> nat)
      requires 4 < blockSize && 0 < blockCount < DELETED
      ensures Valid() && fresh(s_ch) && fresh(s_ch.slots) && fresh(s_cs) && fresh(s_cs.cl) && fresh(s_cs.cl.lv)
      ensures fresh(s_cs.bls) && fresh(s_cs.blk) && s_ch.hashOf == hashOf && s_cs.blockSize == blockSize
      ensures |s_cs.cl.free| == m_blkCnt == blockCount && s_ch.Settled()
      ensures forall key :: Lookup(key) == None
    {
      var cs := new CncrStr(blockSize, blockCount);
      s_cs := cs;
      s_ch := new CncrHsh(cs, hashOf);
      m_blkCnt := blockCount;
      m_nxtChIdx := 0;
    }

    /** put, for strings.  With enough free blocks the map takes the key; its value is the one passed behind a key that
        does not fill its last block, and otherwise whatever bytes w the blocks held.  With too few the map stays as it
        was, and so does the store if there were none or alloc restores it, and only then. */
    method Put(key: Str, value: Str) returns (ok: bool, ghost w: Str)
      requires Valid() && 0 < |key| && 0 < |value|
      requires Jagged(s_cs.blockSize, |key|) || |value| <= s_cs.blockSize
      requires s_cs.Short(|key| + |value|) ==> s_cs.Ends()
      modifies s_ch.slots, s_cs, s_cs.cl, s_cs.cl.lv, s_cs.bls, s_cs.blk
      ensures (ok <==> old(s_cs.Enough(|key| + |value|))) && m_nxtChIdx == old(m_nxtChIdx)
      ensures Valid() <==> (old(s_cs.Short(|key| + |value|)) ==> old(s_cs.Restores()))
      ensures Valid() ==> forall k :: Lookup(k) == if ok && k == key then Some(w) else old(Lookup(k))
      ensures ok ==> |w| == |value| && (Jagged(s_cs.blockSize, |key|) ==> w == value)
      ensures old(s_ch.Settled()) ==> s_ch.Settled()
    {
      ghost var t, home := s_ch.Table(), Home(s_ch.hashOf(key), s_ch.m_sz);
      ghost var ver := s_cs.version;
      ok, w := s_ch.Put(key, value);
      if ok { P.PutIsUpdate(t, home, P.Live(ver, key, w)); }
    }

    /** get, for strings: asks for the length of the value first, and answers "" for a key that is not there. */
    method Get(key: Str) returns (ok: bool, out: Str)
      requires Valid()
      modifies s_cs, s_cs.bls
      ensures Valid() && s_cs.View() == old(s_cs.View()) && forall k :: Lookup(k) == old(Lookup(k))
      ensures ok <==> key != [] && old(Lookup(key)).Some?
      ensures out == if ok then old(Lookup(key)).value else []
    {
      var _, vlen := s_ch.Len(key);
      ok, out := s_ch.Get(key, vlen);
    }

    /** del.  It takes its key out of the map exactly when that is in one slot at most, and not in the slot probed
        last; no other key notices. */
    method Del(key: Str) returns (ok: bool)
      requires Valid()
      modifies s_ch.slots, s_cs, s_cs.cl, s_cs.cl.lv, s_cs.bls
      ensures Valid() && m_nxtChIdx == old(m_nxtChIdx)
      ensures forall k | k != key :: Lookup(k) == old(Lookup(k))
      ensures Lookup(key) == None <==>
        P.Removable(old(s_ch.Table()), Home(s_ch.hashOf(key), s_ch.m_sz), key)
      ensures s_ch.Table() == P.Del(old(s_ch.Table()), Home(s_ch.hashOf(key), s_ch.m_sz), key)
      ensures ok ==> old(Lookup(key)).Some?
      ensures old(s_ch.Settled()) ==> s_ch.Settled()
    {
      P.DelIsRemoval(s_ch.Table(), Home(s_ch.hashOf(key), s_ch.m_sz), key);
      ok := s_ch.Del(key);
    }

    // ---------------------------------------------------------------- enumeration

    method Nxt() returns (vi: VerIdx)
      requires Valid()
      modifies this`m_nxtChIdx
      ensures Valid()
      ensures var m, st := m_blkCnt, old(m_nxtChIdx);
        var j := FirstLive(s_ch.slots[..], st, 0);
        && m_nxtChIdx == Next(m, if j < m then Pos(m, st, j) else st)
        && vi == if j < m then s_ch.slots[Pos(m, st, j)] else NO_SLOT
    {
      vi := NO_SLOT;
      var chNxt := s_ch.Nxt(m_nxtChIdx);
      if chNxt != SLOT_END {
        m_nxtChIdx := s_ch.NxtIdx(chNxt);
        vi := s_ch.slots[chNxt];
      } else {
        m_nxtChIdx := s_ch.NxtIdx(m_nxtChIdx);
      }
    }

    /** The key of the list in slot i, if it has no zero byte. */
    method KeyOfSlot(i: nat, version: nat) returns (key: Str)
      requires Valid() && i < m_blkCnt && Live(s_ch.slots[i]) && s_ch.slots[i].ver == version
      modifies s_cs, s_cs.bls
      ensures Valid() && s_cs.View() == old(s_cs.View())
      ensures KeyAt(s_ch.Table(), i) == if key == [] then None else Some(VerStr(version, key))
    {
      var vi := s_ch.slots[i];
      assert SlotOk(s_ch.slots[..][i], s_cs.lists, s_cs.blk[..], s_ch.hashOf);
      assert ListOk(s_cs.View(), version);
      var total, vlen := s_cs.Len(vi);
      if total == 0 { return []; }
      var buf := s_cs.GetKey(vi, total - vlen);
      key := buf[..total - vlen];
      assert key == s_cs.KeyOf(version) && s_ch.Table()[i].key == key;
      if 0 in key { key := []; }
    }

    method NxtKey() returns (key: VerStr, searched: nat)
      requires Valid()
      modifies this, s_cs, s_cs.bls
      ensures Valid() && s_cs.View() == old(s_cs.View()) && s_ch.Table() == old(s_ch.Table())
      ensures NextKey(s_ch.slots[..], s_ch.Table(), old(m_nxtChIdx)) ==
        Round(m_nxtChIdx, searched, if key.str == [] then None else Some(key))
    {
      var prev := m_nxtChIdx;
      var vi := Nxt();
      var inxt := m_nxtChIdx;
      var cur := s_ch.PrevIdx(inxt);
      searched := if inxt - prev - 1 > 0 then inxt - prev - 1 else m_blkCnt - prev + inxt;
      if vi.idx >= DELETED { return VerStr(vi.ver, []), searched; }
      var str := KeyOfSlot(cur, vi.ver);
      key := VerStr(vi.ver, str);
    }

    lemma LiveEntries()
      requires Valid()
      ensures forall i | 0 <= i < m_blkCnt :: Live(s_ch.slots[..][i]) <==> s_ch.Table()[i].Live?
    {
      forall i | 0 <= i < m_blkCnt ensures Live(s_ch.slots[..][i]) <==> s_ch.Table()[i].Live? {
        assert SlotOk(s_ch.slots[..][i], s_cs.lists, s_cs.blk[..], s_ch.hashOf);
      }
    }

    /** The sorted keys of at most blockCount rounds: all of them, but those with a zero byte, if the lap from where
        the last search ended is complete. */
    method GetKeyStrs() returns (keys: seq<VerStr>)
      requires Valid()
      modifies this, s_cs, s_cs.bls
      ensures Valid() && s_cs.View() == old(s_cs.View())
      ensures keys == Keys(s_ch.slots[..], s_ch.Table(), old(m_nxtChIdx), 0, [])
      ensures Sorted(keys) && forall x | x in keys ::
        x.str != [] && 0 !in x.str
        && exists i :: 0 <= i < m_blkCnt &&
             s_ch.Table()[i].Live? && s_ch.Table()[i].key == x.str && s_ch.Table()[i].ver == x.ver
      ensures Complete(s_ch.slots[..], old(m_nxtChIdx)) ==> AllListed(s_ch.Table(), keys)
      ensures AllListed(s_ch.Table(), keys) <==>
        forall e | e in s_ch.Table() && e.Live? && e.key != [] && 0 !in e.key :: exists x :: x in keys && x.str == e.key
      ensures KeysDiffer(s_ch.Table()) && AllListed(s_ch.Table(), keys) ==> Complete(s_ch.slots[..], old(m_nxtChIdx))
      ensures s_ch.Table() == old(s_ch.Table())
    {
      ghost var slots, t := s_ch.slots[..], s_ch.Table();
      KeysAreSound(slots, t, m_nxtChIdx, 0, []);
      LiveEntries();
      AllKeysIffComplete(slots, t, m_nxtChIdx);
      KeysReturn(slots, t);
      keys := AllRounds(slots, t, KeysFrom(slots, t));
      ListedIs(t, keys);
    }

    /** The loop of getKeyStrs. */
    method AllRounds(
      ghost slots: seq<VerIdx>, ghost t: P.Table, ghost k: (nat, nat, seq<VerStr>) -> seq<VerStr>)
      returns (keys: seq<VerStr>)
      requires Valid() && slots == s_ch.slots[..] && t == s_ch.Table() && Returns(k, slots, t)
      modifies this, s_cs, s_cs.bls
      ensures Valid() && s_cs.View() == old(s_cs.View()) && s_ch.Table() == t
      ensures keys == k(old(m_nxtChIdx), 0, [])
    {
      keys := [];
      var srchCnt := 0;
      ghost var all := k(m_nxtChIdx, srchCnt, keys);
      while srchCnt < m_blkCnt
        invariant Valid() && s_cs.View() == old(s_cs.View()) && s_ch.Table() == t
        invariant k(m_nxtChIdx, srchCnt, keys) == all
        decreases m_blkCnt - srchCnt
      {
        ghost var n, cnt, was := NextKey(slots, t, m_nxtChIdx), srchCnt, keys;
        assert RoundReturns(k, n, m_nxtChIdx, cnt, was);
        keys, srchCnt := OneRound(keys, srchCnt, slots, t);
        assert k(m_nxtChIdx, srchCnt, keys) == k(n.next, cnt + n.searched, Add(was, n.key));
      }
    }

    method OneRound(keys: seq<VerStr>, srchCnt: nat, ghost slots: seq<VerIdx>, ghost t: P.Table)
      returns (keys': seq<VerStr>, srchCnt': nat)
      requires Valid() && slots == s_ch.slots[..] && t == s_ch.Table() && srchCnt < m_blkCnt
      modifies this, s_cs, s_cs.bls
      ensures Valid() && s_cs.View() == old(s_cs.View()) && s_ch.Table() == t && srchCnt' > srchCnt
      ensures var n := NextKey(slots, t, old(m_nxtChIdx));
        m_nxtChIdx == n.next && srchCnt' == srchCnt + n.searched && keys' == Add(keys, n.key)
    {
      ghost var n := NextKey(slots, t, m_nxtChIdx);
      var nxt, searched := NxtKey();
      assert n == Round(m_nxtChIdx, searched, if nxt.str == [] then None else Some(nxt));
      keys' := if |nxt.str| > 0 then Insert(keys, nxt) else keys;
      srchCnt' := srchCnt + searched;
    }

    /** What a transactor does when it starts: deletes every key it is told of. */
    method DeleteAll()
      requires Valid()
      modifies this, s_ch.slots, s_cs, s_cs.cl, s_cs.cl.lv, s_cs.bls
      ensures Valid()
      ensures var t := old(s_ch.Table());
        s_ch.Table() == Cleared(t, s_ch.hashOf, Keys(old(s_ch.slots[..]), t, old(m_nxtChIdx), 0, []))
      ensures old(s_ch.Settled()) ==> s_ch.Settled()
    {
      var keys := GetKeyStrs();
      DeleteEach(keys);
    }

    method DeleteEach(keys: seq<VerStr>)
      requires Valid()
      modifies s_ch.slots, s_cs, s_cs.cl, s_cs.cl.lv, s_cs.bls
      ensures Valid() && s_ch.Table() == Cleared(old(s_ch.Table()), s_ch.hashOf, keys)
      ensures old(s_ch.Settled()) ==> s_ch.Settled()
    {
      ghost var t := s_ch.Table();
      for i := 0 to |keys|
        invariant Valid() && s_ch.Table() == Cleared(t, s_ch.hashOf, keys[..i])
        invariant old(s_ch.Settled()) ==> s_ch.Settled()
      {
        ClearedNext(t, s_ch.hashOf, keys, i);
        DeleteOne(keys[i].str);
      }
      assert keys[..|keys|] == keys;
    }

    method DeleteOne(key: Str)
      requires Valid()
      modifies s_ch.slots, s_cs, s_cs.cl, s_cs.cl.lv, s_cs.bls
      ensures Valid() && s_ch.Table() == P.Del(old(s_ch.Table()), Home(s_ch.hashOf(key), s_ch.m_sz), key)
      ensures old(s_ch.Settled()) ==> s_ch.Settled()
    {
      var _ := Del(key);
    }
  }
}
