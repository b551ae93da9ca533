/** The block store (`CncrStr`): lists of blocks that hold a key followed by a value.  One call at a time. */
module Store {
  import opened Bytes
  import opened Chains
  import opened Handles
  import opened Flats
  import opened BlockLists
  import opened FreeList

  datatype Match = MATCH_FALSE | MATCH_TRUE | MATCH_REMOVED

  const NO_LIST := BlkLst(false, false, 0, 0, 0, 0, 0, 0)

  class CncrStr {
    const blockSize: nat
    const cl: CncrLst
    const bls: array<BlkLst>
    const blk: array<Str>      // the block area: blk[b] is the blockSize bytes of block b
    var version: nat           // the version the next list gets
    ghost var owner: seq<nat>
    ghost var lists: map<nat, List>
    ghost var heads: map<nat, nat>

    ghost function View(): View
      reads this, cl, cl.lv, bls
    {
      BlockLists.View(blockSize, cl.lv[..], cl.free, bls[..], version, owner, lists, heads)
    }

    ghost predicate Valid()
      reads this, cl, cl.lv, bls, blk
    {
      && cl.Valid()
      && cl.lv.Length == blk.Length
      && Consistent(View())
      && Rows(blockSize, blk[..])
    }

    /** The key and value bytes of list v, and whatever pads its last block. */
    ghost function Content(v: nat): Str
      requires Valid() && v in lists
      reads this, cl, cl.lv, bls, blk
    {
      ListIsIn(View(), blk[..], v);
      Flat(blk[..], lists[v].blks)
    }

    lemma ContentLen(v: nat)
      requires Valid() && v in lists
      ensures Stored(blk[..], lists[v]) && |Content(v)| == Times(|lists[v].blks|, blockSize)
      ensures lists[v].klen + lists[v].vlen <= |Content(v)| < lists[v].klen + lists[v].vlen + blockSize
    {
      ListIsIn(View(), blk[..], v);
      assert ListOk(View(), v);
      FlatLen(blockSize, blk[..], lists[v].blks);
      NeededIsEnough(blockSize, lists[v].klen + lists[v].vlen);
    }

    ghost function KeyOf(v: nat): Str
      requires Valid() && v in lists
      reads this, cl, cl.lv, bls, blk
    {
      ContentLen(v);
      KeyIn(blk[..], lists[v])
    }

    ghost function ValOf(v: nat): Str
      requires Valid() && v in lists
      reads this, cl, cl.lv, bls, blk
    {
      ContentLen(v);
      ValIn(blk[..], lists[v])
    }

    /** A handle the store accepts: the head of a live list that is not marked deleted. */
    ghost predicate Accepts(vi: VerIdx)
      reads this
    {
      vi.ver in lists && lists[vi.ver].blks != [] && lists[vi.ver].blks[0] == vi.idx && !lists[vi.ver].deleted
    }

    constructor (blockSize: nat, blockCount: nat)
      requires 4 < blockSize && 0 < blockCount < DELETED
      ensures Valid() && fresh(cl) && fresh(cl.lv) && fresh(bls) && fresh(blk)
      ensures this.blockSize == blockSize && blk.Length == blockCount && lists == map[]
      ensures |cl.free| == blockCount && version == 1
      ensures forall b | 0 <= b < blockCount :: bls[b] == BlkLst(false, false, 0, 0, 0, 0, 0, 0)
    {
      this.blockSize := blockSize;
      cl := new CncrLst(blockCount);
      bls := new BlkLst[blockCount](_ => NO_LIST);
      blk := new Str[blockCount](_ => seq(blockSize, _ => 0));
      version := 1;
      owner := seq(blockCount, _ => 0);
      lists := map[];
      heads := map[];
      new;
      forall b | 0 <= b < blockCount ensures OwnerOk(View(), b) { assert cl.free[b] == b; }
    }

    /** How many blocks `len` bytes take, and how many bytes the last of them holds if it is not full. */
    method BlocksNeeded(len: nat) returns (blocks: nat, rem: nat)
      requires 0 < blockSize
      ensures blocks == Needed(blockSize, len) && (rem != 0 <==> Jagged(blockSize, len))
      ensures var whole := blocks - (if rem != 0 then 1 else 0);
        whole >= 0 && Times(whole, blockSize) + rem == len && rem < blockSize
    {
      rem := len % blockSize;
      blocks := len / blockSize + if rem != 0 then 1 else 0;
      DivTimes(blockSize, len);
      JaggedIs(blockSize, len, len / blockSize, rem);
      NeededIsQuotient(blockSize, len, len / blockSize, rem);
    }

    ghost predicate Enough(size: nat)
      requires 0 < blockSize
      reads cl
    {
      Needed(blockSize, size) <= |cl.free|
    }

    /** There are free blocks, but not enough of them. */
    ghost predicate Short(size: nat)
      requires 0 < blockSize
      reads cl
    {
      cl.free != [] && !Enough(size)
    }

    /** An alloc that runs out behind its first block comes to an end. */
    ghost predicate Ends()
      requires Consistent(View()) && cl.free != []
      reads this, cl, cl.lv, bls
    {
      |cl.free| > 1 ==> Stale(View()) !in cl.free
    }

    /** And it leaves the store as it was. */
    ghost predicate Restores()
      requires Consistent(View()) && cl.free != []
      reads this, cl, cl.lv, bls
    {
      && |cl.free| > 1 && Stale(View()) !in cl.free
      && (Stale(View()) == LIST_END || (Stale(View()) < bls.Length && bls[Stale(View())].idx == LIST_END))
    }

    /** The loop of alloc: pops the rest of the blocks and writes the record of each, until there are enough of them
        or no more. */
    method LinkBlocks(st: nat, ver: nat, size: nat, blocks: nat, ghost s: BlockLists.View, ghost l: List)
      returns (full: bool)
      requires cl.Valid() && 0 < blockSize == s.bs && cl.lv.Length == bls.Length && bls[..] == s.bls
      requires blocks == Needed(blockSize, size) && l.blks != []
      requires |l.blks| == Min(blocks, |s.free|) && l.blks == s.free[..|l.blks|]
      requires cl.free == s.free[1..] && st == s.free[0] < bls.Length
      requires Distinct(l.blks) && l.klen + l.vlen == size && 0 < l.klen && 0 < l.vlen
      requires l.readers == 0 && !l.deleted && ver == s.version
      modifies cl, bls
      ensures cl.Valid() && cl.free == s.free[|l.blks|..] && (full <==> blocks <= |s.free|)
      ensures full ==> Linked(s, bls[..], |l.blks|, l)
      ensures !full ==> bls[..] == Written(s.bls, ver, l, |l.blks| - 1)
    {
      var cur := st;
      assert forall j | 1 <= j < |l.blks| :: l.blks[j] == cl.free[j - 1];
      for i := 0 to blocks - 1
        invariant i < |l.blks| && cl.Valid() && cl.free == s.free[i + 1..] && cur == l.blks[i]
        invariant bls[..] == Written(s.bls, ver, l, i)
      {
        var nxt := cl.Nxt();
        if nxt == LIST_END { return false; }
        bls[cur] := BlkLst(false, false, 0, nxt, ver, size, 0, 0);
        cur := nxt;
      }
      bls[cur] := BlkLst(false, false, 0, LIST_END, ver, size, 0, 0);
      assert bls[..] == Written(s.bls, s.version, l, |l.blks|);
      WrittenIsLinked(s, |l.blks|, l);
      full := true;
    }

    /** Takes the blocks for a list of `size` bytes off the free list and links them.  An empty free list is
        reported as LIST_END, and so is one that is too short, after a free of what was linked by then.  With one
        block popped nothing was linked, the version does not fit, and the block is lost.  With more the record of the
        last one, which is not written yet, must not lead to a free block, or the free never ends.  All free blocks
        return then.  If that record leads into a list, the list loses the versions from there up to its last block,
        and the store is as before if and only if these are none. */
    method Alloc(size: nat, klen: nat, hash: nat) returns (vi: VerIdx)
      requires Valid() && 0 < klen < size && (Short(size) ==> Ends())
      modifies this, cl, cl.lv, bls
      ensures old(cl.free) == [] ==> vi == VerIdx(LIST_END, 0) && Valid() && View() == old(View())
      ensures old(cl.free) != [] && old(Enough(size)) ==>
        var k := Needed(blockSize, size);
        && Valid() && vi.ver == old(version) && vi.idx == old(cl.free)[0]
        && Allocated(old(View()), View(), k, List(old(cl.free)[..k], klen, size - klen, hash, 0, false))
      ensures old(Short(size)) ==>
        && vi == VerIdx(LIST_END, 0) && version == old(version) + 1 && lists == old(lists) && heads == old(heads)
        && (Valid() <==> old(Restores()))
        && if |old(cl.free)| == 1 then
             cl.free == [] && bls[..] == old(bls[..]) && owner == old(owner)
           else
             cl.Valid() && ShortFreed(old(View()), View())
    {
      var blocks, _ := BlocksNeeded(size);
      NeededIsEnough(blockSize, size);
      ghost var was := View();
      var st := cl.Nxt();
      if st == LIST_END {
        return VerIdx(LIST_END, 0);
      }
      vi := AllocFrom(st, size, klen, hash, blocks, was);
    }

    /** The rest of alloc, once it has a first block. */
    method AllocFrom(st: nat, size: nat, klen: nat, hash: nat, blocks: nat, ghost s: BlockLists.View) returns (vi: VerIdx)
      requires Consistent(s) && s.free != [] && Chain(s.lv, s.free[0], s.free) && st == s.free[0]
      requires 0 < klen < size && blocks == Needed(s.bs, size) && blocks > 0
      requires cl.Valid() && cl.lv.Length == blk.Length && Rows(blockSize, blk[..]) && View() == s.(free := s.free[1..])
      requires 1 < |s.free| < blocks ==> Stale(s) !in s.free
      modifies this, cl, cl.lv, bls
      ensures blocks <= |s.free| ==>
        && Valid() && vi.ver == s.version && vi.idx == s.free[0]
        && Allocated(s, View(), blocks, List(s.free[..blocks], klen, size - klen, hash, 0, false))
      ensures |s.free| < blocks ==>
        && vi == VerIdx(LIST_END, 0) && version == s.version + 1 && lists == s.lists && heads == s.heads
        && (Valid() <==>
              |s.free| > 1 && (Stale(s) == LIST_END || (Stale(s) < |s.bls| && s.bls[Stale(s)].idx == LIST_END)))
        && if |s.free| == 1 then cl.free == [] && bls[..] == s.bls && owner == s.owner
           else cl.Valid() && ShortFreed(s, View())
    {
      var ver := version;
      version := version + 1;
      ghost var l := List(s.free[..Min(blocks, |s.free|)], klen, size - klen, hash, 0, false);
      var full := LinkBlocks(st, ver, size, blocks, s, l);
      if full {
        Title(st, ver, size, klen, hash, s, l);
        vi := VerIdx(st, ver);
      } else {
        FreeShort(st, ver, s, l);
        vi := VerIdx(LIST_END, 0);
      }
    }

    /** The end of alloc: the fields of the head. */
    method Title(st: nat, ver: nat, size: nat, klen: nat, hash: nat, ghost s: BlockLists.View, ghost l: List)
      requires Consistent(s) && Chain(s.lv, First(s.free), s.free) && Linked(s, bls[..], |l.blks|, l)
      requires l.blks[0] == st < bls.Length && l.klen == klen && l.klen + l.vlen == size && l.hash == hash && ver == s.version
      requires cl.Valid() && cl.lv.Length == blk.Length && Rows(blockSize, blk[..])
      requires View() == s.(free := s.free[|l.blks|..], bls := bls[..], version := s.version + 1)
      modifies this, bls
      ensures Valid() && version == s.version + 1 && Allocated(s, View(), |l.blks|, l)
    {
      ghost var linked := bls[..];
      AllocDone(s, linked, |l.blks|, l, First(s.free));
      bls[st] := bls[st].(isKey := true, hash := hash, len := size, klen := klen, isDeleted := false);
      owner := Owned(owner, l.blks, ver);
      lists := lists[ver := l];
      heads := heads[ver := st];
      assert View() == WithList(s, linked, |l.blks|, l);
    }

    /** The records and links that alloc leaves when the free list runs out: those of every block it popped but the
        last. */
    ghost predicate RanOut(s: BlockLists.View, l: List)
      reads this, cl, cl.lv, bls, blk
    {
      && Consistent(s) && s.free != [] && l.blks == s.free && Chain(s.lv, s.free[0], s.free)
      && Rows(blockSize, blk[..]) && cl.lv.Length == blk.Length
      && cl.Valid() && cl.free == [] && cl.lv[..] == s.lv && bls[..] == Written(s.bls, s.version, l, |l.blks| - 1)
      && version == s.version + 1 && owner == s.owner && lists == s.lists && heads == s.heads && blockSize == s.bs
    }

    // ---------------------------------------------------------------- readers

    /** Takes a reader and returns the record, or returns the empty record. */
    method IncReaders(b: nat, version: nat) returns (r: BlkLst)
      requires b < bls.Length
      modifies bls
      ensures if Admits(old(bls[b]), version) then
                r == old(bls[b]).(readers := old(bls[b]).readers + 1) && bls[..] == old(bls[..])[b := r]
              else
                r == NO_LIST && bls[..] == old(bls[..])
    {
      var cur := bls[b];
      if cur.version != version || cur.readers < 0 || cur.isDeleted { return NO_LIST; }
      bls[b] := cur.(readers := cur.readers + 1);
      r := bls[b];
    }

    /** Drops a reader that is not the last one of a deleted list. */
    method DecReaders(b: nat, version: nat) returns (kept: bool)
      requires b < bls.Length
      requires bls[b].version == version ==> !(bls[b].readers == 1 && bls[b].isDeleted)
      modifies bls
      ensures kept <==> old(bls[b]).version == version
      ensures bls[..] == if kept then old(bls[..])[b := old(bls[b]).(readers := old(bls[b]).readers - 1)]
                         else old(bls[..])
    {
      if bls[b].version != version { return false; }
      bls[b] := bls[b].(readers := bls[b].readers - 1);
      kept := true;
    }

    static function WithVersion(r: BlkLst, version: nat, write: bool): BlkLst {
      if write then r.(version := version) else r
    }

    /** Walks a list to its last block, writing `version` into the blocks before it, and into the head. */
    method FindEndSetVersion(b: nat, version: nat, ghost blks: seq<nat>) returns (end: nat)
      requires blks != [] && blks[0] == b && Distinct(blks) && bls.Length < LIST_END
      requires forall i | 0 <= i < |blks| :: blks[i] < bls.Length
      requires forall i {:trigger bls[blks[i]]} | 0 <= i < |blks| :: bls[blks[i]].idx == After(blks, i)
      modifies bls
      ensures end == blks[|blks| - 1]
      ensures forall i | 0 <= i < |blks| ::
        bls[blks[i]] == WithVersion(old(bls[blks[i]]), version, i == 0 || i + 1 < |blks|)
      ensures forall c | 0 <= c < bls.Length && c !in blks :: bls[c] == old(bls[c])
    {
      var cur, prev := b, b;
      ghost var j := 0;
      while cur != LIST_END
        invariant j <= |blks| && cur == (if j < |blks| then blks[j] else LIST_END)
        invariant prev == blks[if j == 0 then 0 else j - 1]
        invariant forall i {:trigger bls[blks[i]]} | 0 <= i < |blks| ::
          bls[blks[i]] == WithVersion(old(bls[blks[i]]), version, i + 1 < j || (i == 0 && 0 < j))
        invariant forall c | 0 <= c < bls.Length && c !in blks :: bls[c] == old(bls[c])
        decreases |blks| - j
      {
        bls[prev] := bls[prev].(version := version);
        prev := cur;
        cur := bls[cur].idx;
        j := j + 1;
      }
      end := prev;
    }

    // ---------------------------------------------------------------- doFree and free

    /** Clears the versions of a list and splices its blocks, in order, in front of the free list. */
    method DoFree(b: nat, ghost blks: seq<nat>)
      requires cl.Valid() && cl.lv.Length == bls.Length && blks != [] && blks[0] == b && Distinct(blks)
      requires forall i | 0 <= i < |blks| :: blks[i] < bls.Length && blks[i] !in cl.free
      requires forall i {:trigger bls[blks[i]]} | 0 <= i < |blks| :: bls[blks[i]].idx == After(blks, i)
      requires forall i | 0 <= i < |blks| - 1 :: cl.lv[blks[i]] == After(blks, i)
      modifies cl, cl.lv, bls
      ensures cl.Valid() && cl.free == blks + old(cl.free)
      ensures forall c | 0 <= c < bls.Length && c !in blks :: bls[c] == old(bls[c]) && cl.lv[c] == old(cl.lv[c])
      ensures bls[b].version == 0
      ensures forall c | 0 <= c < bls.Length && c in blks ::
        bls[c].version in {0, old(bls[c].version)} && bls[c].idx == old(bls[c].idx)
    {
      ghost var end := blks[|blks| - 1];
      RunIsChain(cl.lv[..], cl.lv[..][end := cl.idx], cl.idx, cl.free, blks);
      Restock(b, blks, blks + cl.free);
      forall c | 0 <= c < bls.Length && c in blks
        ensures bls[c].version in {0, old(bls[c].version)} && bls[c].idx == old(bls[c].idx)
      {
        var i :| 0 <= i < |blks| && blks[i] == c;
      }
    }

    /** The same for any blocks that the records lead through, whatever the links of the free list do. */
    method Restock(b: nat, ghost blks: seq<nat>, ghost now: seq<nat>)
      requires cl.Valid() && cl.lv.Length == bls.Length && blks != [] && blks[0] == b && Distinct(blks)
      requires forall i | 0 <= i < |blks| :: blks[i] < bls.Length
      requires forall i {:trigger bls[blks[i]]} | 0 <= i < |blks| :: bls[blks[i]].idx == After(blks, i)
      requires Chain(cl.lv[..][blks[|blks| - 1] := First(cl.free)], b, now)
      modifies cl, cl.lv, bls
      ensures cl.Valid() && cl.free == now
      ensures cl.lv[..] == old(cl.lv[..][blks[|blks| - 1] := First(cl.free)])
      ensures forall i | 0 <= i < |blks| ::
        bls[blks[i]] == WithVersion(old(bls[blks[i]]), 0, i == 0 || i + 1 < |blks|)
      ensures forall c | 0 <= c < bls.Length && c !in blks :: bls[c] == old(bls[c])
    {
      var listEnd := FindEndSetVersion(b, 0, blks);
      var _ := cl.Splice(b, listEnd, now);
    }

    /** Drops a reader, or deletes.  A handle whose list is gone is refused.  A list is freed by the delete that
        finds it without readers, or by the last reader to drop a deleted one, and then the answer is false;
        otherwise its count and mark are changed and no more. */
    method DecReadersOrDel(b: nat, ver: nat, del: bool) returns (kept: bool)
      requires Valid() && Known(VerIdx(b, ver)) && (ver in lists && !del ==> lists[ver].readers > 0)
      modifies this, cl, cl.lv, bls
      ensures Valid()
      ensures ver !in old(lists) ==> !kept && View() == old(View())
      ensures ver in old(lists) ==>
        var l := old(lists[ver]);
        var last := if del then l.readers == 0 else l.readers == 1 && l.deleted;
        && (kept <==> !last)
        && if last then Freed(old(View()), View(), ver)
           else Flagged(old(View()), View(), ver, if del then l.readers else l.readers - 1, del || l.deleted)
    {
      ghost var was := View();
      HandleIsCurrentIffLive(was, ver);
      var r := bls[b];
      if r.version != ver { return false; }
      ListIsRun(was, ver);
      assert ListOk(was, ver) && RecOk(was, ver, lists[ver], 0);
      ghost var l := lists[ver];
      var doDelete;
      if del {
        doDelete := r.readers == 0 && !r.isDeleted;
        bls[b] := r.(isDeleted := true);
      } else {
        doDelete := r.readers == 1 && r.isDeleted;
        bls[b] := r.(readers := r.readers - 1);
      }
      if doDelete {
        Release(b, ver, was);
        kept := false;
      } else {
        lists := lists[ver := l.(readers := if del then l.readers else l.readers - 1, deleted := del || l.deleted)];
        FlagKeeps(was, View(), ver, lists[ver].readers, lists[ver].deleted);
        kept := true;
      }
    }

    /** doFree, once the head of the list alone has changed. */
    method Release(b: nat, ver: nat, ghost s: BlockLists.View)
      requires Consistent(s) && ver in s.lists && s.lists[ver].blks != [] && s.lists[ver].blks[0] == b < |s.bls| == bls.Length
      requires cl.Valid() && cl.lv.Length == bls.Length == blk.Length && Rows(blockSize, blk[..])
      requires View() == s.(bls := Marked(s.bls, b, bls[b].readers, bls[b].isDeleted))
      modifies this, cl, cl.lv, bls
      ensures Valid() && Freed(s, View(), ver)
    {
      ghost var l := s.lists[ver];
      MarkedIsRun(s, ver, bls[b].readers, bls[b].isDeleted);
      DoFree(b, l.blks);
      owner := Owned(owner, l.blks, 0);
      lists := lists - {ver};
      FreeKeeps(s, View(), ver);
    }

    /** free: a list without readers is freed, a list with readers is marked deleted and left to them. */
    method Free(b: nat, ver: nat) returns (kept: bool)
      requires Valid() && Known(VerIdx(b, ver))
      modifies this, cl, cl.lv, bls
      ensures Valid()
      ensures kept <==> ver in old(lists) && old(lists[ver]).readers > 0
      ensures ver !in old(lists) ==> View() == old(View())
      ensures ver in old(lists) && !kept ==> Freed(old(View()), View(), ver)
      ensures kept ==> Flagged(old(View()), View(), ver, old(lists[ver]).readers, true)
    {
      kept := DecReadersOrDel(b, ver, true);
    }

    /** The free of a list whose last block has no record yet. */
    method FreeShort(st: nat, ver: nat, ghost s: BlockLists.View, ghost l: List)
      requires RanOut(s, l) && st == s.free[0] && ver == s.version
      requires |s.free| > 1 ==> Stale(s) !in s.free
      modifies this, cl, cl.lv, bls
      ensures version == s.version + 1 && lists == s.lists && heads == s.heads
      ensures Valid() <==>
        |s.free| > 1 && (Stale(s) == LIST_END || (Stale(s) < |s.bls| && s.bls[Stale(s)].idx == LIST_END))
      ensures if |s.free| == 1 then cl.free == [] && bls[..] == s.bls && owner == s.owner
              else cl.Valid() && ShortFreed(s, View())
    {
      if |s.free| == 1 {
        assert bls[..] == s.bls && OwnerOk(s, s.free[0]);
        assert !OwnerOk(View(), s.free[0]);
      } else {
        WrittenShort(s, l);
      }
      if bls[st].version != ver { return; }
      assert |s.free| > 1 && bls[..][s.free[0]] == BlockLists.Fresh(s.version, l, 0);
      var doDelete := bls[st].readers == 0 && !bls[st].isDeleted;
      bls[st] := bls[st].(isDeleted := true);
      assert doDelete && LinkedShort(s, bls[..]);
      if doDelete { SpliceBack(st, s, bls[..]); }
      ShortRestoredIff(s, View());
    }

    /** doFree of the blocks that were popped, and of those their records lead to. */
    method SpliceBack(st: nat, ghost s: BlockLists.View, ghost recs: seq<BlkLst>)
      requires Consistent(s) && |s.free| > 1 && st == s.free[0] && LinkedShort(s, recs) && Stale(s) !in s.free
      requires cl.Valid() && cl.free == [] && cl.lv[..] == s.lv && bls[..] == recs && blockSize == s.bs
      requires version == s.version + 1 && owner == s.owner && lists == s.lists && heads == s.heads
      requires Chain(s.lv, st, s.free)
      requires forall i {:trigger recs[s.free[i]]} | 0 <= i < |s.free| ::
        recs[s.free[i]].version in {s.version, s.bls[s.free[i]].version}
      requires Rows(blockSize, blk[..]) && cl.lv.Length == blk.Length
      modifies cl, cl.lv, bls
      ensures cl.Valid() && cl.free == s.free && ShortFreed(s, View()) && (Valid() <==> Consistent(View()))
    {
      ghost var run := s.free + Behind(s);
      ShortIsRun(s, recs);
      ShortChain(s, run);
      Restock(st, run, s.free);
      ShortDone(s, recs, View(), run);
    }

    // ---------------------------------------------------------------- put

    /** Copies `len` bytes, or a whole block when len is 0, from src[at..] into block b from byte ofst on. */
    method WriteBlock(b: nat, src: Str, at: nat, len: nat, ofst: nat) returns (cpyLen: nat)
      requires b < blk.Length && Rows(blockSize, blk[..])
      requires var n := if len == 0 then blockSize else len; at + n <= |src| && ofst + n <= blockSize
      modifies blk
      ensures cpyLen == if len == 0 then blockSize else len
      ensures blk[..] == old(blk[..])[b := Patch(old(blk[b]), src[at..at + cpyLen], ofst)]
      ensures Rows(blockSize, blk[..])
    {
      cpyLen := if len == 0 then blockSize else len;
      blk[b] := Patch(blk[b], src[at..at + cpyLen], ofst);
    }

    /** The links of a list lead from each of its blocks to the next. */
    ghost predicate Links(blks: seq<nat>)
      reads bls
    {
      && Distinct(blks) && bls.Length == blk.Length
      && (forall i | 0 <= i < |blks| :: blks[i] < bls.Length)
      && (forall i {:trigger bls[blks[i]]} | 0 <= i < |blks| :: bls[blks[i]].idx == After(blks, i))
    }

    /** The loops of put: copies cnt whole blocks of src[at..] into the list from its block i on. */
    method WriteWhole(b: nat, src: Str, at: nat, cnt: nat, ghost blks: seq<nat>, ghost i: nat) returns (cur: nat)
      requires Links(blks) && Rows(blockSize, blk[..]) && 0 < blockSize
      requires i + cnt <= |blks| && b == LinkTo(blks, i) && at + Times(cnt, blockSize) <= |src|
      modifies blk
      ensures Rows(blockSize, blk[..]) && cur == LinkTo(blks, i + cnt)
      ensures WroteWhole(blockSize, old(blk[..]), blk[..], blks, i, src, at, cnt)
    {
      cur := b;
      var pos := at;
      ghost var rows := blk[..];
      for j := 0 to cnt
        invariant cur == LinkTo(blks, i + j) && at <= pos == at + Times(j, blockSize) <= |src|
        invariant Rows(blockSize, blk[..]) && blk[..] == Wrote(blockSize, rows, blks, i, src, at, j)
      {
        TimesLess(j, cnt, blockSize);
        var n := WriteBlock(cur, src, pos, 0, 0);
        pos := pos + n;
        cur := bls[cur].idx;
      }
      forall c | 0 <= c < blk.Length && c !in blks[i..i + cnt] ensures blk[c] == old(blk[c]) {
        WroteFrame(blockSize, rows, blks, i, src, at, cnt, c);
      }
      forall k | i <= k < i + cnt ensures IsChunk(src, at + Times(k - i, blockSize), blockSize, blk[blks[k]]) {
        WroteAt(blockSize, rows, blks, i, src, at, cnt, k);
      }
    }

    /** The first half of put: whole blocks of key, then the block that key and value share. */
    method PutKeyBlocks(b: nat, key: Str, val: Str, p: Split, ghost blks: seq<nat>)
      returns (cur: nat, ghost r1: seq<Str>)
      requires Links(blks) && Rows(blockSize, blk[..]) && 0 < blockSize
      requires p.kb < |blks| && blks[0] == b && 0 < |val| && Splits(blockSize, |key|, |val|, p)
      modifies blk
      ensures Rows(blockSize, blk[..]) && cur == LinkTo(blks, p.kb + 1)
      ensures WroteWhole(blockSize, old(blk[..]), r1, blks, 0, key, 0, p.kb) && Rows(blockSize, r1)
      ensures blk[..] == WroteShared(blockSize, r1, blks, key, val, p)
    {
      cur := WriteWhole(b, key, 0, p.kb, blks, 0);
      r1 := blk[..];
      var _ := WriteBlock(cur, key, |key| - p.rem, p.rem, 0);
      assert key[|key| - p.rem..|key| - p.rem + p.rem] == key[|key| - p.rem..];
      var _ := WriteBlock(cur, val, 0, p.fill, p.rem);
      assert val[0..0 + p.fill] == val[..p.fill];
      cur := bls[cur].idx;
    }

    /** The second half of put: whole blocks of value, then the rest. */
    method PutValBlocks(b: nat, val: Str, p: Split, ghost blks: seq<nat>) returns (ghost r3: seq<Str>)
      requires Links(blks) && Rows(blockSize, blk[..]) && 0 < blockSize
      requires |blks| == p.kb + 1 + p.vb + (if p.rest != 0 then 1 else 0) && b == LinkTo(blks, p.kb + 1)
      requires |val| == p.fill + Times(p.vb, blockSize) + p.rest && p.rest < blockSize
      modifies blk
      ensures Rows(blockSize, blk[..]) && Rows(blockSize, r3)
      ensures WroteWhole(blockSize, old(blk[..]), r3, blks, p.kb + 1, val, p.fill, p.vb)
      ensures blk[..] == WroteRest(blockSize, r3, blks, val, p)
    {
      var cur := WriteWhole(b, val, p.fill, p.vb, blks, p.kb + 1);
      r3 := blk[..];
      if p.rest > 0 {
        assert val[|val| - p.rest..|val| - p.rest + p.rest] == val[|val| - p.rest..];
        var _ := WriteBlock(cur, val, |val| - p.rest, p.rest, 0);
      }
    }

    /** put, for a key that does not fill its last block. */
    method PutSplit(b: nat, key: Str, val: Str, p: Split, ghost blks: seq<nat>)
      requires Links(blks) && Rows(blockSize, blk[..]) && 0 < blockSize && 0 < |val|
      requires blks != [] && blks[0] == b && |blks| == Needed(blockSize, |key| + |val|)
      requires Splits(blockSize, |key|, |val|, p)
      modifies blk
      ensures Rows(blockSize, blk[..])
      ensures In(blk[..], blks) && |key| + |val| <= |Flat(blk[..], blks)|
      ensures Flat(blk[..], blks)[..|key|] == key && Flat(blk[..], blks)[|key|..|key| + |val|] == val
      ensures forall c | 0 <= c < blk.Length && c !in blks :: blk[c] == old(blk[c])
    {
      SplitCounts(blockSize, |key|, |val|, p);
      ghost var r0 := blk[..];
      var cur, r1 := PutKeyBlocks(b, key, val, p, blks);
      var r3 := PutValBlocks(cur, val, p, blks);
      PutDone(blockSize, blks, key, val, p, r0, r1, r3, blk[..]);
      KeyThenValue(blockSize, blk[..], blks, key, val);
    }

    /** How put divides key and value over the blocks. */
    method SplitOf(klen: nat, vlen: nat) returns (p: Split)
      requires 0 < blockSize
      ensures Divides(blockSize, klen, vlen, p) && (p.rem != 0 <==> Jagged(blockSize, klen))
    {
      var kb, rem := BlocksNeeded(klen);
      var fill := if vlen < blockSize - rem then vlen else blockSize - rem;
      var vb, rest := BlocksNeeded(vlen - fill);
      p := Split(if rem != 0 then kb - 1 else kb, rem, fill, if rest != 0 then vb - 1 else vb, rest);
    }

    lemma StoredWhole(v: nat, key: Str, val: Str)
      requires Valid() && v in lists && |key| == lists[v].klen && |val| == lists[v].vlen
      requires In(blk[..], lists[v].blks) && |key| + |val| <= |Flat(blk[..], lists[v].blks)|
      requires Flat(blk[..], lists[v].blks)[..|key|] == key
      requires Flat(blk[..], lists[v].blks)[|key|..|key| + |val|] == val
      ensures KeyOf(v) == key && ValOf(v) == val
    {
      ContentLen(v);
    }

    /** put into list v, for a key that does not fill its last block. */
    method PutInto(b: nat, key: Str, val: Str, p: Split, ghost v: nat)
      requires Valid() && v in lists && lists[v].blks[0] == b
      requires |key| == lists[v].klen && |val| == lists[v].vlen && Splits(blockSize, |key|, |val|, p)
      modifies blk
      ensures Valid() && View() == old(View())
      ensures KeyOf(v) == key && ValOf(v) == val
      ensures OthersKept(old(blk[..]), v)
    {
      ghost var was := View();
      ListLinks(v);
      PutSplit(b, key, val, p, lists[v].blks);
      assert View() == was;
      StoredWhole(v, key, val);
    }

    lemma ListLinks(v: nat)
      requires Valid() && v in lists
      ensures Links(lists[v].blks) && lists[v].blks != [] && 0 < lists[v].vlen
      ensures |lists[v].blks| == Needed(blockSize, lists[v].klen + lists[v].vlen)
    {
      ListIsRun(View(), v);
      assert ListOk(View(), v);
    }

    /** Only blocks of list v were written since the block area held rows. */
    ghost predicate OthersKept(rows: seq<Str>, v: nat)
      requires v in lists
      reads this, blk
    {
      |rows| == blk.Length && forall c | 0 <= c < blk.Length && c !in lists[v].blks :: blk[c] == rows[c]
    }

    /** put into list v, for a key that fills its last block: only the key is copied. */
    method PutNoValue(b: nat, key: Str, ghost v: nat)
      requires Valid() && v in lists && lists[v].blks[0] == b
      requires |key| == lists[v].klen && !Jagged(blockSize, |key|)
      modifies blk
      ensures Valid() && View() == old(View()) && |key| <= |old(Content(v))|
      ensures Content(v) == key + old(Content(v))[|key|..]
      ensures OthersKept(old(blk[..]), v)
    {
      ghost var blks, rows := lists[v].blks, blk[..];
      ListIsRun(View(), v);
      ListIsIn(View(), rows, v);
      ContentLen(v);
      var kb, _ := BlocksNeeded(|key|);
      if kb > |blks| { TimesLess(|blks|, kb, blockSize); }
      var _ := WriteWhole(b, key, 0, kb, blks, 0);
      WholeRows(blockSize, rows, blk[..], blks, key, kb);
    }

    /** Writes key and value into a list fresh from alloc.  The value goes in only behind a key that does not
        fill its last block; otherwise the bytes of the value stay what they were. */
    method Put(b: nat, key: Str, val: Str, ghost v: nat)
      requires Valid() && v in lists && lists[v].blks[0] == b
      requires |key| == lists[v].klen && |val| == lists[v].vlen
      requires Jagged(blockSize, |key|) || |val| <= blockSize
      modifies blk
      ensures Valid() && View() == old(View())
      ensures Jagged(blockSize, |key|) ==> KeyOf(v) == key && ValOf(v) == val
      ensures !Jagged(blockSize, |key|) ==> KeyOf(v) == key && ValOf(v) == old(ValOf(v))
      ensures forall w | w in lists && w != v :: Content(w) == old(Content(w))
    {
      ghost var rows, was := blk[..], Content(v);
      ContentLen(v);
      var p := SplitOf(|key|, |val|);
      if p.rem != 0 {
        PutInto(b, key, val, p, v);
      } else {
        PutNoValue(b, key, v);
        assert Content(v)[|key|..] == was[|key|..];
        assert Content(v)[|key|..|key| + |val|] == Content(v)[|key|..][..|val|];
      }
      forall w | w in lists && w != v
        ensures In(rows, lists[w].blks) && In(blk[..], lists[w].blks)
        ensures Flat(blk[..], lists[w].blks) == Flat(rows, lists[w].blks)
      {
        OtherListsKeepBytes(View(), rows, blk[..], v, w);
      }
    }

    // ---------------------------------------------------------------- reading

    /** Copies `len` bytes from byte ofst of block b, or the rest of the block when len is 0, under a reader. */
    method ReadBlock(b: nat, version: nat, ofst: nat, len: nat) returns (out: Str)
      requires b < bls.Length == blk.Length && version != 0 && Rows(blockSize, blk[..])
      requires ofst <= blockSize && ofst + len <= blockSize
      modifies bls
      ensures bls[..] == old(bls[..])
      ensures Admits(bls[b], version) ==>
        out == blk[b][ofst..if len == 0 then blockSize else ofst + len]
      ensures !Admits(bls[b], version) ==> out == []
    {
      var r := IncReaders(b, version);
      if r.version == 0 { return []; }
      var cpyLen := if len == 0 then blockSize - ofst else len;
      out := blk[b][ofst..ofst + cpyLen];
      var _ := DecReaders(b, version);
    }

    /** The loop of get that walks past the whole blocks of key. */
    method SkipBlocks(b: nat, version: nat, cnt: nat, ghost recs: seq<BlkLst>, ghost rows: seq<Str>, ghost blks: seq<nat>)
      returns (cur: nat)
      requires recs == bls[..] && Readable(blockSize, recs, rows, blks, version) && cnt < |blks| && b == blks[0]
      ensures cur == blks[cnt]
    {
      cur := b;
      var i := 0;
      while i < cnt && bls[cur].version == version
        invariant i <= cnt && cur == blks[i]
      {
        assert recs[blks[i]].idx == After(blks, i);
        cur := bls[cur].idx;
        i := i + 1;
      }
      assert Admits(recs[blks[i]], version);
    }

    /** One round of the loop of get. */
    method ReadNext(
      b: nat, version: nat, got: Str, maxlen: nat,
      ghost klen: nat, ghost j: nat, ghost recs: seq<BlkLst>, ghost rows: seq<Str>, ghost blks: seq<nat>) returns (out: Str)
      requires recs == bls[..] && rows == blk[..] && Readable(blockSize, recs, rows, blks, version)
      requires j < |blks| && b == blks[j] && |got| < maxlen
      requires Copied(blockSize, Flat(rows, blks), klen, maxlen, j, got)
      modifies bls
      ensures bls[..] == recs
      ensures Copied(blockSize, Flat(rows, blks), klen, maxlen, j + 1, out)
    {
      var vrdLen := Min(blockSize, maxlen - |got|);
      FlatPiece(blockSize, rows, blks, j, 0, vrdLen);
      var rd := ReadBlock(b, version, 0, vrdLen);
      CopyOn(blockSize, Flat(rows, blks), klen, maxlen, j, got, rd);
      out := got + rd;
    }

    /** The loop of get: blocks from index j0 on, until maxlen bytes are copied or the list ends. */
    method ReadTail(
      b: nat, nver: nat, version: nat, got: Str, maxlen: nat,
      ghost klen: nat, ghost j0: nat, ghost recs: seq<BlkLst>, ghost rows: seq<Str>, ghost blks: seq<nat>) returns (out: Str)
      requires recs == bls[..] && rows == blk[..] && Readable(blockSize, recs, rows, blks, version)
      requires j0 <= |blks| && b == LinkTo(blks, j0) && nver == version
      requires j0 < |blks| ==> Copied(blockSize, Flat(rows, blks), klen, maxlen, j0, got)
      modifies bls
      ensures bls[..] == recs
      ensures j0 == |blks| ==> out == got
      ensures j0 < |blks| ==> Copied(blockSize, Flat(rows, blks), klen, maxlen, |blks|, out)
    {
      out := got;
      FlatLen(blockSize, rows, blks);
      var nxt, nver := b, nver;
      ghost var j := j0;
      while |out| < maxlen && nxt != LIST_END && nver == version
        invariant nver == version && j0 <= j <= |blks| && nxt == LinkTo(blks, j) && bls[..] == recs
        invariant j0 == |blks| ==> out == got
        invariant j0 < |blks| ==> Copied(blockSize, Flat(rows, blks), klen, maxlen, j, out)
        decreases |blks| - j
      {
        out := ReadNext(nxt, version, out, maxlen, klen, j, recs, rows, blks);
        assert recs[blks[j]].idx == After(blks, j) && Admits(recs[blks[j]], version);
        nxt, nver := bls[nxt].idx, bls[nxt].version;
        j := j + 1;
      }
      if j0 < |blks| && j < |blks| { CopyEnds(blockSize, Flat(rows, blks), klen, maxlen, j, |blks|, out); }
    }

    /** The copying half of get: the value bytes in the block shared with the key, then the rest. */
    /** The part of the value that shares a block with the key. */
    method ReadShared(
      cur: nat, version: nat, kb: nat, krem: nat, vlen: nat, maxlen: nat,
      ghost recs: seq<BlkLst>, ghost rows: seq<Str>, ghost blks: seq<nat>)
      returns (got: Str)
      requires recs == bls[..] && rows == blk[..] && Readable(blockSize, recs, rows, blks, version)
      requires Fits(blockSize, |blks|, kb, krem, vlen, maxlen) && kb < |blks| && cur == blks[kb]
      modifies bls
      ensures bls[..] == recs && bls[cur].idx == LinkTo(blks, kb + 1) && bls[cur].version == version
      ensures var klen, n := Times(kb, blockSize) + krem, Min(blockSize - krem, vlen);
        && klen + n <= |Flat(rows, blks)| && got == Flat(rows, blks)[klen..klen + n]
        && (kb + 1 < |blks| ==> Copied(blockSize, Flat(rows, blks), klen, maxlen, kb + 1, got))
    {
      assert recs[blks[kb]].idx == After(blks, kb);
      var vrdLen := Min(blockSize - krem, vlen);
      got := ReadBlock(cur, version, krem, vrdLen);
      FlatPiece(blockSize, rows, blks, kb, krem, vrdLen);
      FirstPiece(blockSize, rows, blks, kb, krem, vlen, maxlen, got);
    }

    method ReadValue(
      b: nat, version: nat, kb: nat, krem: nat, vlen: nat, maxlen: nat,
      ghost recs: seq<BlkLst>, ghost rows: seq<Str>, ghost blks: seq<nat>)
      returns (out: Str)
      requires recs == bls[..] && rows == blk[..] && Readable(blockSize, recs, rows, blks, version)
      requires Fits(blockSize, |blks|, kb, krem, vlen, maxlen) && b == blks[0]
      modifies bls
      ensures bls[..] == recs
      ensures ReadsValue(blockSize, rows, blks, kb, krem, vlen, maxlen, out)
    {
      var cur := SkipBlocks(b, version, kb, recs, rows, blks);
      var got := ReadShared(cur, version, kb, krem, vlen, maxlen, recs, rows, blks);
      ghost var klen := Times(kb, blockSize) + krem;
      out := ReadTail(bls[cur].idx, bls[cur].version, version, got, maxlen, klen, kb + 1, recs, rows, blks);
      LastPiece(blockSize, rows, blks, kb, krem, vlen, maxlen, got, out);
    }

    /** klen / blockSize and its remainder. */
    method KeyBlocks(klen: nat) returns (kb: nat, krem: nat)
      requires 0 < blockSize
      ensures klen == Times(kb, blockSize) + krem && krem < blockSize
      ensures kb == Whole(blockSize, klen) && (krem == 0 <==> !Jagged(blockSize, klen))
    {
      kb, krem := klen / blockSize, klen % blockSize;
      DivTimes(blockSize, klen);
      WholeIsQuotient(blockSize, klen, kb, krem);
      JaggedIs(blockSize, klen, kb, krem);
    }

    /** A handle that alloc gave out, at some time. */
    ghost predicate Known(vi: VerIdx)
      reads this
    {
      vi.ver in heads && heads[vi.ver] == vi.idx
    }

    /** For a handle alloc gave out, incReaders takes a reader if and only if the handle is accepted. */
    lemma AdmitsIffAccepts(vi: VerIdx)
      requires Valid() && Known(vi)
      ensures vi.idx < bls.Length && (Admits(bls[vi.idx], vi.ver) <==> Accepts(vi))
    {
      HandleIsCurrentIffLive(View(), vi.ver);
      if vi.ver in lists {
        assert ListOk(View(), vi.ver) && RecOk(View(), vi.ver, lists[vi.ver], 0);
      }
    }

    /** get, once it holds a reader and knows that the value fits. */
    method CopyValue(vi: VerIdx, klen: nat, vlen: nat, maxlen: nat, ghost s: BlockLists.View, ghost rows: seq<Str>)
      returns (out: Str)
      requires Consistent(s) && vi.ver in s.lists && !s.lists[vi.ver].deleted && |rows| == |s.bls| && Rows(s.bs, rows)
      requires var l := s.lists[vi.ver]; l.klen == klen && l.vlen == vlen && l.blks != [] && l.blks[0] == vi.idx
      requires blockSize == s.bs && rows == blk[..] && vi.idx < |s.bls| && bls[..] == Taken(s.bls, vi.idx) && vlen <= maxlen
      modifies bls
      ensures bls[..] == s.bls && ReadsList(blockSize, rows, s.lists[vi.ver], maxlen, out)
    {
      ghost var l := s.lists[vi.ver];
      ListIsReadable(s, rows, vi.ver);
      var kb, krem := KeyBlocks(klen);
      ListFits(blockSize, |l.blks|, klen, vlen, maxlen, kb, krem);
      out := ReadValue(vi.idx, vi.ver, kb, krem, vlen, maxlen, bls[..], rows, l.blks);
      var _ := DecReaders(vi.idx, vi.ver);
      assert bls[..] == s.bls;
      ReadsAll(blockSize, rows, l.blks, kb, krem, vlen, maxlen, out);
    }

    /** Copies the value behind a handle.  A handle that is not accepted, or a buffer that is too small, gets
        nothing, and a buffer that is too small also leaves a reader on the list. */
    method Get(vi: VerIdx, maxlen: nat) returns (out: Str)
      requires Valid() && (vi.idx == LIST_END || Known(vi))
      modifies this, bls
      ensures Valid()
      ensures !old(Accepts(vi)) ==> out == [] && View() == old(View())
      ensures old(Accepts(vi)) && maxlen < old(lists[vi.ver].vlen) ==>
        out == [] && Flagged(old(View()), View(), vi.ver, old(lists[vi.ver].readers) + 1, false)
      ensures old(Accepts(vi)) && old(lists[vi.ver].vlen) <= maxlen ==>
        View() == old(View()) && ReadsList(blockSize, blk[..], lists[vi.ver], maxlen, out)
      ensures old(Accepts(vi)) && old(lists[vi.ver].vlen) <= maxlen ==>
        var l := lists[vi.ver];
        && out[..l.vlen] == ValOf(vi.ver)
        && |out| == if l.klen % blockSize + l.vlen <= blockSize then l.vlen
                    else if maxlen < |Content(vi.ver)| - l.klen then maxlen else |Content(vi.ver)| - l.klen
    {
      ghost var was, rows := View(), blk[..];
      assert vi.ver in lists ==> ListOk(was, vi.ver) && RecOk(was, vi.ver, lists[vi.ver], 0);
      if vi.idx == LIST_END { return []; }
      AdmitsIffAccepts(vi);
      if Accepts(vi) { ListIsReadable(was, rows, vi.ver); }
      var r := IncReaders(vi.idx, vi.ver);
      if r.len == 0 { return []; }
      var vlen := r.len - r.klen;
      if vlen > maxlen {
        lists := lists[vi.ver := lists[vi.ver].(readers := lists[vi.ver].readers + 1)];
        FlagKeeps(was, View(), vi.ver, was.lists[vi.ver].readers + 1, false);
        return [];
      }
      out := CopyValue(vi, r.klen, vlen, maxlen, was, rows);
      assert View() == was;
      ValueRead(vi.ver, maxlen, out);
    }

    lemma ValueRead(v: nat, maxlen: nat, out: Str)
      requires Valid() && v in lists && ReadsList(blockSize, blk[..], lists[v], maxlen, out)
      ensures var l := lists[v];
        && out[..l.vlen] == ValOf(v)
        && |out| == if l.klen % blockSize + l.vlen <= blockSize then l.vlen
                    else if maxlen < |Content(v)| - l.klen then maxlen else |Content(v)| - l.klen
    {
      ContentLen(v);
      ReadLenIs(blockSize, |lists[v].blks|, lists[v].klen, lists[v].vlen, maxlen);
      ReadsValueFirst(blk[..], blockSize, lists[v], maxlen, out);
    }

    /** The loop of getKey: whole blocks of key. */
    method ReadFront(b: nat, version: nat, cnt: nat, ghost recs: seq<BlkLst>, ghost rows: seq<Str>, ghost blks: seq<nat>)
      returns (cur: nat, out: Str)
      requires recs == bls[..] && rows == blk[..] && Readable(blockSize, recs, rows, blks, version)
      requires cnt < |blks| && b == blks[0]
      modifies bls
      ensures bls[..] == recs && cur == blks[cnt]
      ensures Times(cnt, blockSize) <= |Flat(rows, blks)| && out == Flat(rows, blks)[..Times(cnt, blockSize)]
    {
      cur, out := b, [];
      var nver, i := version, 0;
      while i < cnt && cur != LIST_END && nver == version
        invariant bls[..] == recs && nver == version
        invariant i <= cnt && cur == blks[i] && cur < |recs|
        invariant Times(i, blockSize) <= |Flat(rows, blks)| && out == Flat(rows, blks)[..Times(i, blockSize)]
      {
        assert recs[blks[i]].idx == After(blks, i) && Admits(recs[blks[i]], version);
        var rd := ReadBlock(cur, version, 0, 0);
        FrontOn(blockSize, rows, blks, i, blockSize, out);
        assert rows[blks[i]][..blockSize] == rd;
        out := out + rd;
        cur, nver := bls[cur].idx, bls[cur].version;
        i := i + 1;
      }
    }

    /** Copies the key behind a handle.  A key that fills its last block comes with the block behind it: a length
        of 0 reads that block whole.  A buffer that is too small gets nothing and leaves a reader on the list. */
    method GetKey(vi: VerIdx, maxlen: nat) returns (out: Str)
      requires Valid() && (vi.idx == LIST_END || Known(vi))
      modifies this, bls
      ensures Valid()
      ensures !old(Accepts(vi)) ==> out == [] && View() == old(View())
      ensures old(Accepts(vi)) && maxlen < old(lists[vi.ver].klen) ==>
        out == [] && Flagged(old(View()), View(), vi.ver, old(lists[vi.ver].readers) + 1, false)
      ensures old(Accepts(vi)) && old(lists[vi.ver].klen) <= maxlen ==>
        View() == old(View()) && ReadsKey(blockSize, blk[..], lists[vi.ver], out)
      ensures old(Accepts(vi)) && old(lists[vi.ver].klen) <= maxlen ==>
        var klen := lists[vi.ver].klen;
        |out| == klen + (if klen % blockSize == 0 then blockSize else 0) && out[..klen] == KeyOf(vi.ver)
    {
      ghost var was, rows := View(), blk[..];
      assert vi.ver in lists ==> ListOk(was, vi.ver) && RecOk(was, vi.ver, lists[vi.ver], 0);
      if vi.idx == LIST_END { return []; }
      AdmitsIffAccepts(vi);
      if Accepts(vi) { ListIsReadable(was, rows, vi.ver); }
      var r := IncReaders(vi.idx, vi.ver);
      if r.len == 0 { return []; }
      if r.klen > maxlen {
        lists := lists[vi.ver := lists[vi.ver].(readers := lists[vi.ver].readers + 1)];
        FlagKeeps(was, View(), vi.ver, was.lists[vi.ver].readers + 1, false);
        return [];
      }
      out := CopyKey(vi, r.klen, was, rows);
      assert View() == was;
      KeyRead(vi.ver, out);
    }

    lemma KeyRead(v: nat, out: Str)
      requires Valid() && v in lists && ReadsKey(blockSize, blk[..], lists[v], out)
      ensures var klen := lists[v].klen;
        |out| == klen + (if klen % blockSize == 0 then blockSize else 0) && out[..klen] == KeyOf(v)
    {
      JaggedIsRemainder(blockSize, lists[v].klen);
      ContentLen(v);
      SliceOfSlice(Flat(blk[..], lists[v].blks), 0, |out|, 0, lists[v].klen);
    }

    /** getKey, once it holds a reader. */
    method CopyKey(vi: VerIdx, klen: nat, ghost s: BlockLists.View, ghost rows: seq<Str>) returns (out: Str)
      requires Consistent(s) && vi.ver in s.lists && !s.lists[vi.ver].deleted && |rows| == |s.bls| && Rows(s.bs, rows)
      requires var l := s.lists[vi.ver]; l.klen == klen && l.blks != [] && l.blks[0] == vi.idx
      requires blockSize == s.bs && rows == blk[..] && vi.idx < |s.bls| && bls[..] == Taken(s.bls, vi.idx)
      modifies bls
      ensures bls[..] == s.bls
      ensures ReadsKey(blockSize, rows, s.lists[vi.ver], out)
    {
      ghost var l := s.lists[vi.ver];
      ListIsReadable(s, rows, vi.ver);
      var kb, krem := KeyBlocks(klen);
      ListFits(blockSize, |l.blks|, klen, l.vlen, l.vlen, kb, krem);
      ghost var recs := bls[..];
      var cur, front := ReadFront(vi.idx, vi.ver, kb, recs, rows, l.blks);
      assert Admits(recs[l.blks[kb]], vi.ver);
      var rd := ReadBlock(cur, vi.ver, 0, krem);
      FrontOn(blockSize, rows, l.blks, kb, |rd|, front);
      out := front + rd;
      var _ := DecReaders(vi.idx, vi.ver);
      assert bls[..] == s.bls;
    }

    // ---------------------------------------------------------------- comparing

    /** Compares n bytes of a block under a reader. */
    method MemcmpBlk(b: nat, version: nat, buf: Str, n: nat) returns (m: Match)
      requires b < bls.Length == blk.Length && Rows(blockSize, blk[..]) && |buf| == n <= blockSize
      requires Admits(bls[b], version) ==> bls[b].len != 0
      modifies bls
      ensures bls[..] == old(bls[..])
      ensures m == if !Admits(bls[b], version) then MATCH_REMOVED
                   else if buf == blk[b][..n] then MATCH_TRUE else MATCH_FALSE
    {
      var r := IncReaders(b, version);
      if r.len == 0 { return MATCH_REMOVED; }
      var same := buf == blk[b][..n];
      var kept := DecReaders(b, version);
      m := if !kept then MATCH_REMOVED else if same then MATCH_TRUE else MATCH_FALSE;
    }

    /** One round of the loop of compare: n more bytes. */
    method CompareNext(
      b: nat, version: nat, buf: Str, at: nat, n: nat,
      ghost j: nat, ghost recs: seq<BlkLst>, ghost rows: seq<Str>, ghost blks: seq<nat>) returns (m: Match)
      requires recs == bls[..] && rows == blk[..] && Comparable(blockSize, recs, rows, blks, version)
      requires j < |blks| && b == blks[j] && n <= blockSize
      requires at == Times(j, blockSize) && Matches(blockSize, rows, blks, buf, j) && at + n <= |buf|
      modifies bls
      ensures bls[..] == recs && at + n <= |Flat(rows, blks)|
      ensures m == if !Admits(recs[b], version) then MATCH_REMOVED
                   else if buf[..at + n] == Flat(rows, blks)[..at + n] then MATCH_TRUE else MATCH_FALSE
    {
      MatchOn(blockSize, rows, blks, buf, j, n);
      m := MemcmpBlk(b, version, buf[at..at + n], n);
    }

    /** The loop of compare.  Only the head of a list can refuse a reader, when it is marked deleted. */
    method CompareBlocks(
      b: nat, version: nat, buf: Str,
      ghost vlen: nat, ghost recs: seq<BlkLst>, ghost rows: seq<Str>, ghost blks: seq<nat>) returns (m: Match)
      requires recs == bls[..] && rows == blk[..] && Comparable(blockSize, recs, rows, blks, version)
      requires 0 < blockSize && 0 < vlen && |blks| == Needed(blockSize, |buf| + vlen) && blks[0] == b
      modifies bls
      ensures bls[..] == recs && |buf| <= |Flat(rows, blks)|
      ensures m == if !Admits(recs[b], version) then MATCH_REMOVED
                   else if buf == Flat(rows, blks)[..|buf|] then MATCH_TRUE else MATCH_FALSE
    {
      FlatLen(blockSize, rows, blks);
      NeededIsEnough(blockSize, |buf| + vlen);
      var cur, at, curlen := b, 0, |buf|;
      ghost var j := 0;
      while true
        invariant bls[..] == recs && j < |blks| && cur == blks[j] && (0 < j ==> Admits(recs[b], version))
        invariant at == Times(j, blockSize) && at + curlen == |buf| && Matches(blockSize, rows, blks, buf, j)
        decreases |blks| - j
      {
        if blockSize > curlen {
          m := CompareNext(cur, version, buf, at, curlen, j, recs, rows, blks);
          assert buf[..|buf|] == buf;
          return;
        }
        m := CompareNext(cur, version, buf, at, blockSize, j, recs, rows, blks);
        if m != MATCH_TRUE {
          if m == MATCH_FALSE { Mismatch(Flat(rows, blks), buf, at + blockSize); }
          return;
        }
        assert recs[blks[j]].idx == After(blks, j);
        at, curlen, cur := at + blockSize, curlen - blockSize, bls[cur].idx;
        j := j + 1;
        assert recs[blks[j]].version == version;
        if bls[cur].version != version { return MATCH_FALSE; }
      }
    }

    /** Compares a buffer with the key behind a handle.  For a list that lives and is not marked deleted the answer
        is MATCH_TRUE if and only if hash, length and every byte agree; nothing is changed. */
    method Compare(vi: VerIdx, buf: Str, hash: nat) returns (m: Match)
      requires Valid() && Known(vi)
      modifies bls
      ensures Valid() && View() == old(View())
      ensures vi.ver !in lists ==> m == MATCH_FALSE
      ensures vi.ver in lists && lists[vi.ver].deleted ==>
        m == if hash == lists[vi.ver].hash && |buf| == lists[vi.ver].klen then MATCH_REMOVED else MATCH_FALSE
      ensures vi.ver in lists && !lists[vi.ver].deleted ==>
        m == if hash == lists[vi.ver].hash && buf == KeyOf(vi.ver) then MATCH_TRUE else MATCH_FALSE
    {
      HandleIsCurrentIffLive(View(), vi.ver);
      if vi.ver in lists {
        ListIsComparable(View(), blk[..], vi.ver);
        assert ListOk(View(), vi.ver);
        ContentLen(vi.ver);
      }
      if bls[vi.idx].hash != hash { return MATCH_FALSE; }
      if bls[vi.idx].version != vi.ver { return MATCH_FALSE; }
      if bls[vi.idx].klen != |buf| { return MATCH_FALSE; }
      m := CompareBlocks(vi.idx, vi.ver, buf, lists[vi.ver].vlen, bls[..], blk[..], lists[vi.ver].blks);
    }

    /** The lengths behind a handle: of key and value together, and of the value.  A deleted list still has them. */
    method Len(vi: VerIdx) returns (len: nat, vlen: nat)
      requires Valid() && Known(vi)
      ensures (len, vlen) == if vi.ver in lists then (lists[vi.ver].klen + lists[vi.ver].vlen, lists[vi.ver].vlen) else (0, 0)
    {
      HandleIsCurrentIffLive(View(), vi.ver);
      if vi.ver in lists {
        ListIsComparable(View(), blk[..], vi.ver);
        assert ListOk(View(), vi.ver) && RecOk(View(), vi.ver, lists[vi.ver], 0);
      }
      var r := bls[vi.idx];
      if vi.ver == r.version && r.len > 0 { return r.len, r.len - r.klen; }
      return 0, 0;
    }
  }
}
