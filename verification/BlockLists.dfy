/** The block lists of the store, as values: which records, links and free indices fit together.  A list is a
    chain of block records, and its head record also carries its readers and lengths. */
module BlockLists {
  import opened Bytes
  import opened Chains
  import opened Handles
  import opened Flats

  /** s_bls[i]. */
  datatype BlkLst = BlkLst(
    isKey: bool, isDeleted: bool, readers: int, idx: nat, version: nat, len: nat, klen: nat, hash: nat)

  /** What one allocation stands for. */
  datatype List = List(blks: seq<nat>, klen: nat, vlen: nat, hash: nat, readers: nat, deleted: bool)

  /** Everything the store keeps but the bytes.  `owner[b]` is the version of the list block b belongs to, 0 when
      b is free; `heads` records every handle alloc ever gave out. */
  datatype View = View(
    bs: nat, lv: seq<nat>, free: seq<nat>, bls: seq<BlkLst>, version: nat,
    owner: seq<nat>, lists: map<nat, List>, heads: map<nat, nat>)

  predicate RecOk(s: View, v: nat, l: List, i: nat)
    requires i < |l.blks|
  {
    var b := l.blks[i];
    && b < |s.bls| == |s.lv| == |s.owner|
    && s.owner[b] == v
    && s.bls[b].version == v && s.bls[b].idx == After(l.blks, i) && s.bls[b].len == l.klen + l.vlen
    && (i + 1 < |l.blks| ==> s.lv[b] == After(l.blks, i))
    && (if i == 0 then
          s.bls[b].isKey && s.bls[b].klen == l.klen && s.bls[b].hash == l.hash
          && s.bls[b].isDeleted == l.deleted && s.bls[b].readers == l.readers
        else
          !s.bls[b].isDeleted && s.bls[b].readers == 0)
  }

  predicate ListOk(s: View, v: nat) {
    v in s.lists && 0 < s.bs &&
    var l := s.lists[v];
    && 0 < v < s.version && 0 < l.klen && 0 < l.vlen
    && |l.blks| == Needed(s.bs, l.klen + l.vlen)
    && 0 < |l.blks|
    && Distinct(l.blks)
    && (forall i | 0 <= i < |l.blks| :: RecOk(s, v, l, i))
    && (l.deleted ==> l.readers > 0)
    && v in s.heads && s.heads[v] == l.blks[0]
  }

  predicate OwnerOk(s: View, b: nat) {
    && b < |s.owner|
    && (s.owner[b] == 0 <==> b in s.free)
    && (s.owner[b] != 0 ==> s.owner[b] in s.lists && b in s.lists[s.owner[b]].blks)
  }

  /** A handle alloc once gave out is current only while its list lives. */
  predicate HeadOk(s: View, v: nat) {
    v in s.heads ==>
      0 < v < s.version && s.heads[v] < |s.bls| && (s.bls[s.heads[v]].version == v ==> v in s.lists)
  }

  ghost predicate Consistent(s: View) {
    && 4 < s.bs && 0 < s.version
    && |s.lv| == |s.bls| == |s.owner| < LIST_END
    && (forall b | 0 <= b < |s.owner| :: OwnerOk(s, b))
    && (forall i | 0 <= i < |s.free| :: s.free[i] < |s.owner|)
    && (forall v | v in s.lists :: ListOk(s, v))
    && (forall v :: HeadOk(s, v))
    && (forall b | 0 <= b < |s.bls| :: s.bls[b].version < s.version && IsLink(s, s.bls[b].idx))
  }

  predicate IsLink(s: View, i: nat) { i == LIST_END || i < |s.bls| }

  // ---------------------------------------------------------------- alloc

  /** After alloc: the first k free blocks form the list v. */
  ghost predicate Allocated(s: View, s': View, k: nat, l: List) {
    && 0 < s.bs && 0 < k <= |s.free| && l.blks == s.free[..k] && k == Needed(s.bs, l.klen + l.vlen)
    && l.readers == 0 && !l.deleted && 0 < l.klen && 0 < l.vlen
    && s'.bs == s.bs && s'.lv == s.lv && s'.free == s.free[k..] && s'.version == s.version + 1
    && |s'.bls| == |s.bls| == |s'.owner| == |s.owner|
    && s'.lists == s.lists[s.version := l] && s'.heads == s.heads[s.version := l.blks[0]]
    && (forall i | 0 <= i < k :: RecOk(s', s.version, l, i))
    && (forall b | 0 <= b < |s.bls| && b !in l.blks :: s'.bls[b] == s.bls[b] && s'.owner[b] == s.owner[b])
  }

  /** `owner` with the blocks of a list given to v. */
  function Owned(owner: seq<nat>, blks: seq<nat>, v: nat): (r: seq<nat>)
    ensures |r| == |owner| && forall b | 0 <= b < |owner| :: r[b] == if b in blks then v else owner[b]
  {
    seq(|owner|, b requires 0 <= b < |owner| => if b in blks then v else owner[b])
  }

  /** The record the loop of alloc writes for block i of a new list. */
  function Fresh(v: nat, l: List, i: nat): BlkLst
    requires i < |l.blks|
  {
    BlkLst(false, false, 0, After(l.blks, i), v, l.klen + l.vlen, 0, 0)
  }

  /** The records after the first i blocks of a new list were written. */
  function Written(bls: seq<BlkLst>, v: nat, l: List, i: nat): (r: seq<BlkLst>)
    requires i <= |l.blks| && forall j | 0 <= j < |l.blks| :: l.blks[j] < |bls|
    ensures |r| == |bls|
  {
    if i == 0 then bls else Written(bls, v, l, i - 1)[l.blks[i - 1] := Fresh(v, l, i - 1)]
  }

  lemma {:induction false} WrittenAt(bls: seq<BlkLst>, v: nat, l: List, i: nat, b: nat)
    requires Distinct(l.blks) && forall j | 0 <= j < |l.blks| :: l.blks[j] < |bls|
    requires i <= |l.blks| && b < |bls|
    ensures forall j | 0 <= j < i && l.blks[j] == b :: Written(bls, v, l, i)[b] == Fresh(v, l, j)
    ensures b !in l.blks[..i] ==> Written(bls, v, l, i)[b] == bls[b]
  {
    if i > 0 {
      WrittenAt(bls, v, l, i - 1, b);
      assert l.blks[..i] == l.blks[..i - 1] + [l.blks[i - 1]];
    }
  }

  lemma WrittenIsLinked(s: View, k: nat, l: List)
    requires 0 < s.bs && 0 < k <= |s.free| && l.blks == s.free[..k] && k == Needed(s.bs, l.klen + l.vlen)
    requires l.readers == 0 && !l.deleted && 0 < l.klen && 0 < l.vlen
    requires Distinct(l.blks) && forall j | 0 <= j < |l.blks| :: l.blks[j] < |s.bls|
    ensures Linked(s, Written(s.bls, s.version, l, k), k, l)
  {
    var bls := Written(s.bls, s.version, l, k);
    assert l.blks[..k] == l.blks;
    forall b | 0 <= b < |bls| && b !in l.blks ensures bls[b] == s.bls[b] { WrittenAt(s.bls, s.version, l, k, b); }
    forall i | 0 <= i < k ensures bls[l.blks[i]] == Fresh(s.version, l, i) {
      WrittenAt(s.bls, s.version, l, k, l.blks[i]);
    }
  }

  /** The head fields alloc adds at the end. */
  function Titled(r: BlkLst, l: List): BlkLst {
    r.(isKey := true, hash := l.hash, len := l.klen + l.vlen, klen := l.klen, isDeleted := false)
  }

  ghost predicate Linked(s: View, bls: seq<BlkLst>, k: nat, l: List) {
    && 0 < s.bs && 0 < k <= |s.free| && l.blks == s.free[..k] && k == Needed(s.bs, l.klen + l.vlen)
    && l.readers == 0 && !l.deleted && 0 < l.klen && 0 < l.vlen
    && |bls| == |s.bls| && (forall b | 0 <= b < |bls| && b !in l.blks :: bls[b] == s.bls[b])
    && (forall i | 0 <= i < k :: l.blks[i] < |bls|)
    && (forall i {:trigger bls[l.blks[i]]} | 0 <= i < k :: bls[l.blks[i]] == Fresh(s.version, l, i))
  }

  function WithList(s: View, bls: seq<BlkLst>, k: nat, l: List): View
    requires k <= |s.free| && l.blks != [] && l.blks[0] < |bls|
  {
    s.(free := s.free[k..], bls := bls[l.blks[0] := Titled(bls[l.blks[0]], l)], version := s.version + 1,
       owner := Owned(s.owner, l.blks, s.version),
       lists := s.lists[s.version := l], heads := s.heads[s.version := l.blks[0]])
  }

  /** The records alloc wrote make the blocks it popped a list. */
  lemma AllocDone(s: View, bls: seq<BlkLst>, k: nat, l: List, h: nat)
    requires Consistent(s) && Chain(s.lv, h, s.free) && Linked(s, bls, k, l)
    ensures Allocated(s, WithList(s, bls, k, l), k, l) && Consistent(WithList(s, bls, k, l))
  {
    var s' := WithList(s, bls, k, l);
    forall i | 0 <= i < k ensures RecOk(s', s.version, l, i) {
      assert l.blks[i] in l.blks && bls[l.blks[i]] == Fresh(s.version, l, i);
      assert s.lv[s.free[i]] == After(s.free, i);
    }
    AllocKeeps(s, s', k, l);
  }

  lemma ListUntouched(s: View, s': View, v: nat)
    requires ListOk(s, v) && v in s'.lists && s'.lists[v] == s.lists[v] && s'.bs == s.bs
    requires |s'.bls| == |s.bls| && |s'.lv| == |s.lv| && |s'.owner| == |s.owner| && s.version <= s'.version
    requires v in s'.heads && s'.heads[v] == s.heads[v]
    requires forall b | 0 <= b < |s.bls| && b < |s.owner| && s.owner[b] == v ::
      s'.bls[b] == s.bls[b] && s'.owner[b] == v && b < |s.lv| && s'.lv[b] == s.lv[b]
    ensures ListOk(s', v)
  {
    var l := s.lists[v];
    forall i | 0 <= i < |l.blks| ensures RecOk(s', v, l, i) { assert RecOk(s, v, l, i); }
  }

  lemma AllocOwner(s: View, s': View, k: nat, l: List, b: nat)
    requires Allocated(s, s', k, l) && Distinct(s.free) && b < |s.owner| && OwnerOk(s, b) && s.version != 0
    requires s.owner[b] != s.version
    ensures OwnerOk(s', b)
  {
    assert s.free == l.blks + s'.free;
    if b in l.blks {
      var i :| 0 <= i < k && l.blks[i] == b;
      assert RecOk(s', s.version, l, i);
      forall j | 0 <= j < |s'.free| ensures s'.free[j] != b { assert s'.free[j] == s.free[k + j] && s.free[i] == b; }
    }
  }

  lemma AllocHead(s: View, s': View, k: nat, l: List, w: nat)
    requires Allocated(s, s', k, l) && HeadOk(s, w) && HeadOk(s, s.version) && 0 < s.version
    ensures HeadOk(s', w)
  {
    if w == s.version {
      assert RecOk(s', w, l, 0);
    } else if w in s.heads && s.heads[w] in l.blks {
      var i :| 0 <= i < k && l.blks[i] == s.heads[w];
      assert RecOk(s', s.version, l, i);
    }
  }

  lemma AllocKeeps(s: View, s': View, k: nat, l: List)
    requires Consistent(s) && Distinct(s.free) && Allocated(s, s', k, l)
    ensures Consistent(s')
  {
    var v := s.version;
    assert s.free == l.blks + s'.free;
    assert HeadOk(s, v);
    forall b | 0 <= b < |s'.owner| ensures OwnerOk(s', b) {
      assert OwnerOk(s, b);
      assert s.owner[b] != 0 ==> ListOk(s, s.owner[b]);
      AllocOwner(s, s', k, l, b);
    }
    forall w | w in s'.lists ensures ListOk(s', w) {
      if w == v {
        assert RecOk(s', v, l, 0);
      } else {
        assert ListOk(s, w);
        forall b | 0 <= b < |s.bls| && s.owner[b] == w ensures b !in l.blks { assert OwnerOk(s, b); }
        ListUntouched(s, s', w);
      }
    }
    forall w ensures HeadOk(s', w) { assert HeadOk(s, w); AllocHead(s, s', k, l, w); }
    forall b | 0 <= b < |s'.bls| ensures s'.bls[b].version < s'.version && IsLink(s', s'.bls[b].idx) {
      if b in l.blks {
        var i :| 0 <= i < k && l.blks[i] == b;
        assert RecOk(s', s.version, l, i);
        if i + 1 < k { assert RecOk(s', s.version, l, i + 1); }
      }
    }
  }

  // ---------------------------------------------------------------- alloc without enough blocks

  /** The records of a list that alloc could not complete. */
  lemma WrittenShort(s: View, l: List)
    requires Consistent(s) && l.blks == s.free && |s.free| > 1 && Distinct(s.free)
    requires forall i | 0 <= i < |s.free| :: s.free[i] < |s.bls|
    ensures var bls, n := Written(s.bls, s.version, l, |l.blks| - 1), |s.free|;
      && (forall i {:trigger bls[s.free[i]]} | 0 <= i < n - 1 :: bls[s.free[i]] == Fresh(s.version, l, i))
      && bls[s.free[n - 1]] == s.bls[s.free[n - 1]]
      && (forall b | 0 <= b < |bls| && b !in s.free :: bls[b] == s.bls[b])
  {
    var n := |s.free|;
    forall i | 0 <= i < n - 1 ensures Written(s.bls, s.version, l, n - 1)[s.free[i]] == Fresh(s.version, l, i) {
      WrittenAt(s.bls, s.version, l, n - 1, s.free[i]);
    }
    WrittenAt(s.bls, s.version, l, n - 1, s.free[n - 1]);
    forall b | 0 <= b < |s.bls| && b !in s.free ensures Written(s.bls, s.version, l, n - 1)[b] == s.bls[b] {
      WrittenAt(s.bls, s.version, l, n - 1, b);
    }
  }

  /** Where the record of the last free block leads, which alloc has not written when it finds no block behind it. */
  ghost function Stale(s: View): nat
    requires Consistent(s) && s.free != []
  {
    s.bls[s.free[|s.free| - 1]].idx
  }

  function Position(blks: seq<nat>, b: nat): (p: nat)
    requires b in blks
    ensures p < |blks| && blks[p] == b
  {
    if blks[0] == b then 0 else 1 + Position(blks[1..], b)
  }

  /** The blocks behind the stale link: none, or the rest of a live list. */
  ghost function Behind(s: View): (r: seq<nat>)
    requires Consistent(s) && s.free != [] && Stale(s) !in s.free
    ensures r == [] <==> Stale(s) == LIST_END
  {
    if Stale(s) == LIST_END then []
    else
      assert OwnerOk(s, Stale(s));
      var blks := s.lists[s.owner[Stale(s)]].blks;
      blks[Position(blks, Stale(s))..]
  }

  /** They lead from one to the next, and to the end of the list. */
  lemma BehindIsRun(s: View)
    requires Consistent(s) && s.free != [] && Stale(s) !in s.free
    ensures var r := Behind(s);
      && Distinct(r) && First(r) == Stale(s)
      && (forall i | 0 <= i < |r| :: r[i] < |s.bls| && r[i] !in s.free)
      && (forall i {:trigger s.bls[r[i]]} | 0 <= i < |r| :: s.bls[r[i]].idx == After(r, i))
  {
    if Stale(s) != LIST_END {
      assert OwnerOk(s, Stale(s));
      var v, r := s.owner[Stale(s)], Behind(s);
      var blks := s.lists[v].blks;
      var p := Position(blks, Stale(s));
      ListIsRun(s, v);
      forall i | 0 <= i < |r| ensures r[i] < |s.bls| && r[i] !in s.free && s.bls[r[i]].idx == After(r, i) {
        assert r[i] == blks[p + i] && s.bls[blks[p + i]].idx == After(blks, p + i);
      }
    }
  }

  /** The free blocks, linked as far as alloc came. */
  ghost predicate LinkedShort(s: View, recs: seq<BlkLst>)
    requires Consistent(s) && s.free != []
  {
    && Distinct(s.free) && |recs| == |s.bls|
    && (forall i {:trigger recs[s.free[i]]} | 0 <= i < |s.free| - 1 :: recs[s.free[i]].idx == After(s.free, i))
    && recs[s.free[|s.free| - 1]].idx == Stale(s)
    && (forall b | 0 <= b < |recs| && b !in s.free :: recs[b] == s.bls[b])
  }

  /** What doFree walks then: the free blocks, and the blocks behind the stale link. */
  lemma ShortIsRun(s: View, recs: seq<BlkLst>)
    requires Consistent(s) && s.free != [] && LinkedShort(s, recs) && Stale(s) !in s.free
    ensures var run := s.free + Behind(s);
      && Distinct(run) && (forall i | 0 <= i < |run| :: run[i] < |recs|)
      && (forall i {:trigger recs[run[i]]} | 0 <= i < |run| :: recs[run[i]].idx == After(run, i))
  {
    BehindIsRun(s);
    forall i | 0 <= i < |s.free| ensures recs[s.free[i]].idx == LinkTo(s.free + Behind(s), i + 1) {
      if i < |s.free| - 1 { assert recs[s.free[i]].idx == After(s.free, i); }
    }
    forall i | 0 <= i < |Behind(s)| ensures recs[Behind(s)[i]].idx == After(Behind(s), i) {
      assert s.bls[Behind(s)[i]].idx == After(Behind(s), i);
    }
    RunsJoin(recs, s.free, Behind(s));
  }

  lemma RunsJoin(recs: seq<BlkLst>, a: seq<nat>, r: seq<nat>)
    requires Distinct(a) && Distinct(r) && (forall i | 0 <= i < |r| :: r[i] !in a)
    requires (forall i | 0 <= i < |a| :: a[i] < |recs|) && (forall i | 0 <= i < |r| :: r[i] < |recs|)
    requires forall i {:trigger recs[a[i]]} | 0 <= i < |a| :: recs[a[i]].idx == LinkTo(a + r, i + 1)
    requires forall i {:trigger recs[r[i]]} | 0 <= i < |r| :: recs[r[i]].idx == After(r, i)
    ensures var run := a + r;
      && Distinct(run) && (forall i | 0 <= i < |run| :: run[i] < |recs|)
      && (forall i {:trigger recs[run[i]]} | 0 <= i < |run| :: recs[run[i]].idx == After(run, i))
  {
    var run := a + r;
    forall i, j | 0 <= i < j < |run| ensures run[i] != run[j] {
      if i < |a| <= j { assert run[j] == r[j - |a|] && run[i] in a; }
    }
    forall i | 0 <= i < |run| ensures run[i] < |recs| && recs[run[i]].idx == After(run, i) {
      if i < |a| { assert run[i] == a[i] && recs[a[i]].idx == LinkTo(run, i + 1); }
      else { assert run[i] == r[i - |a|] && recs[r[i - |a|]].idx == After(r, i - |a|); }
    }
  }

  /** The n-th block that the walk to the end of a list comes to. */
  function Walk(recs: seq<BlkLst>, b: nat, n: nat): nat {
    if n == 0 then b
    else
      var c := Walk(recs, b, n - 1);
      if c < |recs| then recs[c].idx else c
  }

  ghost predicate WalkEnds(recs: seq<BlkLst>, b: nat) { exists k: nat :: Walk(recs, b, k) == LIST_END }

  lemma {:induction false} WalkAlong(recs: seq<BlkLst>, run: seq<nat>, k: nat)
    requires k < |run| && forall i | 0 <= i < |run| :: run[i] < |recs|
    requires forall i {:trigger recs[run[i]]} | 0 <= i < |run| :: recs[run[i]].idx == After(run, i)
    ensures Walk(recs, run[0], k) == run[k]
  {
    if k > 0 {
      WalkAlong(recs, run, k - 1);
      assert recs[run[k - 1]].idx == After(run, k - 1);
    }
  }

  /** With the stale link among the free blocks the walk never leaves them. */
  lemma {:induction false} WalkStays(s: View, recs: seq<BlkLst>, k: nat)
    requires Consistent(s) && s.free != [] && LinkedShort(s, recs) && Stale(s) in s.free
    ensures Walk(recs, s.free[0], k) in s.free
  {
    if k > 0 {
      WalkStays(s, recs, k - 1);
      var i :| 0 <= i < |s.free| && s.free[i] == Walk(recs, s.free[0], k - 1);
      if i < |s.free| - 1 { assert recs[s.free[i]].idx == After(s.free, i); }
    }
  }

  /** What alloc left when it ran out of blocks is walked to an end if and only if the record of the last free block,
      from an earlier list or never written, does not lead to a free block. */
  lemma ShortWalkEndsIff(s: View, recs: seq<BlkLst>)
    requires Consistent(s) && s.free != [] && LinkedShort(s, recs)
    ensures WalkEnds(recs, s.free[0]) <==> Stale(s) !in s.free
  {
    if Stale(s) in s.free {
      forall k: nat ensures Walk(recs, s.free[0], k) != LIST_END { WalkStays(s, recs, k); }
    } else {
      var run := s.free + Behind(s);
      ShortIsRun(s, recs);
      WalkAlong(recs, run, |run| - 1);
      assert recs[run[|run| - 1]].idx == LIST_END;
      assert Walk(recs, s.free[0], |run|) == LIST_END;
    }
  }

  /** A record that was never written leads to block 0.  In a store where nothing was ever stored the walk goes in
      circles. */
  lemma FreshShortNeverEnds(s: View, recs: seq<BlkLst>)
    requires Consistent(s) && s.free != [] && LinkedShort(s, recs)
    requires forall b | 0 <= b < |s.bls| :: s.bls[b].idx == 0
    ensures !WalkEnds(recs, s.free[0])
  {
    assert OwnerOk(s, 0);
    if v :| v in s.lists { ListEnds(s, v); }
    ShortWalkEndsIff(s, recs);
  }

  lemma ListEnds(s: View, v: nat)
    requires Consistent(s) && v in s.lists
    ensures exists b :: 0 <= b < |s.bls| && s.bls[b].idx == LIST_END
  {
    var l := s.lists[v];
    assert ListOk(s, v) && RecOk(s, v, l, |l.blks| - 1);
  }

  /** After the free of what alloc had linked: the free list is as it was, and the versions are cleared of all blocks
      behind the stale link but the last. */
  ghost predicate ShortFreed(s: View, s': View)
    requires Consistent(s) && s.free != [] && Stale(s) !in s.free
  {
    var r := Behind(s);
    && s'.bs == s.bs && s'.free == s.free && s'.version == s.version + 1
    && s'.owner == s.owner && s'.lists == s.lists && s'.heads == s.heads && |s'.lv| == |s.lv| && |s'.bls| == |s.bls|
    && (forall b | 0 <= b < |s.bls| && b !in s.free :: s'.bls[b] == if Wiped(r, b) then s.bls[b].(version := 0) else s.bls[b])
    && (forall b | 0 <= b < |s.lv| && b !in s.free && (r == [] || b != r[|r| - 1]) :: s'.lv[b] == s.lv[b])
    && (forall b | 0 <= b < |s.bls| && b in s.free ::
          s'.bls[b].version in {0, s.version, s.bls[b].version} && IsLink(s', s'.bls[b].idx))
  }

  /** The links of the free list are those of the free blocks alone, also once the last block leads to no other. */
  lemma ShortChain(s: View, run: seq<nat>)
    requires Consistent(s) && s.free != [] && Stale(s) !in s.free && run == s.free + Behind(s)
    requires Chain(s.lv, s.free[0], s.free)
    ensures run[|run| - 1] < |s.lv| && Chain(s.lv[run[|run| - 1] := LIST_END], s.free[0], s.free)
  {
    var end, lv := run[|run| - 1], s.lv;
    BehindIsRun(s);
    if Behind(s) == [] {
      assert end == s.free[|s.free| - 1] && lv[end] == After(s.free, |s.free| - 1);
      assert lv[end := LIST_END] == lv;
    } else {
      assert end == Behind(s)[|Behind(s)| - 1];
      ChainFrame(lv, lv[end := LIST_END], s.free[0], s.free);
    }
  }

  /** What doFree did to the blocks it walked, and to no other. */
  lemma ShortDone(s: View, recs: seq<BlkLst>, s': View, run: seq<nat>)
    requires Consistent(s) && s.free != [] && LinkedShort(s, recs) && Stale(s) !in s.free && run == s.free + Behind(s)
    requires Distinct(run) && forall i | 0 <= i < |run| :: run[i] < |recs|
    requires forall i {:trigger recs[s.free[i]]} | 0 <= i < |s.free| ::
      recs[s.free[i]].version in {s.version, s.bls[s.free[i]].version}
    requires s'.bs == s.bs && s'.free == s.free && s'.version == s.version + 1
    requires s'.owner == s.owner && s'.lists == s.lists && s'.heads == s.heads
    requires |s'.bls| == |recs| && s'.lv == s.lv[run[|run| - 1] := LIST_END]
    requires forall i {:trigger run[i]} | 0 <= i < |run| ::
      s'.bls[run[i]] == if i == 0 || i + 1 < |run| then recs[run[i]].(version := 0) else recs[run[i]]
    requires forall b | 0 <= b < |recs| && b !in run :: s'.bls[b] == recs[b]
    ensures ShortFreed(s, s')
  {
    var n, r := |s.free|, Behind(s);
    forall b | 0 <= b < |s.bls| && b !in s.free
      ensures s'.bls[b] == if Wiped(r, b) then s.bls[b].(version := 0) else s.bls[b]
    {
      if b in r {
        var i :| 0 <= i < |r| && r[i] == b;
        assert run[n + i] == b;
      }
    }
    forall b | 0 <= b < |s.bls| && b in s.free
      ensures s'.bls[b].version in {0, s.version, s.bls[b].version} && IsLink(s', s'.bls[b].idx)
    {
      var i :| 0 <= i < n && s.free[i] == b;
      assert run[i] == b && recs[s.free[i]].version in {s.version, s.bls[b].version};
      if i < n - 1 { assert recs[s.free[i]].idx == After(s.free, i); }
    }
  }

  predicate Wiped(r: seq<nat>, b: nat) { b in r && b != r[|r| - 1] }

  /** The store is as before if and only if the stale link is the end mark or leads to the last block of a list, whose
      record has the end mark. */
  lemma ShortRestoredIff(s: View, s': View)
    requires Consistent(s) && s.free != [] && Stale(s) !in s.free && ShortFreed(s, s')
    ensures Stale(s) == LIST_END || Stale(s) < |s.bls|
    ensures Consistent(s') <==> Stale(s) == LIST_END || s.bls[Stale(s)].idx == LIST_END
  {
    var r := Behind(s);
    BehindIsRun(s);
    if r != [] { assert s.bls[r[0]].idx == After(r, 0); }
    if |r| <= 1 {
      ShortRestored(s, s');
    } else {
      assert Wiped(r, r[0]) && OwnerOk(s, r[0]);
      var v := s.owner[r[0]];
      var i :| 0 <= i < |s.lists[v].blks| && s.lists[v].blks[i] == r[0];
      assert !RecOk(s', v, s.lists[v], i);
      assert !ListOk(s', v);
    }
  }

  lemma ShortRestored(s: View, s': View)
    requires Consistent(s) && s.free != [] && Stale(s) !in s.free && ShortFreed(s, s') && |Behind(s)| <= 1
    ensures Consistent(s')
  {
    BehindIsRun(s);
    forall b | 0 <= b < |s'.owner| ensures OwnerOk(s', b) { assert OwnerOk(s, b); }
    forall w | w in s'.lists ensures ListOk(s', w) { ShortKeepsList(s, s', w); }
    forall w ensures HeadOk(s', w) { assert HeadOk(s, w); }
  }

  lemma ShortKeepsList(s: View, s': View, w: nat)
    requires Consistent(s) && s.free != [] && Stale(s) !in s.free && ShortFreed(s, s') && |Behind(s)| <= 1
    requires w in s.lists
    ensures ListOk(s', w)
  {
    var l := s.lists[w];
    assert ListOk(s, w);
    BehindIsRun(s);
    forall i | 0 <= i < |l.blks| ensures RecOk(s', w, l, i) {
      assert RecOk(s, w, l, i) && OwnerOk(s, l.blks[i]);
      if Behind(s) != [] { assert s.bls[Behind(s)[0]].idx == After(Behind(s), 0); }
      if i + 1 < |l.blks| { assert RecOk(s, w, l, i + 1); }
    }
  }

  /** A list the stale link leads into loses the versions from that block on, up to its last, and no other list does. */
  lemma ShortClears(s: View, s': View, w: nat, i: nat)
    requires Consistent(s) && s.free != [] && Stale(s) !in s.free && ShortFreed(s, s')
    requires w in s.lists && i < |s.lists[w].blks| && s.lists[w].blks[i] < |s.bls|
    ensures var blks := s.lists[w].blks;
      s'.bls[blks[i]].version ==
        if Stale(s) in blks && Position(blks, Stale(s)) <= i < |blks| - 1 then 0 else w
  {
    var blks := s.lists[w].blks;
    assert ListOk(s, w) && RecOk(s, w, s.lists[w], i) && OwnerOk(s, blks[i]);
    if Stale(s) in blks {
      var p, r := Position(blks, Stale(s)), Behind(s);
      assert RecOk(s, w, s.lists[w], p);
      assert r == blks[p..];
      if p <= i { assert r[i - p] == blks[i]; }
    } else {
      BehindOfOther(s, w, i);
    }
  }

  lemma BehindOfOther(s: View, w: nat, i: nat)
    requires Consistent(s) && s.free != [] && Stale(s) !in s.free
    requires w in s.lists && i < |s.lists[w].blks| && Stale(s) !in s.lists[w].blks
    ensures s.lists[w].blks[i] !in Behind(s)
  {
    var b := s.lists[w].blks[i];
    if Stale(s) != LIST_END && b in Behind(s) {
      assert OwnerOk(s, Stale(s));
      var v := s.owner[Stale(s)];
      assert ListOk(s, w) && RecOk(s, w, s.lists[w], i);
      assert b in s.lists[v].blks;
      BlocksArePartitioned(s, b);
    }
  }

  /** So a list is lost, its handle refused by everyone, if and only if the stale link leads to its first block and it
      has more than one. */
  lemma ShortLosesIff(s: View, s': View, w: nat)
    requires Consistent(s) && s.free != [] && Stale(s) !in s.free && ShortFreed(s, s')
    requires w in s.lists && !s.lists[w].deleted
    ensures w in s.heads && s.heads[w] < |s'.bls|
    ensures Admits(s'.bls[s.heads[w]], w) <==> !(s.heads[w] == Stale(s) && s.bls[Stale(s)].idx != LIST_END)
  {
    var l := s.lists[w];
    assert ListOk(s, w) && RecOk(s, w, l, 0) && OwnerOk(s, l.blks[0]);
    ShortClears(s, s', w, 0);
    if |l.blks| > 1 { assert RecOk(s, w, l, 1); }
    assert Stale(s) in l.blks ==> (Position(l.blks, Stale(s)) == 0 <==> Stale(s) == l.blks[0]);
  }

  /** It can happen: four blocks of 8 bytes, a list on the first two, and a record that was never written behind it. */
  lemma AShortAllocCanLose()
    ensures exists s: View, w ::
      && Consistent(s) && |s.free| > 1 && Stale(s) !in s.free
      && w in s.lists && !s.lists[w].deleted && s.heads[w] == Stale(s) < |s.bls| && s.bls[Stale(s)].idx != LIST_END
  {
    var l := List([0, 1], 1, 8, 0, 0, false);
    var unused := BlkLst(false, false, 0, 0, 0, 0, 0, 0);
    var bls := [BlkLst(true, false, 0, 1, 1, 9, 1, 0), BlkLst(false, false, 0, LIST_END, 1, 9, 0, 0), unused, unused];
    var s := View(8, [1, 2, 3, LIST_END], [2, 3], bls, 2, [1, 1, 0, 0], map[1 := l], map[1 := 0]);
    assert RecOk(s, 1, l, 0) && RecOk(s, 1, l, 1) && Needed(8, 9) == 2;
    assert ListOk(s, 1) && OwnerOk(s, 0) && OwnerOk(s, 1) && OwnerOk(s, 2) && OwnerOk(s, 3);
    assert Consistent(s) && Stale(s) == 0;
  }

  // ---------------------------------------------------------------- doFree

  /** After doFree: the blocks of list v lead the free list, and every version in it but the tail's is cleared. */
  ghost predicate Freed(s: View, s': View, v: nat) {
    && v in s.lists && s.lists[v].blks != [] && s'.bs == s.bs && s'.version == s.version
    && |s'.lv| == |s.lv| && |s'.bls| == |s.bls| && |s'.owner| == |s.owner|
    && s'.lists == s.lists - {v} && s'.heads == s.heads
    && var blks := s.lists[v].blks;
    && s'.free == blks + s.free
    && (forall b | 0 <= b < |s.owner| :: s'.owner[b] == if b in blks then 0 else s.owner[b])
    && (forall b | 0 <= b < |s.bls| && b !in blks :: s'.bls[b] == s.bls[b])
    && (forall b | 0 <= b < |s.lv| && b !in blks :: s'.lv[b] == s.lv[b])
    && blks[0] < |s'.bls| && s'.bls[blks[0]].version == 0
    && (forall b | 0 <= b < |s.bls| && b in blks :: s'.bls[b].version in {0, v} && s'.bls[b].idx == s.bls[b].idx)
  }

  lemma FreeKeeps(s: View, s': View, v: nat)
    requires Consistent(s) && Freed(s, s', v)
    ensures Consistent(s')
  {
    var blks := s.lists[v].blks;
    assert ListOk(s, v);
    forall i | 0 <= i < |blks| ensures blks[i] < |s.owner| && s.owner[blks[i]] == v { assert RecOk(s, v, s.lists[v], i); }
    forall b | 0 <= b < |s'.owner| ensures OwnerOk(s', b) {
      assert OwnerOk(s, b);
      assert b in s'.free <==> b in blks || b in s.free;
    }
    forall w | w in s'.lists ensures ListOk(s', w) {
      assert ListOk(s, w);
      ListUntouched(s, s', w);
    }
    forall w ensures HeadOk(s', w) {
      assert HeadOk(s, w);
      if w in s.heads && s.heads[w] in blks {
        assert s'.bls[s.heads[w]].version in {0, v};
      }
    }
  }

  /** A live list as a run of links: what free(st, en) splices back. */
  lemma ListIsRun(s: View, v: nat)
    requires Consistent(s) && v in s.lists
    ensures var blks := s.lists[v].blks;
      && blks != [] && Distinct(blks)
      && (forall i | 0 <= i < |blks| :: blks[i] < |s.bls| && blks[i] !in s.free)
      && (forall i | 0 <= i < |blks| - 1 :: s.lv[blks[i]] == After(blks, i))
      && (forall i {:trigger s.bls[blks[i]]} | 0 <= i < |blks| :: s.bls[blks[i]].idx == After(blks, i))
      && (forall i | 0 <= i < |blks| :: s.bls[blks[i]].version == v)
  {
    var l := s.lists[v];
    assert ListOk(s, v);
    forall i | 0 <= i < |l.blks|
      ensures l.blks[i] < |s.bls| && l.blks[i] !in s.free
      ensures i < |l.blks| - 1 ==> s.lv[l.blks[i]] == After(l.blks, i)
      ensures s.bls[l.blks[i]].idx == After(l.blks, i) && s.bls[l.blks[i]].version == v
    {
      assert RecOk(s, v, l, i) && OwnerOk(s, l.blks[i]);
    }
  }

  /** The same records after the head of the list changed its count or mark. */
  function Marked(bls: seq<BlkLst>, b: nat, readers: int, deleted: bool): (r: seq<BlkLst>)
    requires b < |bls|
    ensures |r| == |bls|
  {
    bls[b := bls[b].(readers := readers, isDeleted := deleted)]
  }

  lemma MarkedIsRun(s: View, v: nat, readers: int, deleted: bool)
    requires Consistent(s) && v in s.lists
    ensures var blks := s.lists[v].blks;
      && blks != [] && Distinct(blks) && blks[0] < |s.bls|
      && (forall i | 0 <= i < |blks| :: blks[i] < |s.bls| && blks[i] !in s.free)
      && (forall i | 0 <= i < |blks| - 1 :: s.lv[blks[i]] == After(blks, i))
      && var bls := Marked(s.bls, blks[0], readers, deleted);
      && (forall i {:trigger bls[blks[i]]} | 0 <= i < |blks| :: bls[blks[i]].idx == After(blks, i))
      && (forall b | 0 <= b < |bls| && b in blks :: bls[b].version == v)
      && (forall b | 0 <= b < |bls| && b !in blks :: bls[b] == s.bls[b])
  {
    ListIsRun(s, v);
    var blks := s.lists[v].blks;
    var bls := Marked(s.bls, blks[0], readers, deleted);
    forall i | 0 <= i < |blks| ensures bls[blks[i]].idx == After(blks, i) && bls[blks[i]].version == v {
      assert s.bls[blks[i]].idx == After(blks, i);
    }
  }

  // ---------------------------------------------------------------- readers and the deleted flag

  /** incReaders refuses a record of another version and one marked deleted. */
  predicate Admits(r: BlkLst, version: nat) {
    MayRead(r.version, r.readers, r.isDeleted, version)
  }

  /** The records lead from each block of a list to the next. */
  ghost predicate Threads(recs: seq<BlkLst>, blks: seq<nat>) {
    && Distinct(blks) && |recs| < LIST_END
    && (forall i | 0 <= i < |blks| :: blks[i] < |recs|)
    && (forall i {:trigger recs[blks[i]]} | 0 <= i < |blks| :: recs[blks[i]].idx == After(blks, i))
  }

  /** Every block of a list admits readers of its version. */
  ghost predicate Readable(bs: nat, recs: seq<BlkLst>, rows: seq<Str>, blks: seq<nat>, version: nat) {
    && Threads(recs, blks) && |recs| == |rows| && Rows(bs, rows) && In(rows, blks) && version != 0
    && forall i {:trigger recs[blks[i]]} | 0 <= i < |blks| :: Admits(recs[blks[i]], version)
  }

  /** The records of s after one more reader came to b. */
  function Taken(bls: seq<BlkLst>, b: nat): (r: seq<BlkLst>)
    requires b < |bls|
    ensures |r| == |bls|
  {
    bls[b := bls[b].(readers := bls[b].readers + 1)]
  }

  /** What compare relies on, also for a list that is marked deleted. */
  ghost predicate Comparable(bs: nat, recs: seq<BlkLst>, rows: seq<Str>, blks: seq<nat>, version: nat) {
    && Threads(recs, blks) && |recs| == |rows| && Rows(bs, rows) && In(rows, blks) && blks != []
    && (forall i {:trigger recs[blks[i]]} | 0 <= i < |blks| :: recs[blks[i]].version == version && recs[blks[i]].len != 0)
    && (forall i {:trigger recs[blks[i]]} | 0 < i < |blks| :: Admits(recs[blks[i]], version))
  }

  lemma ListIsComparable(s: View, rows: seq<Str>, v: nat)
    requires Consistent(s) && v in s.lists && |rows| == |s.bls| && Rows(s.bs, rows)
    ensures var l := s.lists[v];
      && Comparable(s.bs, s.bls, rows, l.blks, v) && |l.blks| == Needed(s.bs, l.klen + l.vlen) && 0 < l.vlen
      && s.bls[l.blks[0]].klen == l.klen && s.bls[l.blks[0]].hash == l.hash
      && (Admits(s.bls[l.blks[0]], v) <==> !l.deleted)
  {
    var l := s.lists[v];
    assert ListOk(s, v) && RecOk(s, v, l, 0);
    ListIsIn(s, rows, v);
    ListIsRun(s, v);
    forall i | 0 <= i < |l.blks|
      ensures s.bls[l.blks[i]].version == v && s.bls[l.blks[i]].len != 0
      ensures 0 < i ==> Admits(s.bls[l.blks[i]], v)
    {
      assert RecOk(s, v, l, i);
    }
  }

  /** One more reader on the head does not stop anyone. */
  lemma TakenIsReadable(bs: nat, recs: seq<BlkLst>, rows: seq<Str>, blks: seq<nat>, v: nat)
    requires Readable(bs, recs, rows, blks, v) && blks != []
    ensures Readable(bs, Taken(recs, blks[0]), rows, blks, v)
  {
    var recs' := Taken(recs, blks[0]);
    forall i | 0 <= i < |blks| ensures recs'[blks[i]].idx == After(blks, i) && Admits(recs'[blks[i]], v) {
      assert recs[blks[i]].idx == After(blks, i) && Admits(recs[blks[i]], v);
    }
  }

  /** A live list that is not marked deleted can be read, and also while more readers are on its head. */
  lemma ListIsReadable(s: View, rows: seq<Str>, v: nat)
    requires Consistent(s) && v in s.lists && !s.lists[v].deleted && |rows| == |s.bls| && Rows(s.bs, rows)
    ensures var l := s.lists[v];
      && l.blks != [] && l.blks[0] < |s.bls|
      && Readable(s.bs, s.bls, rows, l.blks, v) && Readable(s.bs, Taken(s.bls, l.blks[0]), rows, l.blks, v)
      && s.bls[l.blks[0]].len == l.klen + l.vlen && s.bls[l.blks[0]].klen == l.klen
      && s.bls[l.blks[0]].readers == l.readers
      && |l.blks| == Needed(s.bs, l.klen + l.vlen) && 0 < l.klen && 0 < l.vlen
  {
    var l := s.lists[v];
    ListIsComparable(s, rows, v);
    assert ListOk(s, v) && RecOk(s, v, l, 0);
    assert Readable(s.bs, s.bls, rows, l.blks, v);
    TakenIsReadable(s.bs, s.bls, rows, l.blks, v);
  }

  /** The bytes of key and value are in the blocks of the list. */
  predicate Stored(rows: seq<Str>, l: List) {
    In(rows, l.blks) && l.klen + l.vlen <= |Flat(rows, l.blks)|
  }

  function KeyIn(rows: seq<Str>, l: List): Str
    requires Stored(rows, l)
  {
    Flat(rows, l.blks)[..l.klen]
  }

  function ValIn(rows: seq<Str>, l: List): Str
    requires Stored(rows, l)
  {
    Flat(rows, l.blks)[l.klen..l.klen + l.vlen]
  }

  /** What get copies: bytes from the end of the key on; the value alone if it ends in the block it shares with
      the key, and otherwise everything up to maxlen bytes or the end of the last block. */
  ghost predicate ReadsList(bs: nat, rows: seq<Str>, l: List, maxlen: nat, out: Str) {
    && 0 < bs && In(rows, l.blks) && l.klen <= Times(|l.blks|, bs)
    && l.klen + |out| <= |Flat(rows, l.blks)| && out == Flat(rows, l.blks)[l.klen..l.klen + |out|]
    && |out| == ReadLen(bs, Whole(bs, l.klen), |l.blks|, l.klen, l.vlen, maxlen)
    && l.vlen <= |out| <= maxlen
  }

  /** What getKey copies: the key, and behind a key that fills its last block the whole next block. */
  ghost predicate ReadsKey(bs: nat, rows: seq<Str>, l: List, out: Str) {
    && In(rows, l.blks)
    && var n := l.klen + if Jagged(bs, l.klen) then 0 else bs;
    n <= |Flat(rows, l.blks)| && out == Flat(rows, l.blks)[..n]
  }

  /** The value comes first. */
  lemma ReadsValueFirst(rows: seq<Str>, bs: nat, l: List, maxlen: nat, out: Str)
    requires ReadsList(bs, rows, l, maxlen, out) && Stored(rows, l)
    ensures ValIn(rows, l) <= out && |out| <= maxlen
  {
    var f := Flat(rows, l.blks);
    SliceOfSlice(f, l.klen, l.klen + |out|, 0, l.vlen);
  }

  /** Only the readers and the deleted flag of the head of list v changed. */
  ghost predicate Flagged(s: View, s': View, v: nat, readers: nat, deleted: bool) {
    && v in s.lists && s.lists[v].blks != [] && (deleted ==> readers > 0)
    && var b := s.lists[v].blks[0];
    && b < |s.bls|
    && s' == s.(bls := s.bls[b := s.bls[b].(readers := readers, isDeleted := deleted)],
                lists := s.lists[v := s.lists[v].(readers := readers, deleted := deleted)])
  }

  lemma FlagKeeps(s: View, s': View, v: nat, readers: nat, deleted: bool)
    requires Consistent(s) && Flagged(s, s', v, readers, deleted)
    ensures Consistent(s')
  {
    var l, l' := s.lists[v], s'.lists[v];
    assert ListOk(s, v);
    forall b | 0 <= b < |s'.owner| ensures OwnerOk(s', b) { assert OwnerOk(s, b); }
    forall w | w in s'.lists ensures ListOk(s', w) {
      assert ListOk(s, w);
      if w == v {
        forall i | 0 <= i < |l'.blks| ensures RecOk(s', v, l', i) { assert RecOk(s, v, l, i); }
      } else {
        assert RecOk(s, v, l, 0);
        ListUntouched(s, s', w);
      }
    }
    forall w ensures HeadOk(s', w) { assert HeadOk(s, w); }
  }

  // ---------------------------------------------------------------- conservation and stale handles

  /** The blocks of the live lists and the free blocks partition all blocks. */
  lemma BlocksArePartitioned(s: View, b: nat)
    requires Consistent(s) && b < |s.owner|
    ensures b in s.free <==> forall v | v in s.lists :: b !in s.lists[v].blks
    ensures forall v, w | v in s.lists && w in s.lists && b in s.lists[v].blks && b in s.lists[w].blks :: v == w
  {
    assert OwnerOk(s, b);
    forall v | v in s.lists && b in s.lists[v].blks ensures s.owner[b] == v && v != 0 {
      assert ListOk(s, v);
      var i :| 0 <= i < |s.lists[v].blks| && s.lists[v].blks[i] == b;
      assert RecOk(s, v, s.lists[v], i);
    }
  }

  /** A handle that alloc once gave out is accepted by version only while its list lives, and then it names
      the head of that list, wherever its block has been since. */
  lemma HandleIsCurrentIffLive(s: View, v: nat)
    requires Consistent(s) && v in s.heads
    ensures s.heads[v] < |s.bls|
    ensures s.bls[s.heads[v]].version == v <==> v in s.lists
  {
    assert HeadOk(s, v);
    if v in s.lists { assert ListOk(s, v) && RecOk(s, v, s.lists[v], 0); }
  }

  /** Allocating a list and freeing it again at once leaves the free list as it was. */
  lemma AllocThenFreeRestores(s: View, s1: View, s2: View, k: nat, l: List)
    requires Consistent(s) && Allocated(s, s1, k, l) && Freed(s1, s2, s.version)
    ensures s2.free == s.free && s2.lists == s.lists
    ensures forall b | 0 <= b < |s.owner| :: s2.owner[b] == s.owner[b]
  {
    assert s.free == l.blks + s.free[k..];
    assert HeadOk(s, s.version);
    assert s.version in s.lists ==> ListOk(s, s.version);
    forall b | 0 <= b < |s.owner| ensures s2.owner[b] == s.owner[b] { assert OwnerOk(s, b); }
  }

  lemma ListIsIn(s: View, rows: seq<Str>, v: nat)
    requires Consistent(s) && v in s.lists && |rows| == |s.bls|
    ensures In(rows, s.lists[v].blks)
  {
    assert ListOk(s, v);
    forall i | 0 <= i < |s.lists[v].blks| ensures s.lists[v].blks[i] < |rows| { assert RecOk(s, v, s.lists[v], i); }
  }

  /** Lists share no blocks, so writing into the blocks of one leaves the bytes of every other alone. */
  lemma OtherListsKeepBytes(s: View, rows: seq<Str>, rows': seq<Str>, v: nat, w: nat)
    requires Consistent(s) && v in s.lists && w in s.lists && w != v && |rows| == |rows'| == |s.bls|
    requires forall c | 0 <= c < |rows| && c !in s.lists[v].blks :: rows'[c] == rows[c]
    ensures In(rows, s.lists[w].blks) && In(rows', s.lists[w].blks)
    ensures Flat(rows', s.lists[w].blks) == Flat(rows, s.lists[w].blks)
  {
    var blks := s.lists[w].blks;
    ListIsIn(s, rows, w);
    assert ListOk(s, v) && ListOk(s, w);
    forall i | 0 <= i < |blks| ensures rows'[blks[i]] == rows[blks[i]] {
      assert RecOk(s, w, s.lists[w], i);
      BlocksArePartitioned(s, blks[i]);
    }
    FlatFrame(rows, rows', blks);
  }
}
