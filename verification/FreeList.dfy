/** The free list of block indices, one call at a time (`CncrLst`).  What happens when calls interleave is the
    subject of FreeListSteps; here every compare-and-swap wins at once. */
module FreeList {
  import opened Chains

  const NXT_VER_SPECIAL: nat := 0xFFFF_FFFF

  class CncrLst {
    const lv: array<nat>      // s_lv: the link of each index
    var idx: nat              // the head: first free index, and a version
    var ver: nat
    ghost var free: seq<nat>  // the free indices, in list order

    ghost predicate Valid()
      reads this, lv
    {
      && 0 < lv.Length < LIST_END
      && Chain(lv[..], idx, free)
    }

    /** All indices free, in ascending order. */
    constructor (size: nat)
      requires 0 < size < LIST_END
      ensures Valid() && fresh(lv) && lv.Length == size
      ensures |free| == size && forall i | 0 <= i < size :: free[i] == i
    {
      lv := new nat[size];
      idx, ver := 0, 0;
      new;
      for i := 0 to size - 1
        invariant idx == 0 && ver == 0
        invariant forall j | 0 <= j < i :: lv[j] == j + 1
      {
        lv[i] := i + 1;
      }
      lv[size - 1] := LIST_END;
      free := seq(size, i => i);
      forall i | 0 <= i < |free| ensures lv[..][free[i]] == After(free, i) {
        assert free[i] == i && lv[..][i] == lv[i];
      }
    }

    /** Takes the first free index, or reports that there is none. */
    method Nxt() returns (r: nat)
      requires Valid()
      modifies this
      ensures Valid() && (r == LIST_END <==> old(free) == [])
      ensures old(free) == [] ==> r == LIST_END && free == [] && ver == old(ver)
      ensures old(free) != [] ==> r == old(free)[0] && free == old(free)[1..] && r !in free
      ensures old(free) != [] ==> ver == if old(ver) == 0xFFFF_FFFF then 1 else old(ver) + 1
    {
      EndIsEmpty(lv[..], idx, free);
      if idx == LIST_END { return LIST_END; }
      ChainTail(lv[..], idx, free);
      r := idx;
      idx := lv[r];
      ver := if ver == NXT_VER_SPECIAL then 1 else ver + 1;
      free := free[1..];
    }

    /** Puts a linked run of indices, from st to en, in front of the list. */
    method FreeRun(st: nat, en: nat, ghost run: seq<nat>) returns (r: nat)
      requires Valid() && run != [] && run[0] == st && run[|run| - 1] == en
      requires Distinct(run) && forall i | 0 <= i < |run| :: run[i] < lv.Length && run[i] !in free
      requires forall i | 0 <= i < |run| - 1 :: lv[run[i]] == After(run, i)
      modifies this, lv
      ensures Valid() && free == run + old(free) && r == old(First(free))
      ensures ver == (old(ver) + 1) % 0x1_0000_0000
      ensures forall b | 0 <= b < lv.Length && b != en :: lv[b] == old(lv[b])
    {
      RunIsChain(lv[..], lv[..][en := idx], idx, free, run);
      r := Splice(st, en, run + free);
    }

    /** The same for any indices: what is free afterwards is what the links from st lead through, once that of en
        leads to the old head. */
    method Splice(st: nat, en: nat, ghost now: seq<nat>) returns (r: nat)
      requires Valid() && en < lv.Length && Chain(lv[..][en := idx], st, now)
      modifies this, lv
      ensures Valid() && free == now && r == old(First(free))
      ensures ver == (old(ver) + 1) % 0x1_0000_0000
      ensures lv[..] == old(lv[..])[en := r]
    {
      r := idx;
      lv[en] := r;
      idx := st;
      ver := (ver + 1) % 0x1_0000_0000;
      free := now;
    }

    method FreeOne(b: nat) returns (r: nat)
      requires Valid() && b < lv.Length && b !in free
      modifies this, lv
      ensures Valid() && free == [b] + old(free) && r == old(First(free))
      ensures forall c | 0 <= c < lv.Length && c != b :: lv[c] == old(lv[c])
    {
      r := FreeRun(b, b, [b]);
    }

    /** Counts the free indices by walking the links. */
    method LnkCnt() returns (cnt: nat)
      requires Valid()
      ensures cnt == |free|
    {
      assert forall i | 0 <= i < |free| :: free[i] < lv.Length;
      cnt := 0;
      var cur := idx;
      while cur != LIST_END
        invariant cnt <= |free|
        invariant cur == if cnt < |free| then free[cnt] else LIST_END
        decreases |free| - cnt
      {
        assert cnt < |free| && lv[..][free[cnt]] == After(free, cnt);
        cur := lv[cur];
        cnt := cnt + 1;
      }
    }
  }

  lemma RunIsChain(was: seq<nat>, now: seq<nat>, h: nat, free: seq<nat>, run: seq<nat>)
    requires Chain(was, h, free) && run != [] && |now| == |was|
    requires Distinct(run) && forall i | 0 <= i < |run| :: run[i] < |was| && run[i] !in free
    requires forall i | 0 <= i < |run| - 1 :: was[run[i]] == After(run, i)
    requires now == was[run[|run| - 1] := h]
    ensures Chain(now, run[0], run + free)
  {
    var s := run + free;
    forall i, j | 0 <= i < j < |s| ensures s[i] != s[j] {
      if i < |run| && |run| <= j { assert free[j - |run|] in free; }
    }
    forall i | 0 <= i < |s| ensures now[s[i]] == After(s, i) {
      if i >= |run| {
        assert was[free[i - |run|]] == After(free, i - |run|) && free[i - |run|] in free;
      } else if i < |run| - 1 {
        assert was[run[i]] == After(run, i);
      }
    }
  }
}
