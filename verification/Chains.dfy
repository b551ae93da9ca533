/** Singly linked lists threaded through an array of links, as the free list and the block lists are. */
module Chains {

  const LIST_END: nat := 0xFFFF_FFFF

  /** What the link of the i-th index of a list holds. */
  function After(list: seq<nat>, i: nat): nat
    requires i < |list|
  {
    if i + 1 < |list| then list[i + 1] else LIST_END
  }

  /** The i-th index of a list, or the end mark one past its last. */
  function LinkTo(list: seq<nat>, i: nat): nat
    requires i <= |list|
  {
    if i < |list| then list[i] else LIST_END
  }

  predicate Distinct(list: seq<nat>) {
    forall i, j | 0 <= i < j < |list| :: list[i] != list[j]
  }

  function First(list: seq<nat>): nat {
    if list == [] then LIST_END else list[0]
  }

  /** Following the links from h visits exactly `list`, each index once, and then reads LIST_END. */
  ghost predicate Chain(lv: seq<nat>, h: nat, list: seq<nat>) {
    && (forall i | 0 <= i < |list| :: list[i] < |lv|)
    && Distinct(list)
    && h == First(list)
    && (forall i {:trigger lv[list[i]]} | 0 <= i < |list| :: lv[list[i]] == After(list, i))
  }

  lemma EndIsEmpty(lv: seq<nat>, h: nat, list: seq<nat>)
    requires Chain(lv, h, list) && |lv| < LIST_END
    ensures h == LIST_END <==> list == []
  {
    if list != [] { assert list[0] < |lv|; }
  }

  lemma ChainTail(lv: seq<nat>, h: nat, list: seq<nat>)
    requires Chain(lv, h, list) && list != []
    ensures Chain(lv, lv[h], list[1..])
    ensures list[0] !in list[1..]
    ensures forall b :: b in list <==> b == list[0] || b in list[1..]
  {
    var tail := list[1..];
    forall i | 0 <= i < |tail| ensures tail[i] < |lv| && lv[tail[i]] == After(tail, i) && tail[i] != list[0] {
      LinkOfTail(lv, list, i);
    }
    assert lv[list[0]] == After(list, 0);
    assert list == [list[0]] + tail;
  }

  lemma LinkOfTail(lv: seq<nat>, list: seq<nat>, i: nat)
    requires Distinct(list) && i + 1 < |list| && list[i + 1] < |lv| && lv[list[i + 1]] == After(list, i + 1)
    ensures lv[list[1..][i]] == After(list[1..], i) && list[1..][i] != list[0]
  {
  }

  lemma ChainPush(lv: seq<nat>, h: nat, list: seq<nat>, b: nat)
    requires Chain(lv, h, list) && b !in list && b < |lv| && lv[b] == h
    ensures Chain(lv, b, [b] + list)
  {
    var s := [b] + list;
    assert forall i | 0 < i < |s| :: s[i] == list[i - 1] && s[i] in list;
    forall i | 0 <= i < |s| ensures lv[s[i]] == After(s, i) {
      if i > 0 { assert lv[list[i - 1]] == After(list, i - 1); }
    }
  }

  /** Links outside the list do not matter to it. */
  lemma ChainFrame(lv: seq<nat>, lv': seq<nat>, h: nat, list: seq<nat>)
    requires Chain(lv, h, list) && |lv'| == |lv|
    requires forall b | b in list :: lv'[b] == lv[b]
    ensures Chain(lv', h, list)
  {
    forall i | 0 <= i < |list| ensures lv'[list[i]] == After(list, i) {
      assert list[i] in list && lv[list[i]] == After(list, i);
    }
  }

  /** There are no more distinct numbers below m than m. */
  lemma {:induction false} Pigeonhole(heads: seq<nat>, m: nat)
    requires Distinct(heads) && forall i | 0 <= i < |heads| :: heads[i] < m
    ensures |heads| <= m
  {
    if heads != [] {
      assert heads[0] < m;
      if i :| 0 <= i < |heads| && heads[i] == m - 1 {
        Pigeonhole(heads[..i] + heads[i + 1..], m - 1);
      } else {
        Pigeonhole(heads, m - 1);
      }
    }
  }
}
