/** Enumerating the keys of the table: what `nxt`, `nxtKey` and `getKeyStrs` walk over. */
module KeySearch {
  import opened Bytes
  import opened Options
  import opened Circle
  import opened Handles
  import P = ProbeTable

  datatype VerStr = VerStr(ver: nat, str: Str)

  /** The first live slot, in a circle from st, by its distance; |slots| if there is none. */
  function FirstLive(slots: seq<VerIdx>, st: nat, j: nat): (r: nat)
    requires st < |slots| && j <= |slots|
    ensures j <= r <= |slots|
    ensures r < |slots| ==> Live(slots[Pos(|slots|, st, r)])
    ensures forall n | j <= n < r :: !Live(slots[Pos(|slots|, st, n)])
    decreases |slots| - j
  {
    if j == |slots| || Live(slots[Pos(|slots|, st, j)]) then j else FirstLive(slots, st, j + 1)
  }

  lemma NoLiveSlot(slots: seq<VerIdx>, st: nat)
    requires st < |slots|
    ensures FirstLive(slots, st, 0) == |slots| <==> forall i | 0 <= i < |slots| :: !Live(slots[i])
  {
    if FirstLive(slots, st, 0) == |slots| {
      forall i | 0 <= i < |slots| ensures !Live(slots[i]) {
        assert Pos(|slots|, st, PosOf(|slots|, st, i)) == i;
      }
    }
  }

  // ---------------------------------------------------------------- std::set<VerStr>, ordered by str alone

  predicate Less(a: Str, b: Str) {
    if a == [] || b == [] then a == [] && b != []
    else a[0] < b[0] || (a[0] == b[0] && Less(a[1..], b[1..]))
  }

  lemma {:induction false} LessIsTotal(a: Str, b: Str)
    ensures a == b || Less(a, b) || Less(b, a)
    ensures !(Less(a, b) && Less(b, a)) && !Less(a, a)
  {
    if a != [] && b != [] {
      LessIsTotal(a[1..], b[1..]);
      LessIsTotal(a[1..], a[1..]);
      assert a == [a[0]] + a[1..] && b == [b[0]] + b[1..];
    } else if a != [] {
      LessIsTotal(a[1..], a[1..]);
    }
  }

  /** It is the order of the bytes: at the first difference the smaller byte, or a proper prefix, comes first. */
  lemma {:induction false} LessIsLexicographic(a: Str, b: Str, n: nat)
    requires n <= |a| && n <= |b| && a[..n] == b[..n]
    requires a != b && (n < |a| && n < |b| ==> a[n] != b[n])
    ensures Less(a, b) <==> (if n < |a| && n < |b| then a[n] < b[n] else |a| < |b|)
  {
    if n > 0 {
      assert a[0] == a[..n][0] == b[..n][0] == b[0];
      assert a == [a[0]] + a[1..] && b == [b[0]] + b[1..];
      assert a[1..][..n - 1] == a[..n][1..] == b[..n][1..] == b[1..][..n - 1];
      LessIsLexicographic(a[1..], b[1..], n - 1);
      LessIsTotal(a[1..], a[1..]);
    }
  }

  lemma {:induction false} LessTrans(a: Str, b: Str, c: Str)
    requires Less(a, b) && Less(b, c)
    ensures Less(a, c)
  {
    if a != [] && a[0] == b[0] && b[0] == c[0] { LessTrans(a[1..], b[1..], c[1..]); }
  }

  predicate Sorted(keys: seq<VerStr>) {
    forall i, j | 0 <= i < j < |keys| :: Less(keys[i].str, keys[j].str)
  }

  /** A key that is already there stays, with its version. */
  function Insert(keys: seq<VerStr>, k: VerStr): (r: seq<VerStr>) {
    if keys == [] then [k]
    else if keys[0].str == k.str then keys
    else if Less(k.str, keys[0].str) then [k] + keys
    else [keys[0]] + Insert(keys[1..], k)
  }

  lemma {:induction false} InsertSorts(keys: seq<VerStr>, k: VerStr)
    requires Sorted(keys)
    ensures Sorted(Insert(keys, k))
    ensures forall x :: x in Insert(keys, k) <==> x in keys || (x == k && forall y | y in keys :: y.str != k.str)
  {
    if keys != [] {
      var tail := keys[1..];
      assert keys == [keys[0]] + tail;
      LessIsTotal(keys[0].str, k.str);
      forall y | y in tail ensures Less(keys[0].str, y.str) {}
      if keys[0].str == k.str {
      } else if Less(k.str, keys[0].str) {
        forall y | y in tail ensures Less(k.str, y.str) && y.str != k.str {
          LessTrans(k.str, keys[0].str, y.str);
          LessIsTotal(k.str, y.str);
        }
      } else {
        InsertSorts(tail, k);
      }
    }
  }

  // ---------------------------------------------------------------- one round and all of them

  /** What nxtKey does from slot st: where it leaves the search, how far it says it came, and the key it found. */
  datatype Round = Round(next: nat, searched: nat, key: Option<VerStr>)

  /** A key with a zero byte in it, or of a list that is not readable, is dropped. */
  function KeyAt(t: P.Table, i: nat): Option<VerStr>
    requires i < |t|
  {
    if t[i].Live? && t[i].key != [] && 0 !in t[i].key then Some(VerStr(t[i].ver, t[i].key)) else None
  }

  /** `searched` as nxtKey computes it from where the search began and where it ended. */
  function Searched(m: nat, prev: nat, inxt: nat): (n: nat)
    requires prev < m
    ensures 1 <= n
  {
    if inxt - prev - 1 > 0 then inxt - prev - 1 else m - prev + inxt
  }

  function NextKey(slots: seq<VerIdx>, t: P.Table, st: nat): (r: Round)
    requires st < |slots| == |t|
    ensures r.next < |slots| && 1 <= r.searched
  {
    var m, j := |slots|, FirstLive(slots, st, 0);
    var c := if j < m then Pos(m, st, j) else st;
    var next := Next(m, c);
    Round(next, Searched(m, st, next), if j < m then KeyAt(t, c) else None)
  }

  /** The loop of getKeyStrs. */
  function Keys(slots: seq<VerIdx>, t: P.Table, st: nat, srchCnt: nat, keys: seq<VerStr>): (r: seq<VerStr>)
    requires st < |slots| == |t|
    decreases |slots| - srchCnt
  {
    if srchCnt >= |slots| then keys
    else
      var n := NextKey(slots, t, st);
      Keys(slots, t, n.next, srchCnt + n.searched, Add(keys, n.key))
  }

  lemma KeysStep(slots: seq<VerIdx>, t: P.Table, st: nat, srchCnt: nat, keys: seq<VerStr>, n: Round)
    requires st < |slots| == |t| && srchCnt < |slots| && n == NextKey(slots, t, st)
    ensures Keys(slots, t, st, srchCnt, keys) == Keys(slots, t, n.next, srchCnt + n.searched, Add(keys, n.key))
  {
  }

  /** Any account k of the keys that the rounds return goes on from one round to the next. */
  predicate RoundReturns(k: (nat, nat, seq<VerStr>) -> seq<VerStr>, n: Round, st: nat, srchCnt: nat, keys: seq<VerStr>) {
    k(st, srchCnt, keys) == k(n.next, srchCnt + n.searched, Add(keys, n.key))
  }

  ghost predicate Returns(k: (nat, nat, seq<VerStr>) -> seq<VerStr>, slots: seq<VerIdx>, t: P.Table) {
    && |slots| == |t|
    && (forall st: nat, cnt: nat, keys | st < |slots| && cnt < |slots| ::
          RoundReturns(k, NextKey(slots, t, st), st, cnt, keys))
    && (forall st: nat, cnt: nat, keys | cnt >= |slots| :: k(st, cnt, keys) == keys)
  }

  function KeysFrom(slots: seq<VerIdx>, t: P.Table): (nat, nat, seq<VerStr>) -> seq<VerStr>
    requires |slots| == |t|
  {
    (st: nat, cnt: nat, keys: seq<VerStr>) => if st < |slots| then Keys(slots, t, st, cnt, keys) else keys
  }

  lemma KeysReturn(slots: seq<VerIdx>, t: P.Table)
    requires |slots| == |t|
    ensures Returns(KeysFrom(slots, t), slots, t)
  {
    forall st: nat, cnt: nat, keys | st < |slots| && cnt < |slots|
      ensures RoundReturns(KeysFrom(slots, t), NextKey(slots, t, st), st, cnt, keys)
    {
      KeysStep(slots, t, st, cnt, keys, NextKey(slots, t, st));
    }
  }

  function Add(keys: seq<VerStr>, k: Option<VerStr>): seq<VerStr> {
    match k case None => keys case Some(key) => Insert(keys, key)
  }

  /** How many rounds that takes. */
  function Rounds(slots: seq<VerIdx>, t: P.Table, st: nat, srchCnt: nat): nat
    requires st < |slots| == |t|
    decreases |slots| - srchCnt
  {
    if srchCnt >= |slots| then 0
    else
      var n := NextKey(slots, t, st);
      Rounds(slots, t, n.next, srchCnt + n.searched) + 1
  }

  lemma {:induction false} RoundsAreBounded(slots: seq<VerIdx>, t: P.Table, st: nat, srchCnt: nat)
    requires st < |slots| == |t|
    ensures Rounds(slots, t, st, srchCnt) <= if srchCnt <= |slots| then |slots| - srchCnt else 0
    decreases |slots| - srchCnt
  {
    if srchCnt < |slots| {
      var n := NextKey(slots, t, st);
      RoundsAreBounded(slots, t, n.next, srchCnt + n.searched);
    }
  }

  /** A live slot holds the key, under that version; the key is not empty and has no zero byte. */
  predicate IsKey(t: P.Table, x: VerStr) {
    x.str != [] && 0 !in x.str && exists i :: 0 <= i < |t| && t[i].Live? && t[i].key == x.str && t[i].ver == x.ver
  }

  /** The key of slot i can be returned as a string. */
  predicate Printable(t: P.Table, i: nat)
    requires i < |t|
  {
    t[i].Live? && t[i].key != [] && forall j | 0 <= j < |t[i].key| :: t[i].key[j] != 0
  }

  lemma KeyAtIs(t: P.Table, i: nat)
    requires i < |t|
    ensures KeyAt(t, i).Some? <==> t[i].Live? && t[i].key != [] && 0 !in t[i].key
    ensures KeyAt(t, i).Some? <==> Printable(t, i)
    ensures Printable(t, i) ==> KeyAt(t, i) == Some(VerStr(t[i].ver, t[i].key)) && IsKey(t, KeyAt(t, i).value)
  {
  }

  lemma AddIsSound(slots: seq<VerIdx>, t: P.Table, st: nat, keys: seq<VerStr>)
    requires st < |slots| == |t| && Sorted(keys) && forall x | x in keys :: IsKey(t, x)
    ensures var keys' := Add(keys, NextKey(slots, t, st).key); Sorted(keys') && forall x | x in keys' :: IsKey(t, x)
  {
    var n := NextKey(slots, t, st);
    if n.key.Some? {
      var i :| 0 <= i < |t| && n.key == KeyAt(t, i);
      KeyAtIs(t, i);
      InsertSorts(keys, n.key.value);
    }
  }

  /** Everything the enumeration returns is the key of a live slot, sorted and without repetition. */
  lemma {:induction false} KeysAreSound(slots: seq<VerIdx>, t: P.Table, st: nat, srchCnt: nat, keys: seq<VerStr>)
    requires st < |slots| == |t| && Sorted(keys)
    requires forall x | x in keys :: IsKey(t, x)
    ensures Sorted(Keys(slots, t, st, srchCnt, keys))
    ensures forall x | x in Keys(slots, t, st, srchCnt, keys) :: IsKey(t, x)
    decreases |slots| - srchCnt
  {
    if srchCnt < |slots| {
      var n := NextKey(slots, t, st);
      AddIsSound(slots, t, st, keys);
      KeysAreSound(slots, t, n.next, srchCnt + n.searched, Add(keys, n.key));
    }
  }

  /** A key found in the very slot the search starts from counts as a whole lap: the enumeration ends there,
      whatever other keys there are, unless that slot is the last of the array. */
  lemma HitAtStartEnds(slots: seq<VerIdx>, t: P.Table, st: nat)
    requires st + 1 < |slots| == |t| && Live(slots[st])
    ensures Keys(slots, t, st, 0, []) == Add([], KeyAt(t, st))
  {
    assert Pos(|slots|, st, 0) == st;
    var n := NextKey(slots, t, st);
    assert n == Round(st + 1, |slots| + 1, KeyAt(t, st));
    assert Keys(slots, t, n.next, n.searched, Add([], n.key)) == Add([], n.key);
  }
}
