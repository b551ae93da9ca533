/** The hash table as a value: slots probed in a circle from the home of a key, and what it means as a map. */
module ProbeTable {
  import opened Bytes
  import opened Options
  import opened Circle

  datatype Entry = Empty | Deleted | Live(ver: nat, key: Str, val: Str)

  type Table = seq<Entry>

  predicate Has(e: Entry, k: Str) { e.Live? && e.key == k }

  /** The first probe, from the j-th on, that finds k; |t| if there is none. */
  function Find(t: Table, home: nat, k: Str, j: nat): (r: nat)
    requires home < |t| && j <= |t|
    ensures j <= r <= |t|
    ensures r < |t| ==> Has(t[Pos(|t|, home, r)], k)
    ensures forall n | j <= n < r :: !Has(t[Pos(|t|, home, n)], k)
    decreases |t| - j
  {
    if j == |t| || Has(t[Pos(|t|, home, j)], k) then j else Find(t, home, k, j + 1)
  }

  lemma FindIs(t: Table, home: nat, k: Str, r: nat)
    requires home < |t| && r <= |t| && (r < |t| ==> Has(t[Pos(|t|, home, r)], k))
    requires forall n | 0 <= n < r :: !Has(t[Pos(|t|, home, n)], k)
    ensures Find(t, home, k, 0) == r
  {
  }

  /** The slot put writes: the first probed one that is not live or holds k; |t| if there is none. */
  function Slot(t: Table, home: nat, k: Str, j: nat): (r: nat)
    requires home < |t| && j <= |t|
    ensures j <= r <= |t|
    ensures r < |t| ==> var e := t[Pos(|t|, home, r)]; !e.Live? || e.key == k
    ensures forall n | j <= n < r :: var e := t[Pos(|t|, home, n)]; e.Live? && e.key != k
    decreases |t| - j
  {
    if j == |t| || !t[Pos(|t|, home, j)].Live? || t[Pos(|t|, home, j)].key == k then j
    else Slot(t, home, k, j + 1)
  }

  /** What get finds: the value in the first probed slot that holds k. */
  function Lookup(t: Table, home: nat, k: Str): Option<Str>
    requires home < |t|
  {
    var j := Find(t, home, k, 0);
    if j < |t| then Some(t[Pos(|t|, home, j)].val) else None
  }

  function Put(t: Table, home: nat, e: Entry): (t': Table)
    requires home < |t| && e.Live?
    ensures |t'| == |t|
  {
    var j := Slot(t, home, e.key, 0);
    if j < |t| then t[Pos(|t|, home, j) := e] else t
  }

  /** The loop of del ends in front of the slot probed last. */
  function Del(t: Table, home: nat, k: Str): (t': Table)
    requires home < |t|
    ensures |t'| == |t|
  {
    var j := Find(t, home, k, 0);
    if j + 1 < |t| then t[Pos(|t|, home, j) := Deleted] else t
  }

  // ---------------------------------------------------------------- put refines map update

  /** Changing a slot that neither held nor holds k does not change what k finds. */
  lemma FindFrame(t: Table, t': Table, home: nat, k: Str, i: nat)
    requires home < |t| == |t'| && i < |t| && t' == t[i := t'[i]]
    requires !Has(t[i], k) && !Has(t'[i], k)
    ensures Lookup(t', home, k) == Lookup(t, home, k)
  {
    FindIs(t', home, k, Find(t, home, k, 0));
  }

  lemma PutIsUpdate(t: Table, home: nat, e: Entry)
    requires home < |t| && e.Live? && Slot(t, home, e.key, 0) < |t|
    ensures Lookup(Put(t, home, e), home, e.key) == Some(e.val)
    ensures forall h: nat, k | h < |t| && k != e.key :: Lookup(Put(t, home, e), h, k) == Lookup(t, h, k)
  {
    var t', j := Put(t, home, e), Slot(t, home, e.key, 0);
    var i := Pos(|t|, home, j);
    assert forall n | 0 <= n < j :: Pos(|t|, home, n) != i;
    FindIs(t', home, e.key, j);
    forall h: nat, k | h < |t| && k != e.key ensures Lookup(t', h, k) == Lookup(t, h, k) { FindFrame(t, t', h, k, i); }
  }

  // ---------------------------------------------------------------- when del removes a key

  predicate Once(t: Table, k: Str) {
    forall i, j | 0 <= i < |t| && 0 <= j < |t| && Has(t[i], k) && Has(t[j], k) :: i == j
  }

  /** put stores a key a second time if and only if it takes a slot that was free in front of the first. */
  lemma PutKeepsOnce(t: Table, home: nat, e: Entry)
    requires home < |t| && e.Live? && Slot(t, home, e.key, 0) < |t| && Once(t, e.key)
    ensures Once(Put(t, home, e), e.key) <==> Find(t, home, e.key, 0) in {|t|, Slot(t, home, e.key, 0)}
  {
    var m, t', j, r := |t|, Put(t, home, e), Slot(t, home, e.key, 0), Find(t, home, e.key, 0);
    assert Has(t'[Pos(m, home, j)], e.key);
    if r == m {
      forall i | 0 <= i < m ensures !Has(t[i], e.key) { assert Pos(m, home, PosOf(m, home, i)) == i; }
    } else if r != j {
      assert Has(t'[Pos(m, home, r)], e.key);
    }
  }

  /** k is in one slot at most, and not in the slot probed last. */
  predicate Removable(t: Table, home: nat, k: Str)
    requires home < |t|
  {
    Once(t, k) && !Has(t[Pos(|t|, home, |t| - 1)], k)
  }

  /** del changes no other key, and removes its own if and only if that is in at most one slot and not in the one
      probed last. */
  lemma DelIsRemoval(t: Table, home: nat, k: Str)
    requires home < |t|
    ensures forall h: nat, c | h < |t| && c != k :: Lookup(Del(t, home, k), h, c) == Lookup(t, h, c)
    ensures Lookup(Del(t, home, k), home, k) == None <==> Removable(t, home, k)
  {
    var t', j := Del(t, home, k), Find(t, home, k, 0);
    if j + 1 < |t| {
      var i := Pos(|t|, home, j);
      forall h: nat, c | h < |t| && c != k ensures Lookup(t', h, c) == Lookup(t, h, c) { FindFrame(t, t', h, c, i); }
    }
    DelLeaves(t, home, k);
  }

  lemma DelLeaves(t: Table, home: nat, k: Str)
    requires home < |t|
    ensures Lookup(Del(t, home, k), home, k) == None <==> Removable(t, home, k)
  {
    var m, t', j := |t|, Del(t, home, k), Find(t, home, k, 0);
    var r := Find(t', home, k, 0);
    if r == m {
      forall i | 0 <= i < m && Has(t[i], k) ensures j + 1 < m && i == Pos(m, home, j) {
        assert !Has(t'[Pos(m, home, PosOf(m, home, i))], k);
      }
    } else {
      assert Has(t[Pos(m, home, r)], k) && (j + 1 < m ==> r != j);
    }
  }

  lemma PresentIsFound(t: Table, home: nat, i: nat)
    requires home < |t| && i < |t| && t[i].Live?
    ensures Lookup(t, home, t[i].key) != None
  {
    assert Has(t[Pos(|t|, home, PosOf(|t|, home, i))], t[i].key);
  }

  lemma AbsentIsRemovable(t: Table, home: nat, k: Str)
    requires home < |t| && Lookup(t, home, k) == None
    ensures Removable(t, home, k)
  {
    forall i | 0 <= i < |t| ensures !Has(t[i], k) { assert !Has(t[Pos(|t|, home, PosOf(|t|, home, i))], k); }
  }

  /** Two keys with one home: the second is stored behind the first, and stored again in its place once the
      first is deleted.  Deleting the second then uncovers its older value. */
  lemma DelUncoversAnOlderValue()
    ensures var a, b := [1], [2];
      var t := Put(Put([Empty, Empty, Empty], 0, Live(1, a, [10])), 0, Live(2, b, [20]));
      var u := Put(Del(t, 0, a), 0, Live(3, b, [30]));
      && Lookup(u, 0, b) == Some([30])
      && Lookup(Del(u, 0, b), 0, b) == Some([20])
  {
    var a, b := [1], [2];
    var e: Table := [Empty, Empty, Empty];
    assert a[0] != b[0];
    var t1 := Put(e, 0, Live(1, a, [10]));
    assert t1 == [Live(1, a, [10]), Empty, Empty];
    var t := Put(t1, 0, Live(2, b, [20]));
    assert Slot(t1, 0, b, 0) == 1;
    assert t == [Live(1, a, [10]), Live(2, b, [20]), Empty];
    assert Find(t, 0, a, 0) == 0;
    var d := Del(t, 0, a);
    assert d == [Deleted, Live(2, b, [20]), Empty];
    var u := Put(d, 0, Live(3, b, [30]));
    assert u == [Live(3, b, [30]), Live(2, b, [20]), Empty];
    assert Find(u, 0, b, 0) == 0;
    var w := Del(u, 0, b);
    assert w == [Deleted, Live(2, b, [20]), Empty];
    assert Find(w, 0, b, 0) == Find(w, 0, b, 1) == 1;
  }

  // ---------------------------------------------------------------- the probe path

  /** No slot from the home of a live key to its slot is empty. */
  ghost predicate Path(t: Table, home: Str -> nat) {
    forall i | 0 <= i < |t| && t[i].Live? ::
      home(t[i].key) < |t| && NoGap(t, home(t[i].key), PosOf(|t|, home(t[i].key), i))
  }

  ghost predicate NoGap(t: Table, home: nat, j: nat)
    requires home < |t| && j < |t|
  {
    forall n | 0 <= n < j :: !t[Pos(|t|, home, n)].Empty?
  }

  /** A slot that was not empty stays so. */
  lemma PutKeepsPath(t: Table, home: Str -> nat, e: Entry)
    requires Path(t, home) && e.Live? && home(e.key) < |t|
    ensures Path(Put(t, home(e.key), e), home)
    ensures forall i | 0 <= i < |t| && !t[i].Empty? :: !Put(t, home(e.key), e)[i].Empty?
  {
    var t', h := Put(t, home(e.key), e), home(e.key);
    var j := Slot(t, h, e.key, 0);
    forall i | 0 <= i < |t'| && t'[i].Live?
      ensures home(t'[i].key) < |t'| && NoGap(t', home(t'[i].key), PosOf(|t'|, home(t'[i].key), i))
    {
      if j < |t| && i == Pos(|t|, h, j) {
        assert PosOf(|t|, h, i) == j;
      } else {
        assert NoGap(t, home(t[i].key), PosOf(|t|, home(t[i].key), i));
      }
    }
  }

  lemma DelKeepsPath(t: Table, home: Str -> nat, k: Str)
    requires Path(t, home) && home(k) < |t|
    ensures Path(Del(t, home(k), k), home)
    ensures forall i | 0 <= i < |t| && !t[i].Empty? :: !Del(t, home(k), k)[i].Empty?
  {
    var t' := Del(t, home(k), k);
    forall i | 0 <= i < |t'| && t'[i].Live?
      ensures home(t'[i].key) < |t'| && NoGap(t', home(t'[i].key), PosOf(|t'|, home(t'[i].key), i))
    {
      assert NoGap(t, home(t[i].key), PosOf(|t|, home(t[i].key), i));
    }
  }

  /** A search that gives up at the first empty slot. */
  function ShortFind(t: Table, home: nat, k: Str, j: nat): (r: nat)
    requires home < |t| && j <= |t|
    ensures j <= r <= |t|
    decreases |t| - j
  {
    if j == |t| || t[Pos(|t|, home, j)].Empty? then |t|
    else if Has(t[Pos(|t|, home, j)], k) then j
    else ShortFind(t, home, k, j + 1)
  }

  /** On every table that put and del build, the search around the whole table finds no more than one that
      gives up at the first empty slot. */
  lemma {:induction false} ShortFindIsFind(t: Table, home: Str -> nat, k: Str, j: nat)
    requires Path(t, home) && home(k) < |t| && j <= |t|
    ensures ShortFind(t, home(k), k, j) == Find(t, home(k), k, j)
    decreases |t| - j
  {
    var h := home(k);
    if j < |t| {
      var i := Pos(|t|, h, j);
      if t[i].Empty? {
        forall r | j <= r < |t| ensures !Has(t[Pos(|t|, h, r)], k) {
          assert PosOf(|t|, h, Pos(|t|, h, r)) == r;
        }
      } else if !Has(t[i], k) {
        ShortFindIsFind(t, home, k, j + 1);
      }
    }
  }

  // ---------------------------------------------------------------- whole runs

  datatype Op = PutOp(entry: Entry) | DelOp(key: Str)

  /** Every put of a run has an entry to store, and keys have homes in the table. */
  ghost predicate Ops(m: nat, home: Str -> nat, ops: seq<Op>) {
    && (forall k :: home(k) < m)
    && (forall i | 0 <= i < |ops| :: ops[i].PutOp? ==> ops[i].entry.Live?)
  }

  ghost function Run(t: Table, home: Str -> nat, ops: seq<Op>): (t': Table)
    requires Ops(|t|, home, ops)
    ensures |t'| == |t|
  {
    if ops == [] then t
    else
      var u := Run(t, home, ops[..|ops| - 1]);
      match ops[|ops| - 1]
      case PutOp(e) => Put(u, home(e.key), e)
      case DelOp(k) => Del(u, home(k), k)
  }

  /** In every run from an empty table, a search may stop at the first empty slot. */
  lemma {:induction false} RunKeepsPath(t: Table, home: Str -> nat, ops: seq<Op>)
    requires Ops(|t|, home, ops) && forall i | 0 <= i < |t| :: t[i] == Empty
    ensures Path(Run(t, home, ops), home)
    ensures forall k :: ShortFind(Run(t, home, ops), home(k), k, 0) == Find(Run(t, home, ops), home(k), k, 0)
  {
    var t' := Run(t, home, ops);
    if ops != [] {
      var before, op := ops[..|ops| - 1], ops[|ops| - 1];
      RunKeepsPath(t, home, before);
      if op.PutOp? { PutKeepsPath(Run(t, home, before), home, op.entry); }
      else { DelKeepsPath(Run(t, home, before), home, op.key); }
    }
    forall k ensures ShortFind(t', home(k), k, 0) == Find(t', home(k), k, 0) { ShortFindIsFind(t', home, k, 0); }
  }

  /** Every put found a slot, and every del was of a key it can remove. */
  ghost predicate Served(t: Table, home: Str -> nat, ops: seq<Op>)
    requires Ops(|t|, home, ops)
  {
    ops == [] || (
      var before := ops[..|ops| - 1];
      Served(t, home, before) &&
      match ops[|ops| - 1]
      case PutOp(e) => Slot(Run(t, home, before), home(e.key), e.key, 0) < |t|
      case DelOp(k) => Removable(Run(t, home, before), home(k), k))
  }

  /** What the same run does to a map. */
  function MapRun(ops: seq<Op>): map<Str, Str> {
    if ops == [] then map[]
    else
      match ops[|ops| - 1]
      case PutOp(e) => if e.Live? then MapRun(ops[..|ops| - 1])[e.key := e.val] else MapRun(ops[..|ops| - 1])
      case DelOp(k) => MapRun(ops[..|ops| - 1]) - {k}
  }

  function Get(m: map<Str, Str>, k: Str): Option<Str> { if k in m then Some(m[k]) else None }

  /** Over whole runs the table is a map. */
  lemma {:induction false} RunIsMap(t: Table, home: Str -> nat, ops: seq<Op>)
    requires Ops(|t|, home, ops) && (forall i | 0 <= i < |t| :: t[i] == Empty) && Served(t, home, ops)
    ensures forall k :: Lookup(Run(t, home, ops), home(k), k) == Get(MapRun(ops), k)
  {
    if ops != [] {
      var before, op := ops[..|ops| - 1], ops[|ops| - 1];
      RunIsMap(t, home, before);
      if op.PutOp? { PutIsUpdate(Run(t, home, before), home(op.entry.key), op.entry); }
      else { DelIsRemoval(Run(t, home, before), home(op.key), op.key); }
    }
  }
}
