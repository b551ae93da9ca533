/** The slots as 64-bit words.  A word of an even slot holds index and version as they lie in memory; a word of an
    odd slot holds its halves swapped, so that the indices of two neighbours touch. */
module SlotWords {
  import Circle
  import H = Handles

  /** `VerIdx`: a 32-bit index and a 32-bit version, read as one number with the index in the low half. */
  datatype VerIdx = VerIdx(idx: bv32, version: bv32)

  const EMPTY: bv32 := 0xFFFF_FFFF
  const DELETED: bv32 := 0xFFFF_FFFE

  /** The handle with unbounded numbers that the other models use. */
  function Handle(vi: VerIdx): H.VerIdx { H.VerIdx(vi.idx as nat, vi.version as nat) }

  lemma SameNumber(a: bv32, b: bv32)
    ensures a as nat == b as nat <==> a == b
  {
    if a as nat == b as nat { assert (a as nat) as bv32 == (b as nat) as bv32; }
  }

  /** It keeps handles apart. */
  lemma HandleIsFaithful(idx: bv32, version: bv32, idx': bv32, version': bv32)
    ensures Handle(VerIdx(idx, version)) == Handle(VerIdx(idx', version')) <==> idx == idx' && version == version'
  {
    SameNumber(idx, idx');
    SameNumber(version, version');
  }

  /** It keeps the marks of free slots. */
  lemma MarksAgree(idx: bv32, version: bv32)
    ensures H.Live(Handle(VerIdx(idx, version))) <==> idx != EMPTY && idx != DELETED
    ensures Handle(VerIdx(EMPTY, 0)) == H.NO_SLOT == H.VerIdx(0xFFFF_FFFF, 0)
    ensures Handle(VerIdx(DELETED, 0)) == H.TOMBSTONE == H.VerIdx(0xFFFF_FFFE, 0)
  {
    SameNumber(idx, EMPTY);
    SameNumber(idx, DELETED);
  }

  function asInt(vi: VerIdx): bv64 {
    ((vi.version as bv64) << 32) | (vi.idx as bv64)
  }

  function ofInt(n: bv64): VerIdx {
    VerIdx((n & 0xFFFF_FFFF) as bv32, (n >> 32) as bv32)
  }

  function lo32(n: bv64): bv32 { (n >> 32) as bv32 }

  function hi32(n: bv64): bv32 { ((n << 32) >> 32) as bv32 }

  function swp32(n: bv64): bv64 { ((hi32(n) as bv64) << 32) | (lo32(n) as bv64) }

  lemma Halves(idx: bv32, ver: bv32)
    ensures var n := ((ver as bv64) << 32) | (idx as bv64);
      hi32(n) == idx && lo32(n) == ver && ofInt(n) == VerIdx(idx, ver)
  {
  }

  lemma Joined(n: bv64)
    ensures ((lo32(n) as bv64) << 32) | (hi32(n) as bv64) == n
    ensures ofInt(n) == VerIdx(hi32(n), lo32(n))
  {
  }

  lemma AsIntOf(idx: bv32, ver: bv32)
    ensures var n := asInt(VerIdx(idx, ver)); ofInt(n) == VerIdx(idx, ver) && lo32(n) == ver && hi32(n) == idx
  {
    Halves(idx, ver);
  }

  lemma OfIntOf(n: bv64)
    ensures asInt(ofInt(n)) == n
  {
    Joined(n);
  }

  lemma AsIntRoundTrip(vi: VerIdx, n: bv64)
    ensures ofInt(asInt(vi)) == vi && asInt(ofInt(n)) == n
    ensures lo32(asInt(vi)) == vi.version && hi32(asInt(vi)) == vi.idx
  {
    match vi case VerIdx(idx, ver) => AsIntOf(idx, ver);
    OfIntOf(n);
  }

  lemma SwapTwice(n: bv64)
    ensures swp32(swp32(n)) == n && lo32(swp32(n)) == hi32(n) && hi32(swp32(n)) == lo32(n)
  {
  }

  /** What a slot is worth, as `load` decodes its word. */
  function Decode(i: nat, w: bv64): VerIdx {
    var cur := swp32(w);
    if i % 2 == 1 then VerIdx(hi32(cur), lo32(cur)) else VerIdx(lo32(cur), hi32(cur))
  }

  /** The word that stands for a handle in slot i. */
  function Encode(i: nat, vi: VerIdx): bv64 {
    if i % 2 == 1 then swp32(asInt(vi)) else asInt(vi)
  }

  lemma DecodeIs(i: nat, w: bv64)
    ensures Decode(i, w) == if i % 2 == 1 then VerIdx(lo32(w), hi32(w)) else VerIdx(hi32(w), lo32(w))
  {
    SwapTwice(w);
  }

  /** The halves of the word that is stored. */
  lemma EncodeIs(i: nat, idx: bv32, ver: bv32)
    ensures var w := Encode(i, VerIdx(idx, ver));
      lo32(w) == (if i % 2 == 1 then idx else ver) && hi32(w) == (if i % 2 == 1 then ver else idx)
  {
    AsIntOf(idx, ver);
    SwapTwice(asInt(VerIdx(idx, ver)));
  }

  lemma DecodeEncode(i: nat, idx: bv32, ver: bv32)
    ensures Decode(i, Encode(i, VerIdx(idx, ver))) == VerIdx(idx, ver)
  {
    EncodeIs(i, idx, ver);
    DecodeIs(i, Encode(i, VerIdx(idx, ver)));
  }

  /** A word is determined by its halves. */
  lemma HalvesDetermine(w: bv64, w': bv64)
    requires lo32(w) == lo32(w') && hi32(w) == hi32(w')
    ensures w == w'
  {
    Joined(w);
    Joined(w');
  }

  lemma EncodeDecode(i: nat, w: bv64)
    ensures Encode(i, Decode(i, w)) == w
  {
    DecodeIs(i, w);
    if i % 2 == 1 { EncodeIs(i, lo32(w), hi32(w)); } else { EncodeIs(i, hi32(w), lo32(w)); }
    HalvesDetermine(Encode(i, Decode(i, w)), w);
  }

  /** Every word is the word of exactly one handle. */
  lemma WordRoundTrip(i: nat, w: bv64, vi: VerIdx)
    ensures Decode(i, Encode(i, vi)) == vi && Encode(i, Decode(i, w)) == w
  {
    match vi case VerIdx(idx, ver) => DecodeEncode(i, idx, ver);
    EncodeDecode(i, w);
  }

  lemma LowHalf(w: bv64)
    ensures hi32(w) == (w & 0xFFFF_FFFF) as bv32
  {
  }

  /** The index halves of a slot pair with an even first slot lie side by side. */
  lemma IndicesTouch(i: nat, w: bv64, w': bv64)
    requires i % 2 == 0
    ensures hi32(w) == Decode(i, w).idx && lo32(w') == Decode(i + 1, w').idx
    ensures (w & 0xFFFF_FFFF) as bv32 == Decode(i, w).idx && (w >> 32) as bv32 == Decode(i, w).version
    ensures (w' >> 32) as bv32 == Decode(i + 1, w').idx && (w' & 0xFFFF_FFFF) as bv32 == Decode(i + 1, w').version
  {
    LowHalf(w);
    LowHalf(w');
    SwapTwice(w);
    SwapTwice(w');
  }

  class VerIdxs {
    const data: array<bv64>

    /** The words as handles: a plain array of (index, version). */
    ghost function Slots(): (s: seq<VerIdx>)
      reads data
      ensures |s| == data.Length
    {
      seq(data.Length, i requires 0 <= i < data.Length reads data => Decode(i, data[i]))
    }

    constructor (sz: nat)
      ensures data.Length == sz && fresh(data)
    {
      data := new bv64[sz];
    }

    /** init: the even slots, then the odd ones. */
    method Init()
      modifies data
      ensures forall i | 0 <= i < data.Length :: Slots()[i] == VerIdx(0xFFFF_FFFF, 0)
    {
      var i := 0;
      while i < data.Length
        invariant i % 2 == 0 && 0 <= i <= data.Length + 1
        invariant forall k | 0 <= k < i && k < data.Length && k % 2 == 0 :: data[k] == asInt(VerIdx(EMPTY, 0))
      {
        data[i] := asInt(VerIdx(EMPTY, 0));
        i := i + 2;
      }
      i := 1;
      while i < data.Length
        invariant i % 2 == 1 && 1 <= i <= data.Length + 2
        invariant forall k | 0 <= k < data.Length && k % 2 == 0 :: data[k] == asInt(VerIdx(EMPTY, 0))
        invariant forall k | 0 <= k < i && k < data.Length && k % 2 == 1 :: data[k] == asInt(VerIdx(0, EMPTY))
      {
        data[i] := asInt(VerIdx(0, EMPTY));
        i := i + 2;
      }
      forall k | 0 <= k < data.Length ensures Slots()[k] == VerIdx(EMPTY, 0) {
        if k % 2 == 0 { EmptyWord(k, data[k]); } else { EmptyWord(k, data[k]); }
      }
    }

    method Load(i: nat) returns (vi: VerIdx)
      requires i < data.Length
      ensures vi == Slots()[i]
    {
      var cur := swp32(data[i]);
      if i % 2 == 1 { vi := VerIdx(hi32(cur), lo32(cur)); } else { vi := VerIdx(lo32(cur), hi32(cur)); }
    }

    /** store_vi: exchanges the slot and returns what it held. */
    method StoreVi(i: nat, vi: bv64) returns (prev: VerIdx)
      requires i < data.Length
      modifies data
      ensures Slots() == old(Slots())[i := ofInt(vi)] && prev == old(Slots()[i])
    {
      var odd := i % 2 == 1;
      var strVi := if odd then VerIdx(lo32(vi), hi32(vi)) else VerIdx(hi32(vi), lo32(vi));
      var w := data[i];
      data[i] := asInt(strVi);
      prev := if odd then VerIdx(lo32(w), hi32(w)) else VerIdx(hi32(w), lo32(w));
      StoredWord(i, vi, w);
    }

    /** cmpex_vi: swaps the slot if and only if it holds `expected`. */
    method CmpexVi(i: nat, expected: VerIdx, desired: VerIdx) returns (ok: bool)
      requires i < data.Length
      modifies data
      ensures ok <==> old(Slots()[i]) == expected
      ensures Slots() == if ok then old(Slots())[i := desired] else old(Slots())
    {
      var exp := if i % 2 == 1 then swp32(asInt(expected)) else asInt(expected);
      var desi := if i % 2 == 1 then swp32(asInt(desired)) else asInt(desired);
      WordRoundTrip(i, data[i], expected);
      WordRoundTrip(i, data[i], desired);
      ok := data[i] == exp;
      if ok { data[i] := desi; }
    }
  }

  lemma EmptyWord(i: nat, w: bv64)
    requires w == if i % 2 == 0 then asInt(VerIdx(EMPTY, 0)) else asInt(VerIdx(0, EMPTY))
    ensures Decode(i, w) == VerIdx(EMPTY, 0)
  {
    SwapTwice(w);
    AsIntRoundTrip(VerIdx(EMPTY, 0), w);
    AsIntRoundTrip(VerIdx(0, EMPTY), w);
  }

  /** What store_vi writes and returns, decoded. */
  lemma StoredWord(i: nat, vi: bv64, w: bv64)
    ensures Decode(i, asInt(if i % 2 == 1 then VerIdx(lo32(vi), hi32(vi)) else VerIdx(hi32(vi), lo32(vi)))) == ofInt(vi)
    ensures Decode(i, w) == if i % 2 == 1 then VerIdx(lo32(w), hi32(w)) else VerIdx(hi32(w), lo32(w))
  {
    SwapTwice(w);
    var s := if i % 2 == 1 then VerIdx(lo32(vi), hi32(vi)) else VerIdx(hi32(vi), lo32(vi));
    SwapTwice(asInt(s));
    AsIntRoundTrip(s, vi);
    assert ofInt(vi) == VerIdx(hi32(vi), lo32(vi));
  }

  // ---------------------------------------------------------------- the circle of slots

  /** 32-bit subtraction. */
  function Wrapped(n: int): (r: nat)
    ensures r < 0x1_0000_0000 && (0 <= n < 0x1_0000_0000 ==> r == n)
    ensures n == -1 ==> r == 0xFFFF_FFFF
  {
    n % 0x1_0000_0000
  }

  function nxtIdx(m_sz: nat, i: nat): nat
    requires 0 < m_sz
  {
    (i + 1) % m_sz
  }

  function prevIdx(m_sz: nat, i: nat): nat
    requires 0 < m_sz
  {
    if Wrapped(i - 1) < m_sz - 1 then Wrapped(i - 1) else m_sz - 1
  }

  lemma NxtIdxIs(m_sz: nat, i: nat)
    requires i < m_sz
    ensures nxtIdx(m_sz, i) == if i + 1 < m_sz then i + 1 else 0
  {
  }

  /** Stepping forward and stepping back undo each other, around the wrap at 0 too. */
  lemma StepsAreInverse(m_sz: nat, i: nat)
    requires i < m_sz < 0x1_0000_0000
    ensures nxtIdx(m_sz, i) < m_sz && prevIdx(m_sz, i) < m_sz
    ensures prevIdx(m_sz, nxtIdx(m_sz, i)) == i && nxtIdx(m_sz, prevIdx(m_sz, i)) == i
  {
    NxtIdxIs(m_sz, i);
    NxtIdxIs(m_sz, prevIdx(m_sz, i));
  }

  /** They are the steps of the circle that the models of the table use. */
  lemma StepsAreTheCircle(m_sz: nat, i: nat)
    requires i < m_sz < 0x1_0000_0000
    ensures nxtIdx(m_sz, i) == Circle.Next(m_sz, i) && prevIdx(m_sz, i) == Circle.Prev(m_sz, i)
  {
    NxtIdxIs(m_sz, i);
  }

  /** The slots a probe loop visits from i up to and with en. */
  function Probes(m_sz: nat, i: nat, en: nat, fuel: nat): seq<nat>
    requires i < m_sz
    decreases fuel
  {
    if i == en || fuel == 0 then [i]
    else
      NxtIdxIs(m_sz, i);
      [i] + Probes(m_sz, nxtIdx(m_sz, i), en, fuel - 1)
  }

  lemma {:induction false} ProbesAre(m_sz: nat, home: nat, j: nat)
    requires home < m_sz < 0x1_0000_0000 && j < m_sz
    ensures var i := (if home + j < m_sz then home + j else home + j - m_sz);
      var p := Probes(m_sz, i, prevIdx(m_sz, home), m_sz - 1 - j);
      |p| == m_sz - j && forall n | 0 <= n < |p| ::
        p[n] == if home + j + n < m_sz then home + j + n else home + j + n - m_sz
    decreases m_sz - j
  {
    var i := if home + j < m_sz then home + j else home + j - m_sz;
    NxtIdxIs(m_sz, i);
    if j + 1 < m_sz { ProbesAre(m_sz, home, j + 1); }
  }

  /** A probe loop that runs from the home of a key until it has done the slot before it visits every slot once. */
  lemma ProbesCoverOnce(m_sz: nat, home: nat, i: nat)
    requires home < m_sz < 0x1_0000_0000 && i < m_sz
    ensures var p := Probes(m_sz, home, prevIdx(m_sz, home), m_sz - 1);
      && |p| == m_sz && (exists n :: 0 <= n < |p| && p[n] == i)
      && (forall a, b | 0 <= a < b < |p| :: p[a] != p[b])
  {
    ProbesAre(m_sz, home, 0);
    var p := Probes(m_sz, home, prevIdx(m_sz, home), m_sz - 1);
    assert p[if home <= i then i - home else i + m_sz - home] == i;
  }

  // ---------------------------------------------------------------- nextPowerOf2

  function nextPowerOf2(v: bv32): bv32 {
    var a := v - 1;
    var b := a | (a >> 1);
    var c := b | (b >> 2);
    var d := c | (c >> 4);
    var e := d | (d >> 8);
    var f := e | (e >> 16);
    f + 1
  }

  /** The size an opener computes is the size the owner set if and only if the block count is a power of two. */
  lemma SizeIsKeptIffPowerOf2(v: bv32)
    requires v != 0
    ensures nextPowerOf2(v) == v <==> v & (v - 1) == 0
  {
  }

  /** It is the least power of two that is not less, up to 2^31. */
  lemma NextPowerOf2IsLeast(v: bv32)
    requires 0 < v <= 0x8000_0000
    ensures var p := nextPowerOf2(v); p & (p - 1) == 0 && v <= p && (p >> 1) < v
  {
  }
}
