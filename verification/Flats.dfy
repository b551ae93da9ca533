/** The bytes of a chain of blocks, laid end to end. */
module Flats {
  import opened Bytes
  import opened Chains

  // ---------------------------------------------------------------- multiples of the block size

  /** n * bs, in a form the verifier adds up step by step. */
  function Times(n: nat, bs: nat): nat {
    if n == 0 then 0 else Times(n - 1, bs) + bs
  }

  lemma {:induction false} TimesIsProduct(n: nat, bs: nat)
    ensures Times(n, bs) == n * bs
  {
    if n > 0 {
      TimesIsProduct(n - 1, bs);
      assert n * bs == (n - 1) * bs + bs;
    }
  }

  lemma {:induction false} TimesAdd(a: nat, b: nat, bs: nat)
    ensures Times(a + b, bs) == Times(a, bs) + Times(b, bs)
  {
    if b > 0 { TimesAdd(a, b - 1, bs); }
  }

  lemma TimesLess(a: nat, b: nat, bs: nat)
    requires a < b
    ensures Times(a, bs) + bs <= Times(b, bs)
  {
    TimesAdd(a + 1, b - a - 1, bs);
  }

  /** Quotient and remainder as the source computes them. */
  lemma DivTimes(bs: nat, len: nat)
    requires 0 < bs
    ensures Times(len / bs, bs) + len % bs == len && len % bs < bs
  {
    TimesIsProduct(len / bs, bs);
  }

  /** The number of blocks of bs bytes that hold len bytes. */
  function Needed(bs: nat, len: nat): nat
    requires 0 < bs
  {
    if len == 0 then 0 else if len <= bs then 1 else Needed(bs, len - bs) + 1
  }

  /** It is the quotient rounded up, as CncrStr::blocksNeeded computes it. */
  lemma {:induction false} NeededIsQuotient(bs: nat, len: nat, q: nat, r: nat)
    requires 0 < bs && len == Times(q, bs) + r && r < bs
    ensures Needed(bs, len) == q + (if r != 0 then 1 else 0)
  {
    if q > 0 { NeededIsQuotient(bs, len - bs, q - 1, r); }
  }

  /** Needed blocks have room for len bytes, and one block less has not. */
  lemma {:induction false} NeededIsEnough(bs: nat, len: nat)
    requires 0 < bs
    ensures len <= Times(Needed(bs, len), bs) < len + bs
  {
    if len > bs { NeededIsEnough(bs, len - bs); }
  }

  /** A length that does not fill its last block: `len % bs != 0`. */
  predicate Jagged(bs: nat, len: nat) {
    if bs == 0 || len < bs then len > 0 else Jagged(bs, len - bs)
  }

  lemma {:induction false} JaggedIs(bs: nat, len: nat, q: nat, r: nat)
    requires 0 < bs && len == Times(q, bs) + r && r < bs
    ensures Jagged(bs, len) <==> r != 0
  {
    if q > 0 { JaggedIs(bs, len - bs, q - 1, r); }
  }

  lemma JaggedIsRemainder(bs: nat, len: nat)
    requires 0 < bs
    ensures Jagged(bs, len) <==> len % bs != 0
  {
    DivTimes(bs, len);
    JaggedIs(bs, len, len / bs, len % bs);
  }

  // ---------------------------------------------------------------- bytes laid end to end

  /** Every block is bs bytes. */
  predicate Rows(bs: nat, rows: seq<Str>) {
    forall b | 0 <= b < |rows| :: |rows[b]| == bs
  }

  predicate In(rows: seq<Str>, blks: seq<nat>) {
    forall i | 0 <= i < |blks| :: blks[i] < |rows|
  }

  function Flat(rows: seq<Str>, blks: seq<nat>): Str
    requires In(rows, blks)
  {
    if blks == [] then [] else Flat(rows, blks[..|blks| - 1]) + rows[blks[|blks| - 1]]
  }

  lemma {:induction false} FlatLen(bs: nat, rows: seq<Str>, blks: seq<nat>)
    requires Rows(bs, rows) && In(rows, blks)
    ensures |Flat(rows, blks)| == Times(|blks|, bs)
  {
    if blks != [] { FlatLen(bs, rows, blks[..|blks| - 1]); }
  }

  /** Block i holds the bytes from i * bs on. */
  lemma {:induction false} FlatAt(bs: nat, rows: seq<Str>, blks: seq<nat>, i: nat)
    requires Rows(bs, rows) && In(rows, blks) && i < |blks|
    ensures Times(i, bs) + bs <= |Flat(rows, blks)|
    ensures Flat(rows, blks)[Times(i, bs)..Times(i, bs) + bs] == rows[blks[i]]
  {
    var rest := blks[..|blks| - 1];
    FlatLen(bs, rows, rest);
    if i < |rest| { FlatAt(bs, rows, rest, i); }
  }

  /** Bytes of other blocks do not matter. */
  lemma {:induction false} FlatFrame(rows: seq<Str>, rows': seq<Str>, blks: seq<nat>)
    requires In(rows, blks) && |rows'| == |rows|
    requires forall i | 0 <= i < |blks| :: rows'[blks[i]] == rows[blks[i]]
    ensures In(rows', blks) && Flat(rows', blks) == Flat(rows, blks)
  {
    if blks != [] { FlatFrame(rows, rows', blks[..|blks| - 1]); }
  }

  lemma FlatPush(rows: seq<Str>, blks: seq<nat>, i: nat)
    requires In(rows, blks) && i < |blks|
    ensures Flat(rows, blks[..i + 1]) == Flat(rows, blks[..i]) + rows[blks[i]]
  {
    assert blks[..i + 1][..i] == blks[..i];
  }

  /** The blocks after whole rows of src[at..] were written to blks[i..i + cnt]. */
  function Wrote(bs: nat, rows: seq<Str>, blks: seq<nat>, i: nat, src: Str, at: nat, cnt: nat): (r: seq<Str>)
    requires In(rows, blks) && i + cnt <= |blks| && at + Times(cnt, bs) <= |src|
    ensures |r| == |rows| && In(r, blks)
  {
    if cnt == 0 then rows
    else
      var pos := at + Times(cnt - 1, bs);
      Wrote(bs, rows, blks, i, src, at, cnt - 1)[blks[i + cnt - 1] := src[pos..pos + bs]]
  }

  lemma {:induction false} WroteFrame(
    bs: nat, rows: seq<Str>, blks: seq<nat>, i: nat, src: Str, at: nat, cnt: nat, c: nat)
    requires In(rows, blks) && i + cnt <= |blks| && at + Times(cnt, bs) <= |src|
    requires c < |rows| && c !in blks[i..i + cnt]
    ensures Wrote(bs, rows, blks, i, src, at, cnt)[c] == rows[c]
  {
    if cnt > 0 {
      assert blks[i..i + cnt] == blks[i..i + cnt - 1] + [blks[i + cnt - 1]];
      WroteFrame(bs, rows, blks, i, src, at, cnt - 1, c);
    }
  }

  lemma {:induction false} WroteAt(
    bs: nat, rows: seq<Str>, blks: seq<nat>, i: nat, src: Str, at: nat, cnt: nat, k: nat)
    requires In(rows, blks) && i <= k < i + cnt <= |blks| && at + Times(cnt, bs) <= |src| && Distinct(blks)
    ensures IsChunk(src, at + Times(k - i, bs), bs, Wrote(bs, rows, blks, i, src, at, cnt)[blks[k]])
  {
    if k < i + cnt - 1 { WroteAt(bs, rows, blks, i, src, at, cnt - 1, k); }
  }

  predicate IsChunk(src: Str, at: nat, bs: nat, row: Str) {
    at + bs <= |src| && row == src[at..at + bs]
  }

  /** A block with some bytes overwritten. */
  function Patch(row: Str, bytes: Str, ofst: nat): (r: Str)
    requires ofst + |bytes| <= |row|
    ensures |r| == |row| && (|bytes| == |row| ==> r == bytes)
  {
    row[..ofst] + bytes + row[ofst + |bytes|..]
  }

  /** How key and value fall into blocks: kb whole blocks of key, a block that holds the last rem key bytes and
      the first fill value bytes, vb whole blocks of value, and a last block with the rest. */
  datatype Split = Split(kb: nat, rem: nat, fill: nat, vb: nat, rest: nat)

  predicate Divides(bs: nat, klen: nat, vlen: nat, p: Split) {
    && klen == Times(p.kb, bs) + p.rem && p.rem < bs
    && p.fill == (if vlen < bs - p.rem then vlen else bs - p.rem)
    && vlen == p.fill + Times(p.vb, bs) + p.rest && p.rest < bs
  }

  /** A key that does not fill its last block shares it with the value. */
  predicate Splits(bs: nat, klen: nat, vlen: nat, p: Split) {
    Divides(bs, klen, vlen, p) && 0 < p.rem
  }

  lemma SplitCounts(bs: nat, klen: nat, vlen: nat, p: Split)
    requires 0 < bs && Splits(bs, klen, vlen, p) && 0 < vlen
    ensures Needed(bs, klen + vlen) == p.kb + 1 + p.vb + if p.rest != 0 then 1 else 0
    ensures p.vb > 0 || p.rest > 0 ==> p.rem + p.fill == bs
  {
    if p.rem + p.fill < bs {
      NeededIsQuotient(bs, klen + vlen, p.kb, p.rem + p.fill);
    } else {
      TimesAdd(p.kb + 1, p.vb, bs);
      NeededIsQuotient(bs, klen + vlen, p.kb + 1 + p.vb, p.rest);
    }
  }

  /** Block i of a list holds its share of the data. */
  predicate RowHas(bs: nat, data: Str, i: nat, row: Str) {
    var at := Times(i, bs);
    at <= |data| && data[at..if at + bs <= |data| then at + bs else |data|] <= row
  }

  lemma SumSlice(a: Str, b: Str, i: nat, j: nat)
    requires |a| <= i <= j <= |a| + |b|
    ensures (a + b)[i..j] == b[i - |a|..j - |a|]
  {
    var l, r := (a + b)[i..j], b[i - |a|..j - |a|];
    forall k | 0 <= k < |r| ensures l[k] == r[k] { }
  }

  lemma KeyRow(bs: nat, key: Str, val: Str, p: Split, i: nat, row: Str)
    requires Splits(bs, |key|, |val|, p) && i < p.kb && IsChunk(key, Times(i, bs), bs, row)
    ensures RowHas(bs, key + val, i, row)
  {
    assert (key + val)[Times(i, bs)..Times(i, bs) + bs] == row;
  }

  lemma SharedRow(bs: nat, key: Str, val: Str, p: Split, row: Str)
    requires Splits(bs, |key|, |val|, p) && |row| == bs
    ensures RowHas(bs, key + val, p.kb, Patch(Patch(row, key[|key| - p.rem..], 0), val[..p.fill], p.rem))
  {
    var at := Times(p.kb, bs);
    assert (key + val)[at..at + p.rem + p.fill] == key[|key| - p.rem..] + val[..p.fill];
  }

  lemma ValRow(bs: nat, key: Str, val: Str, p: Split, j: nat, row: Str)
    requires 0 < bs && Splits(bs, |key|, |val|, p) && 0 < |val| && j < p.vb
    requires IsChunk(val, p.fill + Times(j, bs), bs, row)
    ensures RowHas(bs, key + val, p.kb + 1 + j, row)
  {
    SplitCounts(bs, |key|, |val|, p);
    TimesAdd(p.kb + 1, j, bs);
    var at := Times(p.kb + 1 + j, bs);
    assert at == |key| + p.fill + Times(j, bs);
    SumSlice(key, val, at, at + bs);
  }

  lemma RestRow(bs: nat, key: Str, val: Str, p: Split, row: Str)
    requires 0 < bs && Splits(bs, |key|, |val|, p) && 0 < |val| && 0 < p.rest && |row| == bs
    ensures RowHas(bs, key + val, p.kb + 1 + p.vb, Patch(row, val[|val| - p.rest..], 0))
  {
    SplitCounts(bs, |key|, |val|, p);
    TimesAdd(p.kb + 1, p.vb, bs);
    var at := Times(p.kb + 1 + p.vb, bs);
    SumSlice(key, val, at, |key| + |val|);
    assert val[|val| - p.rest..] == val[at - |key|..|val|];
  }

  /** If every block of a list holds its share of the data, reading the list end to end gives the data. */
  lemma {:induction false} SharesMakeTheWhole(bs: nat, rows: seq<Str>, blks: seq<nat>, data: Str, i: nat)
    requires Rows(bs, rows) && In(rows, blks) && i <= |blks|
    requires forall j | 0 <= j < |blks| :: RowHas(bs, data, j, rows[blks[j]])
    ensures data[..if Times(i, bs) <= |data| then Times(i, bs) else |data|] <= Flat(rows, blks[..i])
  {
    if i > 0 {
      SharesMakeTheWhole(bs, rows, blks, data, i - 1);
      FlatLen(bs, rows, blks[..i - 1]);
      FlatPush(rows, blks, i - 1);
      var at, row := Times(i - 1, bs), rows[blks[i - 1]];
      assert RowHas(bs, data, i - 1, row);
      var n := if at + bs <= |data| then at + bs else |data|;
      assert Flat(rows, blks[..i - 1]) == data[..at];
      Glue(data[..at], data[at..n], row);
      AppendPiece(data, 0, at, n);
    }
  }

  lemma Glue(base: Str, a: Str, row: Str)
    requires a <= row
    ensures base + a <= base + row
  {
  }

  /** From r to r', whole rows of src[at..] were written to blks[i..i + cnt], and nothing else. */
  ghost predicate WroteWhole(
    bs: nat, r: seq<Str>, r': seq<Str>, blks: seq<nat>, i: nat, src: Str, at: nat, cnt: nat)
  {
    && |r'| == |r| && i + cnt <= |blks| && In(r, blks)
    && (forall k {:trigger r'[blks[k]]} | i <= k < i + cnt :: IsChunk(src, at + Times(k - i, bs), bs, r'[blks[k]]))
    && (forall c | 0 <= c < |r| && c !in blks[i..i + cnt] :: r'[c] == r[c])
  }

  /** The writes of put, one after the other. */
  ghost predicate PutWrites(
    bs: nat, blks: seq<nat>, key: Str, val: Str, p: Split, r0: seq<Str>, r1: seq<Str>, r3: seq<Str>, r4: seq<Str>)
  {
    && 0 < bs && 0 < |val| && Splits(bs, |key|, |val|, p) && Distinct(blks) && In(r0, blks) && Rows(bs, r0)
    && |blks| == p.kb + 1 + p.vb + (if p.rest != 0 then 1 else 0)
    && WroteWhole(bs, r0, r1, blks, 0, key, 0, p.kb) && Rows(bs, r1)
    && WroteWhole(bs, WroteShared(bs, r1, blks, key, val, p), r3, blks, p.kb + 1, val, p.fill, p.vb) && Rows(bs, r3)
    && r4 == WroteRest(bs, r3, blks, val, p)
  }

  /** The block that the last key bytes share with the first value bytes. */
  function WroteShared(bs: nat, r: seq<Str>, blks: seq<nat>, key: Str, val: Str, p: Split): seq<Str>
    requires Rows(bs, r) && In(r, blks) && p.kb < |blks|
    requires p.rem <= |key| && p.fill <= |val| && p.rem + p.fill <= bs
  {
    r[blks[p.kb] := Patch(Patch(r[blks[p.kb]], key[|key| - p.rem..], 0), val[..p.fill], p.rem)]
  }

  /** The last, partly filled block. */
  function WroteRest(bs: nat, r: seq<Str>, blks: seq<nat>, val: Str, p: Split): seq<Str>
    requires Rows(bs, r) && In(r, blks) && p.rest <= |val| && p.rest < bs
    requires |blks| == p.kb + 1 + p.vb + (if p.rest != 0 then 1 else 0)
  {
    if p.rest == 0 then r
    else r[blks[p.kb + 1 + p.vb] := Patch(r[blks[p.kb + 1 + p.vb]], val[|val| - p.rest..], 0)]
  }

  lemma NotInSlice(blks: seq<nat>, i: nat, lo: nat, hi: nat)
    requires Distinct(blks) && i < |blks| && lo <= hi <= |blks| && (i < lo || hi <= i)
    ensures blks[i] !in blks[lo..hi]
  {
  }

  lemma PutRow(
    bs: nat, blks: seq<nat>, key: Str, val: Str, p: Split,
    r0: seq<Str>, r1: seq<Str>, r3: seq<Str>, r4: seq<Str>, i: nat)
    requires PutWrites(bs, blks, key, val, p, r0, r1, r3, r4) && i < |blks|
    ensures RowHas(bs, key + val, i, r4[blks[i]])
  {
    var b := blks[i];
    if i <= p.kb {
      FrontRow(bs, blks, key, val, p, r0, r1, r3, r4, i);
    } else if i < p.kb + 1 + p.vb {
      ValRow(bs, key, val, p, i - p.kb - 1, r3[b]);
    } else {
      RestRow(bs, key, val, p, r3[b]);
    }
  }

  lemma FrontRow(
    bs: nat, blks: seq<nat>, key: Str, val: Str, p: Split,
    r0: seq<Str>, r1: seq<Str>, r3: seq<Str>, r4: seq<Str>, i: nat)
    requires PutWrites(bs, blks, key, val, p, r0, r1, r3, r4) && i <= p.kb
    ensures RowHas(bs, key + val, i, r4[blks[i]])
  {
    var b := blks[i];
    NotInSlice(blks, i, p.kb + 1, p.kb + 1 + p.vb);
    assert r4[b] == WroteShared(bs, r1, blks, key, val, p)[b];
    if i < p.kb {
      KeyRow(bs, key, val, p, i, r1[b]);
    } else {
      SharedRow(bs, key, val, p, r1[b]);
    }
  }

  lemma PutFrame(
    bs: nat, blks: seq<nat>, key: Str, val: Str, p: Split,
    r0: seq<Str>, r1: seq<Str>, r3: seq<Str>, r4: seq<Str>, c: nat)
    requires PutWrites(bs, blks, key, val, p, r0, r1, r3, r4) && c < |r0| && c !in blks
    ensures r4[c] == r0[c]
  {
  }

  lemma PutDone(
    bs: nat, blks: seq<nat>, key: Str, val: Str, p: Split, r0: seq<Str>, r1: seq<Str>, r3: seq<Str>, r4: seq<Str>)
    requires PutWrites(bs, blks, key, val, p, r0, r1, r3, r4)
    ensures |r4| == |r0| && forall i | 0 <= i < |blks| :: blks[i] < |r4| && RowHas(bs, key + val, i, r4[blks[i]])
    ensures forall c | 0 <= c < |r0| && c !in blks :: r4[c] == r0[c]
  {
    forall i | 0 <= i < |blks| ensures RowHas(bs, key + val, i, r4[blks[i]]) {
      PutRow(bs, blks, key, val, p, r0, r1, r3, r4, i);
    }
    forall c | 0 <= c < |r0| && c !in blks ensures r4[c] == r0[c] {
      PutFrame(bs, blks, key, val, p, r0, r1, r3, r4, c);
    }
  }

  /** Overwriting the first kb blocks with a key of kb blocks replaces just that much of the bytes. */
  lemma {:induction false} WholeRows(bs: nat, r: seq<Str>, r': seq<Str>, blks: seq<nat>, key: Str, kb: nat)
    requires Rows(bs, r) && Rows(bs, r') && Distinct(blks) && |key| == Times(kb, bs)
    requires WroteWhole(bs, r, r', blks, 0, key, 0, kb)
    ensures In(r', blks) && |key| <= |Flat(r, blks)| && Flat(r', blks) == key + Flat(r, blks)[|key|..]
  {
    FlatLen(bs, r, blks);
    FlatLen(bs, r', blks);
    if kb < |blks| { TimesLess(kb, |blks|, bs); }
    assert blks[..|blks|] == blks;
    WholeRowsUpTo(bs, r, r', blks, key, kb, |blks|);
  }

  lemma DropOfSum(a: Str, b: Str, k: nat, key: Str)
    requires k <= |a|
    ensures (key + a[k..]) + b == key + (a + b)[k..]
  {
  }

  lemma {:induction false} WholeRowsUpTo(bs: nat, r: seq<Str>, r': seq<Str>, blks: seq<nat>, key: Str, kb: nat, n: nat)
    requires Rows(bs, r) && Rows(bs, r') && Distinct(blks) && |key| == Times(kb, bs)
    requires WroteWhole(bs, r, r', blks, 0, key, 0, kb) && kb <= n <= |blks|
    ensures In(r', blks) && |key| <= |Flat(r, blks[..n])|
    ensures Flat(r', blks[..n]) == key + Flat(r, blks[..n])[|key|..]
  {
    FlatLen(bs, r, blks[..n]);
    if kb < n {
      NotInSlice(blks, n - 1, 0, kb);
      WholeRowsUpTo(bs, r, r', blks, key, kb, n - 1);
      FlatPush(r, blks, n - 1);
      FlatPush(r', blks, n - 1);
      DropOfSum(Flat(r, blks[..n - 1]), r[blks[n - 1]], |key|, key);
    } else {
      FlatLen(bs, r', blks[..n]);
      KeyRows(bs, r', blks, key, n);
    }
  }

  lemma {:induction false} KeyRows(bs: nat, r: seq<Str>, blks: seq<nat>, key: Str, n: nat)
    requires In(r, blks) && n <= |blks| && Times(n, bs) <= |key|
    requires forall k {:trigger r[blks[k]]} | 0 <= k < n :: IsChunk(key, Times(k, bs), bs, r[blks[k]])
    ensures Flat(r, blks[..n]) == key[..Times(n, bs)]
  {
    if n > 0 {
      KeyRows(bs, r, blks, key, n - 1);
      FlatPush(r, blks, n - 1);
      assert key[..Times(n, bs)] == key[..Times(n - 1, bs)] + r[blks[n - 1]];
    }
  }

  lemma KeyThenValue(bs: nat, rows: seq<Str>, blks: seq<nat>, key: Str, val: Str)
    requires Rows(bs, rows) && In(rows, blks) && 0 < bs && |blks| == Needed(bs, |key| + |val|)
    requires forall j | 0 <= j < |blks| :: RowHas(bs, key + val, j, rows[blks[j]])
    ensures |key| + |val| <= |Flat(rows, blks)|
    ensures Flat(rows, blks)[..|key|] == key && Flat(rows, blks)[|key|..|key| + |val|] == val
  {
    NeededIsEnough(bs, |key| + |val|);
    assert blks[..|blks|] == blks;
    SharesMakeTheWhole(bs, rows, blks, key + val, |blks|);
    var f := Flat(rows, blks);
    assert (key + val)[..|key|] == key && (key + val)[|key|..] == val;
    assert f[..|key| + |val|] == key + val;
    assert f[..|key|] == f[..|key| + |val|][..|key|];
    assert f[|key|..|key| + |val|] == f[..|key| + |val|][|key|..];
  }

  /** A piece of block i is a piece of the whole. */
  lemma FlatPiece(bs: nat, rows: seq<Str>, blks: seq<nat>, i: nat, lo: nat, n: nat)
    requires Rows(bs, rows) && In(rows, blks) && i < |blks| && lo + n <= bs
    ensures Times(i, bs) + bs <= |Flat(rows, blks)|
    ensures rows[blks[i]][lo..lo + n] == Flat(rows, blks)[Times(i, bs) + lo..Times(i, bs) + lo + n]
  {
    FlatAt(bs, rows, blks, i);
    var f, at := Flat(rows, blks), Times(i, bs);
    SliceOfSlice(f, at, at + bs, lo, lo + n);
  }

  lemma SliceOfSlice(f: Str, a: nat, b: nat, c: nat, d: nat)
    requires a <= b <= |f| && c <= d <= b - a
    ensures f[a..b][c..d] == f[a + c..a + d]
  {
    var l, r := f[a..b][c..d], f[a + c..a + d];
    forall k | 0 <= k < |r| ensures l[k] == r[k] { }
  }

  lemma AppendPiece(f: Str, a: nat, b: nat, c: nat)
    requires a <= b <= c <= |f|
    ensures f[a..b] + f[b..c] == f[a..c]
  {
  }

  function Min(a: nat, b: nat): nat { if a < b then a else b }

  /** The loop of get after block j - 1: everything behind the key up to here, at most maxlen bytes. */
  predicate Copied(bs: nat, f: Str, klen: nat, maxlen: nat, j: nat, out: Str) {
    && klen <= Times(j, bs) <= |f| && |out| == Min(maxlen, Times(j, bs) - klen)
    && out == f[klen..klen + |out|]
  }

  lemma CopyOn(bs: nat, f: Str, klen: nat, maxlen: nat, j: nat, out: Str, rd: Str)
    requires Copied(bs, f, klen, maxlen, j, out) && |out| < maxlen && Times(j, bs) + bs <= |f|
    requires rd == f[Times(j, bs)..Times(j, bs) + Min(bs, maxlen - |out|)]
    ensures Copied(bs, f, klen, maxlen, j + 1, out + rd)
  {
    AppendPiece(f, klen, Times(j, bs), Times(j, bs) + |rd|);
  }

  lemma CopyEnds(bs: nat, f: Str, klen: nat, maxlen: nat, j: nat, n: nat, out: Str)
    requires Copied(bs, f, klen, maxlen, j, out) && |out| >= maxlen && j <= n && Times(n, bs) <= |f|
    ensures Copied(bs, f, klen, maxlen, n, out)
  {
    if j < n { TimesLess(j, n, bs); }
  }

  /** How many bytes get copies: the value if it ends in the block it shares with the key, and otherwise
      everything up to the end of the list or to maxlen. */
  function ReadLen(bs: nat, kb: nat, n: nat, klen: nat, vlen: nat, maxlen: nat): nat
    requires klen <= Times(n, bs)
  {
    if klen + vlen <= Times(kb + 1, bs) then vlen else Min(maxlen, Times(n, bs) - klen)
  }

  /** The value ends in the block it shares with the key if and only if what the key leaves of that block has room. */
  lemma ReadLenIs(bs: nat, n: nat, klen: nat, vlen: nat, maxlen: nat)
    requires 0 < bs && klen <= Times(n, bs)
    ensures ReadLen(bs, Whole(bs, klen), n, klen, vlen, maxlen) ==
      if klen % bs + vlen <= bs then vlen else if maxlen < Times(n, bs) - klen then maxlen else Times(n, bs) - klen
  {
    DivTimes(bs, klen);
    WholeIsQuotient(bs, klen, klen / bs, klen % bs);
  }

  /** What get copies out of a list. */
  ghost predicate ReadsValue(
    bs: nat, rows: seq<Str>, blks: seq<nat>, kb: nat, krem: nat, vlen: nat, maxlen: nat, out: Str)
  {
    && Rows(bs, rows) && In(rows, blks)
    && var klen, f := Times(kb, bs) + krem, Flat(rows, blks);
    && klen <= Times(|blks|, bs) && |out| == ReadLen(bs, kb, |blks|, klen, vlen, maxlen)
    && klen + |out| <= |f| && out == f[klen..klen + |out|]
  }

  /** The shapes of a list whose kb whole key blocks, shared block and value fit its blocks. */
  predicate Fits(bs: nat, n: nat, kb: nat, krem: nat, vlen: nat, maxlen: nat) {
    && kb < n && krem < bs && 0 < vlen <= maxlen
    && Times(n - 1, bs) < Times(kb, bs) + krem + vlen <= Times(n, bs)
  }

  /** The first piece of a value that goes on behind the block it shares with the key fills that block. */
  lemma FirstLen(bs: nat, n: nat, kb: nat, krem: nat, vlen: nat, maxlen: nat)
    requires Fits(bs, n, kb, krem, vlen, maxlen) && kb + 1 < n
    ensures Times(kb + 1, bs) <= Times(n, bs)
    ensures Min(bs - krem, vlen) == bs - krem == Min(maxlen, Times(kb + 1, bs) - Times(kb, bs) - krem)
  {
    TimesLess(kb + 1, n, bs);
    if kb + 1 < n - 1 { TimesLess(kb + 1, n - 1, bs); }
  }

  lemma FirstPiece(
    bs: nat, rows: seq<Str>, blks: seq<nat>, kb: nat, krem: nat, vlen: nat, maxlen: nat, got: Str)
    requires Rows(bs, rows) && In(rows, blks) && Fits(bs, |blks|, kb, krem, vlen, maxlen)
    requires var klen, n := Times(kb, bs) + krem, Min(bs - krem, vlen);
      klen + n <= |Flat(rows, blks)| && got == Flat(rows, blks)[klen..klen + n]
    ensures kb + 1 < |blks| ==> Copied(bs, Flat(rows, blks), Times(kb, bs) + krem, maxlen, kb + 1, got)
  {
    FlatLen(bs, rows, blks);
    if kb + 1 < |blks| { FirstLen(bs, |blks|, kb, krem, vlen, maxlen); }
  }

  lemma LastPiece(
    bs: nat, rows: seq<Str>, blks: seq<nat>, kb: nat, krem: nat, vlen: nat, maxlen: nat, got: Str, out: Str)
    requires Rows(bs, rows) && In(rows, blks) && Fits(bs, |blks|, kb, krem, vlen, maxlen)
    requires var klen, n := Times(kb, bs) + krem, Min(bs - krem, vlen);
      klen + n <= |Flat(rows, blks)| && got == Flat(rows, blks)[klen..klen + n]
    requires kb + 1 == |blks| ==> out == got
    requires kb + 1 < |blks| ==> Copied(bs, Flat(rows, blks), Times(kb, bs) + krem, maxlen, |blks|, out)
    ensures ReadsValue(bs, rows, blks, kb, krem, vlen, maxlen, out)
  {
    FlatLen(bs, rows, blks);
    if kb + 1 < |blks| - 1 { TimesLess(kb + 1, |blks| - 1, bs); }
  }

  // ---------------------------------------------------------------- reading keys

  /** len / bs: the blocks that len bytes fill. */
  function Whole(bs: nat, len: nat): nat
    requires 0 < bs
  {
    if len < bs then 0 else Whole(bs, len - bs) + 1
  }

  lemma {:induction false} WholeIsQuotient(bs: nat, len: nat, q: nat, r: nat)
    requires 0 < bs && len == Times(q, bs) + r && r < bs
    ensures Whole(bs, len) == q
  {
    if q > 0 { WholeIsQuotient(bs, len - bs, q - 1, r); }
  }

  /** A list of klen + vlen bytes has a block behind the whole blocks of its key. */
  lemma ListFits(bs: nat, n: nat, klen: nat, vlen: nat, maxlen: nat, kb: nat, krem: nat)
    requires 0 < bs && 0 < vlen && n == Needed(bs, klen + vlen) && klen == Times(kb, bs) + krem && krem < bs
    ensures kb < n && (vlen <= maxlen ==> Fits(bs, n, kb, krem, vlen, maxlen))
  {
    NeededIsEnough(bs, klen + vlen);
    if n < kb { TimesLess(n, kb, bs); }
  }

  lemma ReadsAll(bs: nat, rows: seq<Str>, blks: seq<nat>, kb: nat, krem: nat, vlen: nat, maxlen: nat, out: Str)
    requires 0 < bs && ReadsValue(bs, rows, blks, kb, krem, vlen, maxlen, out)
    requires Fits(bs, |blks|, kb, krem, vlen, maxlen)
    ensures vlen <= |out| <= maxlen
  {
  }

  /** Reading one more whole block from the front. */
  lemma FrontOn(bs: nat, rows: seq<Str>, blks: seq<nat>, i: nat, n: nat, out: Str)
    requires Rows(bs, rows) && In(rows, blks) && i < |blks| && n <= bs
    requires Times(i, bs) <= |Flat(rows, blks)| && out == Flat(rows, blks)[..Times(i, bs)]
    ensures Times(i, bs) + n <= |Flat(rows, blks)|
    ensures out + rows[blks[i]][..n] == Flat(rows, blks)[..Times(i, bs) + n]
  {
    FlatPiece(bs, rows, blks, i, 0, n);
    AppendPiece(Flat(rows, blks), 0, Times(i, bs), Times(i, bs) + n);
  }

  /** The first j blocks hold the first bytes of buf. */
  ghost predicate Matches(bs: nat, rows: seq<Str>, blks: seq<nat>, buf: Str, j: nat) {
    && In(rows, blks) && Times(j, bs) <= |Flat(rows, blks)| && Times(j, bs) <= |buf|
    && buf[..Times(j, bs)] == Flat(rows, blks)[..Times(j, bs)]
  }

  /** Comparing n bytes in block j of a list that matches up to there. */
  lemma MatchOn(bs: nat, rows: seq<Str>, blks: seq<nat>, buf: Str, j: nat, n: nat)
    requires Rows(bs, rows) && Matches(bs, rows, blks, buf, j) && j < |blks|
    requires n <= bs && Times(j, bs) + n <= |buf|
    ensures Times(j, bs) + n <= |Flat(rows, blks)|
    ensures buf[Times(j, bs)..Times(j, bs) + n] == rows[blks[j]][..n] <==>
      buf[..Times(j, bs) + n] == Flat(rows, blks)[..Times(j, bs) + n]
  {
    var f, at := Flat(rows, blks), Times(j, bs);
    FlatPiece(bs, rows, blks, j, 0, n);
    AppendPiece(f, 0, at, at + n);
    AppendPiece(buf, 0, at, at + n);
    SliceOfSlice(f, 0, at + n, at, at + n);
    SliceOfSlice(buf, 0, at + n, at, at + n);
  }

  lemma Mismatch(f: Str, buf: Str, n: nat)
    requires n <= |buf| <= |f| && buf[..n] != f[..n]
    ensures buf != f[..|buf|]
  {
    if buf == f[..|buf|] { SliceOfSlice(f, 0, |buf|, 0, n); }
  }
}
