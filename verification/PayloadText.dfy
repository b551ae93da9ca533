/** The text of a payload (`gp2str`), and a reader that gets the payload back from it. */
module PayloadText {
  import opened Bytes
  import opened Options

  /** A payload: null pointers are None, lengths come on their own. */
  datatype Payload = Payload(
    write: bool, address: nat, data: Option<Str>, data_len: nat, be: Option<Str>, be_len: nat, resp: string)

  const TLM_BYTE_ENABLED: u8 := 0xff

  // ---------------------------------------------------------------- numbers

  function Digit(d: nat): char
    requires d < 16
  {
    if d < 10 then '0' + d as char else 'a' + (d - 10) as char
  }

  function DigitOf(c: char): Option<nat> {
    if '0' <= c <= '9' then Some(c as nat - '0' as nat)
    else if 'a' <= c <= 'f' then Some(c as nat - 'a' as nat + 10)
    else None
  }

  lemma DigitRoundTrip(d: nat)
    requires d < 16
    ensures DigitOf(Digit(d)) == Some(d) && Digit(d) == "0123456789abcdef"[d] && Digit(d) != ' ' && Digit(d) != '_'
  {
  }

  /** n in base 16 or 10, without leading zeros. */
  function Number(n: nat, hex: bool): string
    decreases n
  {
    var b := if hex then 16 else 10;
    if n < b then [Digit(n)]
    else if hex then Number(n / 16, hex) + [Digit(n % 16)]
    else Number(n / 10, hex) + [Digit(n % 10)]
  }

  /** The number a text of digits stands for. */
  function NumberOf(s: string, hex: bool): Option<nat> {
    if s == [] then Some(0)
    else
      match (NumberOf(s[..|s| - 1], hex), DigitOf(s[|s| - 1]))
      case (Some(n), Some(d)) => Some((if hex then n * 16 else n * 10) + d)
      case _ => None
  }

  lemma {:induction false} NumberRoundTrip(n: nat, hex: bool)
    ensures NumberOf(Number(n, hex), hex) == Some(n) && ' ' !in Number(n, hex)
    ensures Number(n, hex) != [] && (Number(n, hex)[0] == '0' ==> n == 0 && |Number(n, hex)| == 1)
    decreases n
  {
    if n < (if hex then 16 else 10) {
      OneDigit(n, hex);
    } else {
      var q, r := LastDigit(n, hex);
      NumberRoundTrip(q, hex);
      DigitAdded(Number(q, hex), q, r, hex);
    }
  }

  lemma OneDigit(n: nat, hex: bool)
    requires n < (if hex then 16 else 10)
    ensures Number(n, hex) == [Digit(n)] && NumberOf([Digit(n)], hex) == Some(n)
    ensures Digit(n) != ' ' && (Digit(n) == '0' ==> n == 0)
  {
    DigitRoundTrip(n);
    assert [] + [Digit(n)] == [Digit(n)];
    NumberOfSnoc([], Digit(n), hex);
  }

  lemma LastDigit(n: nat, hex: bool) returns (q: nat, r: nat)
    requires n >= (if hex then 16 else 10)
    ensures 0 < q < n && r < (if hex then 16 else 10) && n == if hex then q * 16 + r else q * 10 + r
    ensures Number(n, hex) == Number(q, hex) + [Digit(r)]
  {
    if hex { q, r := n / 16, n % 16; } else { q, r := n / 10, n % 10; }
  }

  /** One more digit behind a number. */
  lemma DigitAdded(s: string, q: nat, r: nat, hex: bool)
    requires NumberOf(s, hex) == Some(q) && ' ' !in s && r < (if hex then 16 else 10)
    requires q > 0 && s != [] && (s[0] == '0' ==> q == 0)
    ensures NumberOf(s + [Digit(r)], hex) == Some(if hex then q * 16 + r else q * 10 + r)
    ensures ' ' !in s + [Digit(r)] && (s + [Digit(r)])[0] != '0'
  {
    DigitRoundTrip(r);
    NumberOfSnoc(s, Digit(r), hex);
  }

  lemma NumberOfSnoc(s: string, c: char, hex: bool)
    requires NumberOf(s, hex).Some? && DigitOf(c).Some?
    ensures var n := NumberOf(s, hex).value;
      NumberOf(s + [c], hex) == Some((if hex then n * 16 else n * 10) + DigitOf(c).value)
  {
    assert (s + [c])[..|s|] == s;
  }

  /** The last w hexadecimal digits of n: setw(w) and setfill('0') for a number that fits. */
  function Padded(n: nat, w: nat): (s: string)
    ensures |s| == w
  {
    if w == 0 then [] else Padded(n / 16, w - 1) + [Digit(n % 16)]
  }

  /** The two digits of a byte, as "%02x" prints them. */
  function ByteText(b: u8): (s: string)
    ensures |s| == 2
  {
    [Digit(b / 16), Digit(b % 16)]
  }

  function ByteOf(s: string): Option<u8>
    requires |s| == 2
  {
    match (DigitOf(s[0]), DigitOf(s[1]))
    case (Some(h), Some(l)) => Some(16 * h + l)
    case _ => None
  }

  lemma ByteRoundTrip(b: u8)
    ensures ByteOf(ByteText(b)) == Some(b)
    ensures forall k | 0 <= k < 2 :: ByteText(b)[k] != '_' && ByteText(b)[k] != ' ' && ByteText(b)[k] != 'X'
  {
    DigitRoundTrip(b / 16);
    DigitRoundTrip(b % 16);
  }

  /** Four bytes as the little-endian word they are. */
  function WordOf(b: Str): nat
    requires |b| == 4
  {
    b[0] as nat + 0x100 * b[1] as nat + 0x1_0000 * b[2] as nat + 0x100_0000 * b[3] as nat
  }

  lemma PaddedByte(hi: nat, lo: u8, w: nat)
    ensures Padded(0x100 * hi + lo, w + 2) == Padded(hi, w) + ByteText(lo)
  {
    var n := 0x100 * hi + lo;
    assert n / 16 == 16 * hi + lo / 16 && n % 16 == lo % 16;
    assert n / 16 / 16 == hi && n / 16 % 16 == lo / 16;
    assert Padded(n, w + 2) == Padded(n / 16, w + 1) + [Digit(n % 16)];
  }

  /** A word prints its bytes from the last to the first. */
  lemma WordText(b: Str)
    requires |b| == 4
    ensures Padded(WordOf(b), 8) == ByteText(b[3]) + ByteText(b[2]) + ByteText(b[1]) + ByteText(b[0])
  {
    WordSteps(b, 0);
  }

  lemma WordSteps(b: Str, w: nat)
    requires |b| == 4 && Padded(0, w) == ""
    ensures Padded(WordOf(b), w + 8) == ByteText(b[3]) + ByteText(b[2]) + ByteText(b[1]) + ByteText(b[0])
  {
    var n3: nat := b[3];
    var n2 := 0x100 * n3 + b[2] as nat;
    var s3 := PaddedStep(0, b[3], w, "");
    var s2 := PaddedStep(n3, b[2], w + 2, s3);
    var s0 := PaddedSteps(n2, b[1], b[0], w + 4, s2);
  }

  lemma PaddedSteps(hi: nat, mid: u8, lo: u8, w: nat, s: string) returns (r: string)
    requires s == Padded(hi, w)
    ensures r == s + ByteText(mid) + ByteText(lo) && r == Padded(0x1_0000 * hi + 0x100 * mid as nat + lo as nat, w + 4)
  {
    var n := 0x100 * hi + mid as nat;
    var s1 := PaddedStep(hi, mid, w, s);
    r := PaddedStep(n, lo, w + 2, s1);
    assert 0x100 * n + lo as nat == 0x1_0000 * hi + 0x100 * mid as nat + lo as nat;
  }

  lemma PaddedStep(hi: nat, lo: u8, w: nat, s: string) returns (r: string)
    requires s == Padded(hi, w)
    ensures r == s + ByteText(lo) && r == Padded(0x100 * hi + lo, w + 2)
  {
    PaddedByte(hi, lo, w);
    r := s + ByteText(lo);
  }

  // ---------------------------------------------------------------- the text of the data

  /** i modulo n, by repeated subtraction. */
  function Wrap(i: nat, n: nat): (r: nat)
    requires 0 < n
    ensures r < n
  {
    if i < n then i else Wrap(i - n, n)
  }

  lemma {:induction false} WrapIsModulo(i: nat, n: nat)
    requires 0 < n
    ensures Wrap(i, n) == i % n
  {
    if i >= n {
      WrapIsModulo(i - n, n);
      var q := (i - n) / n;
      assert i - n == q * n + (i - n) % n;
      assert (q + 1) * n == q * n + n;
      Quotient(i, n, q + 1, (i - n) % n);
    } else {
      Quotient(i, n, 0, i);
    }
  }

  lemma Quotient(i: nat, n: nat, q: nat, r: nat)
    requires 0 < n && i == q * n + r && r < n
    ensures i % n == r
  {
    var d := i / n - q;
    assert i == i / n * n + i % n;
    assert d * n == r - i % n;
    if d > 0 { AtLeast(d, n); }
    if d < 0 { AtLeast(-d, n); }
  }

  lemma AtLeast(d: nat, n: nat)
    requires 0 < d
    ensures d * n >= n
  {
  }

  /** getBe: the mask repeats over the data. */
  predicate Be(be: Option<Str>, i: nat)
    requires be.Some? ==> be.value != []
  {
    be.None? || be.value[Wrap(i, |be.value|)] == TLM_BYTE_ENABLED
  }

  /** getByte. */
  function CellText(b: u8, valid: bool, first: bool): string {
    (if first then "" else "_") + (if valid then ByteText(b) else "XX")
  }

  /** The cells of the bytes from i to end, in a group that began at byte st. */
  function CellsText(data: Str, be: Option<Str>, st: nat, i: nat, end: nat): string
    requires (be.Some? ==> be.value != []) && i <= end <= |data|
    decreases end - i
  {
    if i == end then ""
    else CellText(data[i], Be(be, i), i == st) + CellsText(data, be, st, i + 1, end)
  }

  predicate Aligned(address: nat, i: nat) { (address + i) % 4 == 0 }

  /** Where the group that holds byte i ends: at the next multiple of 4 in the address space, or with the data. */
  function GroupEnd(address: nat, len: nat, i: nat): (e: nat)
    requires i <= len
    ensures i <= e <= len && (i < len ==> i < e) && e <= i + 4
    ensures e < len ==> Aligned(address, e)
  {
    var e := i + 4 - (address + i) % 4;
    if e < len then e else len
  }

  predicate WholeWord(address: nat, data: Str, be: Option<Str>, i: nat)
    requires be.Some? ==> be.value != []
  {
    Aligned(address, i) && i + 4 <= |data| && forall k | i <= k < i + 4 :: Be(be, k)
  }

  /** One group. */
  function GroupText(address: nat, data: Str, be: Option<Str>, i: nat): string
    requires (be.Some? ==> be.value != []) && i <= |data|
  {
    " " +
    if WholeWord(address, data, be, i) then Padded(WordOf(data[i..i + 4]), 8)
    else CellsText(data, be, i, i, GroupEnd(address, |data|, i))
  }

  /** The groups from byte i on.  An address that is not a multiple of 4 opens a group even for no bytes. */
  function Groups(address: nat, data: Str, be: Option<Str>, i: nat): string
    requires (be.Some? ==> be.value != []) && i <= |data|
    decreases |data| - i
  {
    if i == |data| then (if i == 0 && address % 4 != 0 then " " else "")
    else GroupText(address, data, be, i) + Groups(address, data, be, GroupEnd(address, |data|, i))
  }

  // ---------------------------------------------------------------- reading it back

  /** What a reader learns of a byte. */
  datatype Cell = Enabled(b: u8) | Disabled

  function CellAt(data: Str, be: Option<Str>, i: nat): Cell
    requires (be.Some? ==> be.value != []) && i < |data|
  {
    if Be(be, i) then Enabled(data[i]) else Disabled
  }

  function Cells(data: Str, be: Option<Str>, i: nat, end: nat): (c: seq<Cell>)
    requires (be.Some? ==> be.value != []) && i <= end <= |data|
    ensures |c| == end - i && forall k | 0 <= k < |c| :: c[k] == CellAt(data, be, i + k)
    decreases end - i
  {
    if i == end then [] else [CellAt(data, be, i)] + Cells(data, be, i + 1, end)
  }

  /** A byte is enabled if there is no mask, or the mask byte at its index modulo the length of the mask is 0xff. */
  lemma CellIs(data: Str, be: Option<Str>, i: nat)
    requires (be.Some? ==> be.value != []) && i < |data|
    ensures CellAt(data, be, i) ==
      if be.None? || be.value[i % |be.value|] == 0xff then Enabled(data[i]) else Disabled
  {
    if be.Some? { WrapIsModulo(i, |be.value|); }
  }

  lemma {:induction false} CellsSplit(data: Str, be: Option<Str>, i: nat, j: nat, end: nat)
    requires (be.Some? ==> be.value != []) && i <= j <= end <= |data|
    ensures Cells(data, be, i, end) == Cells(data, be, i, j) + Cells(data, be, j, end)
  {
  }

  function ReadCell(s: string): Option<Cell>
    requires |s| == 2
  {
    if s == "XX" then Some(Disabled)
    else match ByteOf(s) case Some(b) => Some(Enabled(b)) case None => None
  }

  datatype Parsed = Parsed(cells: seq<Cell>, rest: string) | Bad

  function Prepend(cells: seq<Cell>, p: Parsed): Parsed {
    if p.Bad? then Bad else Parsed(cells + p.cells, p.rest)
  }

  function ReadWord(s: string): Option<seq<Cell>>
    requires |s| == 8
  {
    match (ByteOf(s[6..]), ByteOf(s[4..6]), ByteOf(s[2..4]), ByteOf(s[..2]))
    case (Some(a), Some(b), Some(c), Some(d)) => Some([Enabled(a), Enabled(b), Enabled(c), Enabled(d)])
    case _ => None
  }

  /** Reads bytes i up to len of a payload at this address.  A byte at a multiple of 4, and the first one, follows
      a blank; the others follow an underscore.  Behind a blank, eight digits in a row are a word. */
  function Read(address: nat, len: nat, i: nat, s: string): Parsed
    requires i <= len
    decreases len - i
  {
    if i == len then
      if len == 0 && address % 4 != 0 then (if s != [] && s[0] == ' ' then Parsed([], s[1..]) else Bad)
      else Parsed([], s)
    else
      var open := i == 0 || Aligned(address, i);
      if |s| < 3 || s[0] != (if open then ' ' else '_') then Bad
      else if Aligned(address, i) && i + 4 <= len && 9 <= |s| && s[3] != '_' then
        match ReadWord(s[1..9])
        case Some(w) => Prepend(w, Read(address, len, i + 4, s[9..]))
        case None => Bad
      else
        match ReadCell(s[1..3])
        case Some(c) => Prepend([c], Read(address, len, i + 1, s[3..]))
        case None => Bad
  }

  /** Printing one cell and reading it. */
  lemma CellRoundTrip(b: u8, valid: bool, first: bool, rest: string)
    ensures var s := (if first then " " else "") + CellText(b, valid, first) + rest;
      && |s| == 3 + |rest| && s[0] == (if first then ' ' else '_') && s[3..] == rest
      && ReadCell(s[1..3]) == Some(if valid then Enabled(b) else Disabled)
  {
    ByteRoundTrip(b);
    var s := (if first then " " else "") + CellText(b, valid, first) + rest;
    assert s[1..3] == if valid then ByteText(b) else "XX";
  }

  /** The shape of a group that opens at byte st. */
  lemma GroupShape(address: nat, len: nat, st: nat)
    requires st < len
    ensures forall i | st < i < GroupEnd(address, len, st) :: !Aligned(address, i)
    ensures Aligned(address, st) && st + 4 <= len ==> GroupEnd(address, len, st) == st + 4
    ensures Aligned(address, st) ==> Aligned(address, st + 4)
    ensures Aligned(address, st) ==> GroupEnd(address, len, st) == if st + 4 < len then st + 4 else len
  {
  }

  lemma ReadInner(address: nat, data: Str, be: Option<Str>, i: nat, more: string)
    requires (be.Some? ==> be.value != []) && 0 < i < |data| && !Aligned(address, i)
    ensures Read(address, |data|, i, CellText(data[i], Be(be, i), false) + more) ==
      Prepend([CellAt(data, be, i)], Read(address, |data|, i + 1, more))
  {
    CellRoundTrip(data[i], Be(be, i), false, more);
    assert "" + CellText(data[i], Be(be, i), false) == CellText(data[i], Be(be, i), false);
  }

  lemma ReadOpening(address: nat, data: Str, be: Option<Str>, i: nat, more: string)
    requires (be.Some? ==> be.value != []) && i < |data| && (i == 0 || Aligned(address, i))
    requires Aligned(address, i) && i + 4 <= |data| ==> more != [] && more[0] == '_'
    ensures Read(address, |data|, i, " " + CellText(data[i], Be(be, i), true) + more) ==
      Prepend([CellAt(data, be, i)], Read(address, |data|, i + 1, more))
  {
    CellRoundTrip(data[i], Be(be, i), true, more);
  }

  lemma PrependTwice(a: seq<Cell>, b: seq<Cell>, p: Parsed)
    ensures Prepend(a, Prepend(b, p)) == Prepend(a + b, p)
  {
    if p.Parsed? { assert a + (b + p.cells) == (a + b) + p.cells; }
  }

  /** The cells of a group from byte i to its end, all of them behind its first. */
  lemma {:induction false} InnerRoundTrip(
    address: nat, data: Str, be: Option<Str>, st: nat, i: nat, end: nat, rest: string, p: Parsed)
    requires (be.Some? ==> be.value != []) && st < i <= end <= |data|
    requires forall k | st < k < end :: !Aligned(address, k)
    requires p == Read(address, |data|, end, rest)
    ensures Read(address, |data|, i, CellsText(data, be, st, i, end) + rest) ==
      Prepend(Cells(data, be, i, end), p)
    decreases end - i
  {
    if i == end {
      assert CellsText(data, be, st, i, end) + rest == rest;
    } else {
      var tail := CellsText(data, be, st, i + 1, end);
      InnerRoundTrip(address, data, be, st, i + 1, end, rest, p);
      Assoc(CellText(data[i], Be(be, i), false), tail, rest);
      ReadInner(address, data, be, i, tail + rest);
      PrependTwice([CellAt(data, be, i)], Cells(data, be, i + 1, end), p);
    }
  }

  /** A group of four enabled bytes. */
  lemma WordRoundTrip(address: nat, data: Str, be: Option<Str>, i: nat, rest: string)
    requires (be.Some? ==> be.value != []) && i <= |data| && WholeWord(address, data, be, i)
    ensures Read(address, |data|, i, GroupText(address, data, be, i) + rest) ==
      Prepend(Cells(data, be, i, i + 4), Read(address, |data|, i + 4, rest))
  {
    var b, s := data[i..i + 4], GroupText(address, data, be, i) + rest;
    WordIsRead(b, rest);
    assert s == " " + Padded(WordOf(b), 8) + rest;
    assert Cells(data, be, i, i + 4) == [Enabled(b[0]), Enabled(b[1]), Enabled(b[2]), Enabled(b[3])];
  }

  lemma WordIsRead(b: Str, rest: string)
    requires |b| == 4
    ensures var s := " " + Padded(WordOf(b), 8) + rest;
      && |s| == 9 + |rest| && s[0] == ' ' && s[3] != '_' && s[9..] == rest
      && ReadWord(s[1..9]) == Some([Enabled(b[0]), Enabled(b[1]), Enabled(b[2]), Enabled(b[3])])
  {
    WordText(b);
    forall k | 0 <= k < 4 ensures ByteOf(ByteText(b[k])) == Some(b[k]) && ByteText(b[k])[0] != '_' { ByteRoundTrip(b[k]); }
    var w := Padded(WordOf(b), 8);
    assert w[..2] == ByteText(b[3]) && w[2..4] == ByteText(b[2]) && w[4..6] == ByteText(b[1]) && w[6..] == ByteText(b[0]);
    assert (" " + w + rest)[1..9] == w;
    assert w[2] == ByteText(b[2])[0];
  }

  /** The text of any other group: a first cell behind a blank, and the rest. */
  lemma CellGroupText(data: Str, be: Option<Str>, i: nat, end: nat, rest: string)
    requires (be.Some? ==> be.value != []) && i < end <= |data|
    ensures var more := CellsText(data, be, i, i + 1, end) + rest;
      && " " + CellsText(data, be, i, i, end) + rest == " " + CellText(data[i], Be(be, i), true) + more
      && (i + 1 < end ==> more != [] && more[0] == '_')
  {
    var cell, tail := CellText(data[i], Be(be, i), true), CellsText(data, be, i, i + 1, end);
    assert CellsText(data, be, i, i, end) == cell + tail;
    Assoc(" ", cell, tail);
    Assoc(" " + cell, tail, rest);
  }

  lemma CellGroupRoundTrip(address: nat, data: Str, be: Option<Str>, i: nat, rest: string, p: Parsed)
    requires (be.Some? ==> be.value != []) && i < |data| && (i == 0 || Aligned(address, i))
    requires !WholeWord(address, data, be, i) && p == Read(address, |data|, GroupEnd(address, |data|, i), rest)
    ensures Read(address, |data|, i, GroupText(address, data, be, i) + rest) ==
      Prepend(Cells(data, be, i, GroupEnd(address, |data|, i)), p)
  {
    var end := GroupEnd(address, |data|, i);
    var more := CellsText(data, be, i, i + 1, end) + rest;
    GroupShape(address, |data|, i);
    assert GroupText(address, data, be, i) + rest == " " + CellText(data[i], Be(be, i), true) + more by {
      CellGroupText(data, be, i, end, rest);
    }
    assert Read(address, |data|, i + 1, more) == Prepend(Cells(data, be, i + 1, end), p) by {
      InnerRoundTrip(address, data, be, i, i + 1, end, rest, p);
    }
    ReadOpening(address, data, be, i, more) by { CellGroupText(data, be, i, end, rest); }
    PrependTwice([CellAt(data, be, i)], Cells(data, be, i + 1, end), p);
  }

  lemma GroupRoundTrip(address: nat, data: Str, be: Option<Str>, i: nat, rest: string, p: Parsed)
    requires (be.Some? ==> be.value != []) && i < |data| && (i == 0 || Aligned(address, i))
    requires p == Read(address, |data|, GroupEnd(address, |data|, i), rest)
    ensures Read(address, |data|, i, GroupText(address, data, be, i) + rest) ==
      Prepend(Cells(data, be, i, GroupEnd(address, |data|, i)), p)
  {
    if WholeWord(address, data, be, i) {
      GroupShape(address, |data|, i);
      WordRoundTrip(address, data, be, i, rest);
    } else {
      CellGroupRoundTrip(address, data, be, i, rest, p);
    }
  }

  /** Reading the groups gives back every enabled byte, marks every disabled one, and stops where they end. */
  lemma {:induction false} GroupsRoundTrip(address: nat, data: Str, be: Option<Str>, i: nat, rest: string)
    requires (be.Some? ==> be.value != []) && i <= |data| && (i == 0 || i == |data| || Aligned(address, i))
    ensures Read(address, |data|, i, Groups(address, data, be, i) + rest) == Parsed(Cells(data, be, i, |data|), rest)
    ensures forall k | i <= k < |data| ::
      Cells(data, be, i, |data|)[k - i] ==
        (if be.None? || be.value[k % |be.value|] == 0xff then Enabled(data[k]) else Disabled)
    decreases |data| - i
  {
    forall k | i <= k < |data|
      ensures Cells(data, be, i, |data|)[k - i] ==
        (if be.None? || be.value[k % |be.value|] == 0xff then Enabled(data[k]) else Disabled)
    {
      assert Cells(data, be, i, |data|)[k - i] == CellAt(data, be, i + (k - i));
      CellIs(data, be, k);
    }
    if i == |data| {
      assert "" + rest == rest && (" " + rest)[1..] == rest;
    } else {
      var end := GroupEnd(address, |data|, i);
      var tail := Groups(address, data, be, end);
      GroupsRoundTrip(address, data, be, end, rest);
      GroupRoundTrip(address, data, be, i, tail + rest, Parsed(Cells(data, be, end, |data|), rest));
      Assoc(GroupText(address, data, be, i), tail, rest);
      CellsSplit(data, be, i, end, |data|);
    }
  }

  // ---------------------------------------------------------------- the whole line

  const ERROR := "ERROR GENERIC PAYLOAD: "

  /** The checks of gp2str, in their order. */
  function Complaint(gp: Payload): Option<string> {
    if gp.be.Some? && gp.be_len == 0 then Some(ERROR + "byte_enable_length == 0!")
    else if gp.be.None? && gp.be_len > 0 then Some(ERROR + "byte_enable_ptr == NULL!")
    else if gp.data.None? && gp.data_len > 0 then Some(ERROR + "data_ptr == NULL!")
    else None
  }

  /** Pointers point at as many bytes as the lengths say. */
  predicate Sized(gp: Payload) {
    && (gp.data.Some? ==> |gp.data.value| == gp.data_len)
    && (gp.be.Some? ==> |gp.be.value| == gp.be_len)
  }

  function Data(gp: Payload): Str { if gp.data.Some? then gp.data.value else [] }

  function Body(gp: Payload): string
    requires Sized(gp) && Complaint(gp).None?
  {
    " data=0x" + (Groups(gp.address, Data(gp), gp.be, 0) + (" resp=" + gp.resp))
  }

  function Line(gp: Payload): string
    requires Sized(gp)
  {
    match Complaint(gp)
    case Some(error) => error
    case None =>
      "GP: iswrite=" + ([if gp.write then '1' else '0'] +
      (" addr=0x" + (Number(gp.address, true) + (" len=" + (Number(gp.data_len, false) + Body(gp))))))
  }

  /** What the line tells of a payload. */
  datatype Told = Told(write: bool, address: nat, len: nat, cells: seq<Cell>, resp: string)

  function Strip(s: string, p: string): Option<string> {
    if p <= s then Some(s[|p|..]) else None
  }

  lemma StripBack(p: string, rest: string)
    ensures Strip(p + rest, p) == Some(rest)
  {
  }

  function Blank(s: string): (n: nat)
    ensures n <= |s|
  {
    if s == [] || s[0] == ' ' then 0 else 1 + Blank(s[1..])
  }

  lemma {:induction false} BlankBack(w: string, rest: string)
    requires ' ' !in w && rest != [] && rest[0] == ' '
    ensures Blank(w + rest) == |w|
  {
    if w == [] {
      assert w + rest == rest;
    } else {
      assert (w + rest)[1..] == w[1..] + rest;
      BlankBack(w[1..], rest);
    }
  }

  /** A label, and the number between it and the next blank. */
  function ReadField(s: string, name: string, hex: bool): Option<(nat, string)> {
    match Strip(s, name)
    case None => None
    case Some(r) =>
      match NumberOf(r[..Blank(r)], hex)
      case None => None
      case Some(n) => Some((n, r[Blank(r)..]))
  }

  lemma FieldRoundTrip(name: string, n: nat, hex: bool, rest: string)
    requires rest != [] && rest[0] == ' '
    ensures ReadField(name + (Number(n, hex) + rest), name, hex) == Some((n, rest))
  {
    var w := Number(n, hex);
    StripBack(name, w + rest);
    NumberRoundTrip(n, hex);
    BlankBack(w, rest);
    assert (w + rest)[..|w|] == w && (w + rest)[|w|..] == rest;
  }

  function ReadBody(write: bool, address: nat, len: nat, s: string): Option<Told> {
    match Strip(s, " data=0x")
    case None => None
    case Some(r) =>
      match Read(address, len, 0, r)
      case Bad => None
      case Parsed(cells, r) =>
        match Strip(r, " resp=")
        case None => None
        case Some(resp) => Some(Told(write, address, len, cells, resp))
  }

  function ReadLine(s: string): Option<Told> {
    match Strip(s, "GP: iswrite=")
    case None => None
    case Some(r) =>
      if r == [] || (r[0] != '0' && r[0] != '1') then None
      else
        match ReadField(r[1..], " addr=0x", true)
        case None => None
        case Some((address, u)) =>
          match ReadField(u, " len=", false)
          case None => None
          case Some((len, v)) => ReadBody(r[0] == '1', address, len, v)
  }

  lemma BodyRoundTrip(gp: Payload)
    requires Sized(gp) && Complaint(gp).None?
    ensures ReadBody(gp.write, gp.address, gp.data_len, Body(gp)) ==
      Some(Told(gp.write, gp.address, gp.data_len, Cells(Data(gp), gp.be, 0, gp.data_len), gp.resp))
    ensures Body(gp) != [] && Body(gp)[0] == ' '
  {
    var resp := " resp=" + gp.resp;
    GroupsRoundTrip(gp.address, Data(gp), gp.be, 0, resp);
    StripBack(" data=0x", Groups(gp.address, Data(gp), gp.be, 0) + resp);
    StripBack(" resp=", gp.resp);
  }

  lemma NotALine(s: string)
    requires s != [] && s[0] != 'G'
    ensures ReadLine(s) == None
  {
    assert "GP: iswrite="[0] == 'G';
    assert Strip(s, "GP: iswrite=") == None;
  }

  lemma HeadRoundTrip(gp: Payload)
    requires Sized(gp) && Complaint(gp).None?
    ensures ReadLine(Line(gp)) ==
      Some(Told(gp.write, gp.address, gp.data_len, Cells(Data(gp), gp.be, 0, gp.data_len), gp.resp))
  {
    var bit := [if gp.write then '1' else '0'];
    var v := Body(gp);
    var u := " len=" + (Number(gp.data_len, false) + v);
    var r := " addr=0x" + (Number(gp.address, true) + u);
    BodyRoundTrip(gp);
    FieldRoundTrip(" len=", gp.data_len, false, v);
    FieldRoundTrip(" addr=0x", gp.address, true, u);
    StripBack("GP: iswrite=", bit + r);
    assert (bit + r)[1..] == r && (bit + r)[0] == bit[0];
  }

  /** From the line of a payload a reader gets back direction, address, length, response, every enabled byte and
      where the disabled ones are.  A complaint is not read as a payload. */
  lemma LineRoundTrip(gp: Payload)
    requires Sized(gp)
    ensures ReadLine(Line(gp)) ==
      if Complaint(gp).Some? then None
      else Some(Told(gp.write, gp.address, gp.data_len, Cells(Data(gp), gp.be, 0, gp.data_len), gp.resp))
    ensures Complaint(gp).None? ==>
      var cells := ReadLine(Line(gp)).value.cells;
      && |cells| == gp.data_len == |Data(gp)| && (gp.data.Some? ==> Data(gp) == gp.data.value)
      && (gp.be.Some? ==> gp.be_len > 0)
      && forall i | 0 <= i < gp.data_len ::
           cells[i] == if gp.be.None? || gp.be.value[i % gp.be_len] == 0xff then Enabled(Data(gp)[i]) else Disabled
  {
    if Complaint(gp).None? {
      forall i | 0 <= i < gp.data_len { CellIs(Data(gp), gp.be, i); }
    }
    if Complaint(gp).Some? {
      assert ERROR[0] == 'E';
      NotALine(Line(gp));
    } else { HeadRoundTrip(gp); }
  }

  lemma Assoc(a: string, b: string, c: string)
    ensures a + b + c == a + (b + c)
  {
  }

  // ---------------------------------------------------------------- gp2str

  /** A loop over n cells. */
  method PutCells(oss: string, data: Str, be: Option<Str>, st: nat, n: nat) returns (s: string)
    requires (be.Some? ==> be.value != []) && st + n <= |data|
    ensures s == oss + CellsText(data, be, st, st, st + n)
  {
    s := oss;
    for i := 0 to n
      invariant s + CellsText(data, be, st, st + i, st + n) == oss + CellsText(data, be, st, st, st + n)
    {
      s := s + CellText(data[st + i], Be(be, st + i), i == 0);
    }
  }

  method WordEnable(data: Str, be: Option<Str>, idx: nat) returns (word_enable: bool)
    requires (be.Some? ==> be.value != []) && idx + 4 <= |data|
    ensures word_enable <==> forall k | idx <= k < idx + 4 :: Be(be, k)
  {
    word_enable := true;
    for i := 0 to 4
      invariant word_enable <==> forall k | idx <= k < idx + i :: Be(be, k)
    {
      word_enable := word_enable && Be(be, idx + i);
    }
  }

  /** Four bytes: one word, or cells if one of them is disabled. */
  method PutWord(oss: string, data: Str, be: Option<Str>, idx: nat) returns (s: string)
    requires (be.Some? ==> be.value != []) && idx + 4 <= |data|
    ensures s == oss + if forall k | idx <= k < idx + 4 :: Be(be, k) then Padded(WordOf(data[idx..idx + 4]), 8)
                       else CellsText(data, be, idx, idx, idx + 4)
  {
    var word_enable := WordEnable(data, be, idx);
    if word_enable { return oss + Padded(WordOf(data[idx..idx + 4]), 8); }
    s := PutCells(oss, data, be, idx, 4);
  }

  /** What is still to print from byte i on, once a group was printed or the address needs none of its own. */
  function Rest(address: nat, data: Str, be: Option<Str>, i: nat): string
    requires (be.Some? ==> be.value != []) && i <= |data|
  {
    if i < |data| then Groups(address, data, be, i) else ""
  }

  lemma GroupAdded(was: string, body: string, address: nat, data: Str, be: Option<Str>, i: nat, end: nat)
    requires (be.Some? ==> be.value != []) && i < |data| && end == GroupEnd(address, |data|, i)
    requires " " + body == GroupText(address, data, be, i)
    ensures was + Rest(address, data, be, i) == was + " " + body + Rest(address, data, be, end)
  {
    Assoc(was, " ", body);
    Assoc(was, GroupText(address, data, be, i), Rest(address, data, be, end));
    assert GroupText(address, data, be, i) + "" == GroupText(address, data, be, i);
  }

  /** One round of the loop over the groups. */
  method PutGroup(oss: string, address: nat, data: Str, be: Option<Str>, idx: nat) returns (s: string, end: nat)
    requires (be.Some? ==> be.value != []) && idx < |data| && Aligned(address, idx)
    ensures end == GroupEnd(address, |data|, idx)
    ensures s + Rest(address, data, be, end) == oss + Rest(address, data, be, idx)
  {
    GroupShape(address, |data|, idx);
    var remain_len := |data| - idx;
    if remain_len >= 4 {
      end := idx + 4;
      s := PutWord(oss + " ", data, be, idx);
    } else {
      end := |data|;
      s := PutCells(oss + " ", data, be, idx, remain_len);
    }
    GroupAdded(oss, s[|oss| + 1..], address, data, be, idx, end);
  }

  /** The loop over the groups behind the first one. */
  method PutWords(oss: string, address: nat, data: Str, be: Option<Str>, st: nat) returns (s: string)
    requires (be.Some? ==> be.value != []) && st <= |data| && (st < |data| ==> Aligned(address, st))
    ensures s == oss + Rest(address, data, be, st)
  {
    s := oss;
    var idx: nat := st;
    while idx < |data|
      invariant idx <= |data| && (idx < |data| ==> Aligned(address, idx))
      invariant s + Rest(address, data, be, idx) == oss + Rest(address, data, be, st)
    {
      s, idx := PutGroup(s, address, data, be, idx);
    }
  }

  method Gp2Str(gp: Payload) returns (s: string)
    requires Sized(gp)
    ensures s == Line(gp)
    ensures gp.be.Some? && gp.be_len == 0 ==> s == "ERROR GENERIC PAYLOAD: byte_enable_length == 0!"
    ensures gp.be.None? && gp.be_len > 0 ==> s == "ERROR GENERIC PAYLOAD: byte_enable_ptr == NULL!"
    ensures gp.data.None? && gp.data_len > 0 && (gp.be.Some? <==> gp.be_len > 0) ==>
      s == "ERROR GENERIC PAYLOAD: data_ptr == NULL!"
  {
    ComplaintIs(gp);
    if gp.be.Some? && gp.be_len == 0 { return ERROR + "byte_enable_length == 0!"; }
    if gp.be.None? && gp.be_len > 0 { return ERROR + "byte_enable_ptr == NULL!"; }
    if gp.data.None? && gp.data_len > 0 { return ERROR + "data_ptr == NULL!"; }
    s := PutLine(gp);
  }

  lemma ComplaintIs(gp: Payload)
    requires Sized(gp)
    ensures gp.be.Some? && gp.be_len == 0 ==> Line(gp) == "ERROR GENERIC PAYLOAD: byte_enable_length == 0!"
    ensures gp.be.None? && gp.be_len > 0 ==> Line(gp) == "ERROR GENERIC PAYLOAD: byte_enable_ptr == NULL!"
    ensures gp.data.None? && gp.data_len > 0 && (gp.be.Some? <==> gp.be_len > 0) ==>
      Line(gp) == "ERROR GENERIC PAYLOAD: data_ptr == NULL!"
  {
    NoMaskBytes();
    NoMask();
    NoData();
  }

  lemma NoMaskBytes()
    ensures ERROR + "byte_enable_length == 0!" == "ERROR GENERIC PAYLOAD: byte_enable_length == 0!"
  {
  }

  lemma NoMask()
    ensures ERROR + "byte_enable_ptr == NULL!" == "ERROR GENERIC PAYLOAD: byte_enable_ptr == NULL!"
  {
  }

  lemma NoData()
    ensures ERROR + "data_ptr == NULL!" == "ERROR GENERIC PAYLOAD: data_ptr == NULL!"
  {
  }

  method PutLine(gp: Payload) returns (s: string)
    requires Sized(gp) && Complaint(gp).None?
    ensures s == Line(gp)
  {
    var data := Data(gp);
    var oss := PutData(gp.address, data, gp.be);
    var head := "GP: iswrite=" + [if gp.write then '1' else '0'] + " addr=0x" + Number(gp.address, true);
    s := head + " len=" + Number(gp.data_len, false) + " data=" + oss + " resp=" + gp.resp;
    LineIs(gp, head, oss, s);
  }

  lemma LineIs(gp: Payload, head: string, oss: string, s: string)
    requires Sized(gp) && Complaint(gp).None? && oss == "0x" + Groups(gp.address, Data(gp), gp.be, 0)
    requires head == "GP: iswrite=" + [if gp.write then '1' else '0'] + " addr=0x" + Number(gp.address, true)
    requires s == head + " len=" + Number(gp.data_len, false) + " data=" + oss + " resp=" + gp.resp
    ensures s == Line(gp)
  {
    var a, bit, c, d := "GP: iswrite=", [if gp.write then '1' else '0'], " addr=0x", Number(gp.address, true);
    var e, f, g, r := " len=", Number(gp.data_len, false), " data=", " resp=";
    var body := Body(gp);
    BodyIs(gp, oss);
    Right(a, bit, c, d, e, f, body);
    Tail(head + e + f, g, oss, r, gp.resp);
  }

  lemma BodyIs(gp: Payload, oss: string)
    requires Sized(gp) && Complaint(gp).None? && oss == "0x" + Groups(gp.address, Data(gp), gp.be, 0)
    ensures " data=" + (oss + (" resp=" + gp.resp)) == Body(gp)
  {
    var g, r := Groups(gp.address, Data(gp), gp.be, 0), " resp=" + gp.resp;
    Assoc("0x", g, r);
    Assoc(" data=", "0x", g + r);
    assert " data=" + "0x" == " data=0x";
  }

  lemma Tail(a: string, b: string, c: string, d: string, e: string)
    ensures a + b + c + d + e == a + (b + (c + (d + e)))
  {
    Assoc(a + b + c, d, e);
    Assoc(a + b, c, d + e);
    Assoc(a, b, c + (d + e));
  }

  lemma Right(a: string, b: string, c: string, d: string, e: string, f: string, g: string)
    ensures a + b + c + d + e + f + g == a + (b + (c + (d + (e + (f + g)))))
  {
    Tail(a + b + c, d, e, f, g);
    Assoc(a + b, c, d + (e + (f + g)));
    Assoc(a, b, c + (d + (e + (f + g))));
  }

  /** The text of the data. */
  method PutData(address: nat, data: Str, be: Option<Str>) returns (oss: string)
    requires be.Some? ==> be.value != []
    ensures oss == "0x" + Groups(address, data, be, 0)
  {
    oss := "0x";
    var idx := 0;
    if address % 4 != 0 {
      oss := oss + " ";
      var bytes := if 4 - address % 4 > |data| then |data| else 4 - address % 4;
      oss := PutCells(oss, data, be, 0, bytes);
      idx := bytes;
      if 0 < |data| { GroupAdded("0x", oss[3..], address, data, be, 0, bytes); }
    }
    oss := PutWords(oss, address, data, be, idx);
  }

  const SEVEN: Str := [0x12, 0x34, 0x56, 0x78, 0x9a, 0xbc, 0xde]
  const MASK: Str := [0xff, 0, 0xff, 0xff, 0xff, 0xff, 0xff]

  lemma FirstGroup(data: Str, be: Option<Str>)
    requires |data| == 7 && data[0] == 0x12 && be.Some? && |be.value| == 7 && be.value[0] == 0xff && be.value[1] == 0
    ensures GroupText(0x2e, data, be, 0) == " 12_XX" && GroupEnd(0x2e, 7, 0) == 2
  {
    assert CellsText(data, be, 0, 2, 2) == "";
    assert CellsText(data, be, 0, 1, 2) == "_XX";
    assert CellsText(data, be, 0, 0, 2) == "12_XX";
  }

  lemma SecondGroup(data: Str, be: Option<Str>)
    requires |data| == 7 && data[2..6] == [0x56, 0x78, 0x9a, 0xbc]
    requires be.Some? && |be.value| == 7 && forall i | 2 <= i < 7 :: be.value[i] == 0xff
    ensures GroupText(0x2e, data, be, 2) == " bc9a7856" && GroupEnd(0x2e, 7, 2) == 6
  {
    WordText(data[2..6]);
    assert ByteText(0xbc) == "bc" && ByteText(0x9a) == "9a" && ByteText(0x78) == "78" && ByteText(0x56) == "56";
    assert WholeWord(0x2e, data, be, 2);
  }

  lemma ThirdGroup(data: Str, be: Option<Str>)
    requires |data| == 7 && data[6] == 0xde && be.Some? && |be.value| == 7 && be.value[6] == 0xff
    ensures GroupText(0x2e, data, be, 6) == " de" && GroupEnd(0x2e, 7, 6) == 7
  {
    assert CellsText(data, be, 6, 7, 7) == "";
    assert CellsText(data, be, 6, 6, 7) == "de";
  }

  lemma SevenGroups(data: Str, be: Option<Str>)
    requires data == SEVEN && be == Some(MASK)
    ensures Groups(0x2e, data, be, 0) == " 12_XX" + (" bc9a7856" + " de")
  {
    FirstGroup(data, be);
    assert data[2..6] == [0x56, 0x78, 0x9a, 0xbc];
    SecondGroup(data, be);
    ThirdGroup(data, be);
    assert Groups(0x2e, data, be, 7) == "" && " de" + "" == " de";
    assert Groups(0x2e, data, be, 6) == " de";
  }

  /** A payload of seven bytes from an address that is not a multiple of 4, the second of them disabled. */
  lemma ALine()
    ensures Line(Payload(true, 0x2e, Some(SEVEN), 7, Some(MASK), 7, "TLM_OK_RESPONSE")) ==
      "GP: iswrite=" + ("1" + (" addr=0x" + ("2e" + (" len=" + ("7" +
      (" data=0x" + ((" 12_XX" + (" bc9a7856" + " de")) + (" resp=" + "TLM_OK_RESPONSE"))))))))
  {
    SevenGroups(SEVEN, Some(MASK));
    NumbersOfLine();
  }

  lemma NumbersOfLine()
    ensures Number(0x2e, true) == "2e" && Number(7, false) == "7"
  {
    assert Number(0x2, true) == "2" && Number(0x2e, true) == "2" + "e";
  }

  /** A line with these texts for address and length, and this one between the labels of data and response. */
  predicate HasFields(line: string, gp: Payload, address: string, len: string, groups: string) {
    line == "GP: iswrite=" + ((if gp.write then "1" else "0") + (" addr=0x" + (address + (" len=" + (len +
      (" data=0x" + (groups + (" resp=" + gp.resp))))))))
  }

  lemma LineHasFields(gp: Payload)
    requires Sized(gp) && Complaint(gp).None?
    ensures HasFields(Line(gp), gp, Number(gp.address, true), Number(gp.data_len, false),
                      Groups(gp.address, Data(gp), gp.be, 0))
  {
  }

  /** Every line has the direction as a digit, the address in base 16 and the length in base 10, and ends in the
      response. */
  lemma FieldsOfLine(gp: Payload)
    requires Sized(gp) && Complaint(gp).None?
    ensures exists a, n, groups ::
      HasFields(Line(gp), gp, a, n, groups)
      && NumberOf(a, true) == Some(gp.address) && NumberOf(n, false) == Some(gp.data_len) && ' ' !in a && ' ' !in n
  {
    LineHasFields(gp);
    NumberRoundTrip(gp.address, true);
    NumberRoundTrip(gp.data_len, false);
  }
}
