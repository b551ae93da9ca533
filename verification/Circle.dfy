/** The circle of slots: where a hash begins, and the slots met on the way around. */
module Circle {

  /** The slot a hash is probed from. */
  function Home(hash: nat, m: nat): (i: nat)
    requires 0 < m
    ensures i < m
  {
    hash % m
  }

  lemma HomeIsRemainder(hash: nat, m: nat)
    requires 0 < m
    ensures hash == hash / m * m + Home(hash, m)
  {
  }

  function Next(m: nat, i: nat): nat { if i + 1 < m then i + 1 else 0 }

  function Prev(m: nat, i: nat): nat
    requires 0 < m
  {
    if i == 0 then m - 1 else i - 1
  }

  /** The j-th slot met from home on. */
  function Pos(m: nat, home: nat, j: nat): (i: nat)
    requires home < m && j < m
    ensures i < m && (j + 1 < m ==> Next(m, i) == if home + j + 1 < m then home + j + 1 else home + j + 1 - m)
  {
    if home + j < m then home + j else home + j - m
  }

  /** Each slot is met exactly once: PosOf is the inverse of Pos. */
  function PosOf(m: nat, home: nat, i: nat): (j: nat)
    requires home < m && i < m
    ensures j < m && Pos(m, home, j) == i
  {
    if home <= i then i - home else i + m - home
  }

  /** The slot in front of the home is met last, and every other one is followed by the next. */
  lemma NextPos(m: nat, home: nat, i: nat)
    requires home < m && i < m
    ensures Next(m, i) < m && Prev(m, i) < m && Next(m, Prev(m, i)) == i && Prev(m, Next(m, i)) == i
    ensures i == Prev(m, home) <==> PosOf(m, home, i) == m - 1
    ensures PosOf(m, home, i) + 1 < m ==> PosOf(m, home, Next(m, i)) == PosOf(m, home, i) + 1
  {
  }
}
