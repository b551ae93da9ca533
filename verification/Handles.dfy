/** What a slot of the hash table holds. */
module Handles {
  import opened Chains

  const EMPTY: nat := LIST_END
  const DELETED: nat := LIST_END - 1

  /** The first block of a list, and the version the list was given when it was allocated. */
  datatype VerIdx = VerIdx(idx: nat, ver: nat)

  const NO_SLOT := VerIdx(EMPTY, 0)
  const TOMBSTONE := VerIdx(DELETED, 0)

  /** Neither empty nor marked deleted. */
  predicate Live(vi: VerIdx) { vi.idx < DELETED }

  /** What incReaders asks of a record: its version is v, its count is not negative, and it is not marked deleted. */
  predicate MayRead(version: nat, readers: int, deleted: bool, v: nat) {
    version == v && readers >= 0 && !deleted
  }
}
