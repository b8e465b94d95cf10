/**
 The optimistic-concurrency core shared by the Redis and ZooKeeper stores: the successive contents of
 one versioned key while it stays alive. Whatever clients, retries and failures are interleaved, each
 server step leaves the cell alone, or rewrites it and raises its version by one, or (Redis only, at the
 largest 64-bit version) rewrites it without being able to raise the version.
 */
module VersionedCell {

  datatype Cell<D> = Cell(data: D, version: int)

  ghost predicate Evolves<D>(before: Cell<D>, after: Cell<D>, ceiling: int) {
    || after == before
    || after.version == before.version + 1
    || (after.version == before.version && before.version >= ceiling)
  }

  ghost predicate Lifetime<D>(cells: seq<Cell<D>>, ceiling: int) {
    forall i :: 0 < i < |cells| ==> Evolves(cells[i - 1], cells[i], ceiling)
  }

  /** Versions never go back. */
  lemma {:induction false} VersionsOnlyGrow<D>(cells: seq<Cell<D>>, ceiling: int, i: nat, j: nat)
    requires Lifetime(cells, ceiling) && i <= j < |cells|
    ensures cells[i].version <= cells[j].version
    decreases j - i
  {
    if i < j {
      VersionsOnlyGrow(cells, ceiling, i, j - 1);
      assert Evolves(cells[j - 1], cells[j], ceiling);
    }
  }

  /** Below the ceiling, two instants with equal versions hold equal data. */
  lemma {:induction false} VersionDeterminesData<D>(cells: seq<Cell<D>>, ceiling: int, i: nat, j: nat)
    requires Lifetime(cells, ceiling) && i <= j < |cells|
    requires cells[i].version == cells[j].version < ceiling
    ensures cells[i] == cells[j]
    decreases j - i
  {
    if i < j {
      VersionsOnlyGrow(cells, ceiling, i, j - 1);
      assert Evolves(cells[j - 1], cells[j], ceiling);
      VersionDeterminesData(cells, ceiling, i, j - 1);
    }
  }

  /** A version that was overtaken is never current again. */
  lemma OvertakenForGood<D>(cells: seq<Cell<D>>, ceiling: int, i: nat, j: nat)
    requires Lifetime(cells, ceiling) && i < j < |cells|
    requires cells[i + 1].version == cells[i].version + 1
    ensures cells[i].version < cells[j].version
  {
    VersionsOnlyGrow(cells, ceiling, i + 1, j);
  }
}
