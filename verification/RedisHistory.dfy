/**
 What optimistic concurrency buys over whole runs: theorems about every interleaving of any number of
 clients, retries and failures on one Redis key space.
 */
module RedisHistory {
  import opened Common
  import opened Decimal
  import opened VersionedCell
  import opened RedisServer

  /** Key k is a hash at every instant of the run: one lifetime. */
  ghost predicate Alive(keys: Keys, run: seq<Op>, k: string)
    requires SoundKeys(keys)
  {
    forall i :: 0 <= i <= |run| ==> SlotAt(keys, run, k, i).Live?
  }

  /** Op i is a set of k that the script accepted. */
  predicate AppliedSet(keys: Keys, run: seq<Op>, k: string, i: nat)
    requires i < |run|
  {
    run[i].cmd.EvalSet? && Accepted(keys, run, k, i)
  }

  predicate AppliedDel(keys: Keys, run: seq<Op>, k: string, i: nat)
    requires i < |run|
  {
    run[i].cmd.EvalDel? && Accepted(keys, run, k, i)
  }

  /** Op i ends a lifetime of k, judged from its command and its reply. */
  predicate Ends(keys: Keys, run: seq<Op>, k: string, i: nat)
    requires i < |run|
  {
    AppliedDel(keys, run, k, i) || (run[i].cmd.Exec? && Writes(run[i].cmd.writes, k))
  }

  lemma LivesOn(keys: Keys, run: seq<Op>, k: string, i: nat)
    requires SoundKeys(keys) && i < |run| && SlotAt(keys, run, k, i).Live?
    ensures SlotAt(keys, run, k, i + 1).Live? <==> !Ends(keys, run, k, i)
  {
    hide Itoa, Step;
    SlotNext(keys, run, k, i);
  }

  /** From one instant to a later one a hash survives if nothing in between ends it. */
  lemma {:induction false} StaysLive(keys: Keys, run: seq<Op>, k: string, i: nat, j: nat)
    requires SoundKeys(keys) && i <= j <= |run| && SlotAt(keys, run, k, i).Live?
    requires forall p :: i <= p < j ==> !Ends(keys, run, k, p)
    ensures SlotAt(keys, run, k, j).Live?
    decreases j - i
  {
    hide Ends, SlotAt;
    if i < j {
      StaysLive(keys, run, k, i, j - 1);
      LivesOn(keys, run, k, j - 1);
    }
  }

  /** A hash stays one exactly as long as no delete of it is accepted and no transaction writes it. */
  lemma AliveUnlessEnded(keys: Keys, run: seq<Op>, k: string)
    requires SoundKeys(keys) && SlotOf(keys, k).Live?
    ensures Alive(keys, run, k) <==> forall i :: 0 <= i < |run| ==> !Ends(keys, run, k, i)
  {
    assert run[..0] == [];
    if forall i :: 0 <= i < |run| ==> !Ends(keys, run, k, i) {
      forall i | 0 <= i <= |run| ensures SlotAt(keys, run, k, i).Live? {
        StaysLive(keys, run, k, 0, i);
      }
    }
    if Alive(keys, run, k) {
      forall i | 0 <= i < |run| ensures !Ends(keys, run, k, i) {
        LivesOn(keys, run, k, i);
      }
    }
  }

  /** Op p set k, and nothing since then, up to instant j, ended what it wrote. */
  ghost predicate RevivedBy(keys: Keys, run: seq<Op>, k: string, p: nat, j: nat)
    requires j <= |run|
  {
    p < j && AppliedSet(keys, run, k, p) && forall q :: p < q < j ==> !Ends(keys, run, k, q)
  }

  /** Only an accepted set makes a hash. */
  lemma LiveComesFrom(keys: Keys, run: seq<Op>, k: string, i: nat)
    requires SoundKeys(keys) && i < |run| && SlotAt(keys, run, k, i + 1).Live?
    ensures AppliedSet(keys, run, k, i) || (SlotAt(keys, run, k, i).Live? && !Ends(keys, run, k, i))
  {
    hide Itoa, Step;
    SlotNext(keys, run, k, i);
  }

  lemma SetMakesLive(keys: Keys, run: seq<Op>, k: string, i: nat)
    requires SoundKeys(keys) && i < |run| && AppliedSet(keys, run, k, i)
    ensures SlotAt(keys, run, k, i + 1).Live?
  {
    hide Itoa, Step;
    SlotNext(keys, run, k, i);
  }

  lemma {:induction false} RevivedSince(keys: Keys, run: seq<Op>, k: string, i: nat, j: nat) returns (p: nat)
    requires SoundKeys(keys) && i <= j <= |run| && !SlotAt(keys, run, k, i).Live? && SlotAt(keys, run, k, j).Live?
    ensures i <= p && RevivedBy(keys, run, k, p, j)
    decreases j - i
  {
    hide AppliedSet, Ends, SlotAt;
    LiveComesFrom(keys, run, k, j - 1);
    if AppliedSet(keys, run, k, j - 1) {
      p := j - 1;
    } else {
      p := RevivedSince(keys, run, k, i, j - 1);
    }
  }

  /** Once k is no hash, it is one later exactly if an accepted set has been left standing. */
  lemma LiveIffRevived(keys: Keys, run: seq<Op>, k: string, i: nat, j: nat)
    requires SoundKeys(keys) && i <= j <= |run| && !SlotAt(keys, run, k, i).Live?
    ensures SlotAt(keys, run, k, j).Live? <==> exists p: nat :: i <= p && RevivedBy(keys, run, k, p, j)
  {
    hide AppliedSet, Ends, SlotAt;
    if exists p: nat :: i <= p && RevivedBy(keys, run, k, p, j) {
      var p: nat :| i <= p && RevivedBy(keys, run, k, p, j);
      SetMakesLive(keys, run, k, p);
      StaysLive(keys, run, k, p + 1, j);
    }
    if SlotAt(keys, run, k, j).Live? {
      var p := RevivedSince(keys, run, k, i, j);
    }
  }

  /** A stretch of unconditional sets raises the version by its length, up to the limit. */
  lemma {:induction false} SetsRaise(keys: Keys, run: seq<Op>, k: string, i: nat, j: nat)
    requires SoundKeys(keys) && i <= j <= |run| && SlotAt(keys, run, k, i).Live?
    requires forall p :: i <= p < j ==> run[p].cmd.EvalSet? && run[p].cmd.key == k && run[p].cmd.version == WILDCARD
    requires SlotAt(keys, run, k, i).version + (j - i) <= MAX_INT64
    ensures SlotAt(keys, run, k, j).Live?
    ensures SlotAt(keys, run, k, j).version == SlotAt(keys, run, k, i).version + (j - i)
    ensures i < j ==> SlotAt(keys, run, k, j).data == run[j - 1].cmd.data
    decreases j - i
  {
    hide Itoa, Step;
    if i < j {
      SetsRaise(keys, run, k, i, j - 1);
      SlotNext(keys, run, k, j - 1);
    }
  }

  ghost function CellAt(keys: Keys, run: seq<Op>, k: string, i: nat): Cell<string>
    requires SoundKeys(keys) && Alive(keys, run, k) && i <= |run|
  {
    Cell(SlotAt(keys, run, k, i).data, SlotAt(keys, run, k, i).version)
  }

  /** The contents of k at each instant. */
  ghost function Cells(keys: Keys, run: seq<Op>, k: string): (cells: seq<Cell<string>>)
    requires SoundKeys(keys) && Alive(keys, run, k)
    ensures |cells| == |run| + 1
    ensures forall i :: 0 <= i <= |run| ==> cells[i] == CellAt(keys, run, k, i)
  {
    seq(|run| + 1, i requires 0 <= i <= |run| => CellAt(keys, run, k, i))
  }

  lemma CellsEvolve(keys: Keys, run: seq<Op>, k: string)
    requires SoundKeys(keys) && Alive(keys, run, k)
    ensures Lifetime(Cells(keys, run, k), MAX_INT64)
  {
    hide Itoa, Step;
    var cells := Cells(keys, run, k);
    forall i | 0 < i < |cells| ensures Evolves(cells[i - 1], cells[i], MAX_INT64) {
      SlotNext(keys, run, k, i - 1);
    }
  }

  // ----- Whole-run theorems -----

  /**
   No lost update: while the key lives, at most one set carrying a given non-wildcard version is ever
   accepted, whoever sends it and however often it is retried.
   */
  lemma NoLostUpdate(keys: Keys, run: seq<Op>, k: string, i: nat, j: nat)
    requires SoundKeys(keys) && Alive(keys, run, k)
    requires i < |run| && j < |run| && AppliedSet(keys, run, k, i) && AppliedSet(keys, run, k, j)
    requires run[i].cmd.version == run[j].cmd.version != WILDCARD
    ensures i == j
  {
    hide Itoa, Step;
    CellsEvolve(keys, run, k);
    var cells := Cells(keys, run, k);
    SlotNext(keys, run, k, i);
    SlotNext(keys, run, k, j);
    ItoaInjective(cells[i].version, cells[j].version);
    if i < j {
      OvertakenForGood(cells, MAX_INT64, i, j);
    } else if j < i {
      OvertakenForGood(cells, MAX_INT64, j, i);
    }
  }

  /**
   An ETag determines the data: two instants of one lifetime with the same version below the 64-bit
   limit show the same data.
   */
  lemma ETagDeterminesData(keys: Keys, run: seq<Op>, k: string, i: nat, j: nat)
    requires SoundKeys(keys) && Alive(keys, run, k) && i <= j <= |run|
    requires SlotAt(keys, run, k, i).version == SlotAt(keys, run, k, j).version < MAX_INT64
    ensures SlotAt(keys, run, k, i).data == SlotAt(keys, run, k, j).data
  {
    CellsEvolve(keys, run, k);
    VersionDeterminesData(Cells(keys, run, k), MAX_INT64, i, j);
  }

  /** At the limit the claim fails, for every hash and every two data. */
  lemma ETagAmbiguousAtLimit(keys: Keys, run: seq<Op>, k: string, a: string, b: string)
    requires SoundKeys(keys) && SlotOf(keys, k).Live? && SlotOf(keys, k).version == MAX_INT64
    requires |run| == 2 && run[0].cmd == EvalSet(k, WILDCARD, a) && run[1].cmd == EvalSet(k, WILDCARD, b)
    ensures Alive(keys, run, k)
    ensures SlotAt(keys, run, k, 1).version == SlotAt(keys, run, k, 2).version
    ensures SlotAt(keys, run, k, 1).data == a && SlotAt(keys, run, k, 2).data == b
  {
    hide Itoa, Step;
    assert run[..0] == [];
    SlotNext(keys, run, k, 0);
    SlotNext(keys, run, k, 1);
  }

  /**
   Compare and swap: an accepted conditional set, or delete, replaces exactly the data that was read
   together with its version, at whatever earlier instant of the lifetime and by whatever client.
   */
  lemma ReplacesWhatWasRead(keys: Keys, run: seq<Op>, k: string, i: nat, j: nat)
    requires SoundKeys(keys) && i <= j < |run| && Alive(keys, run[..j], k)
    requires SlotAt(keys, run, k, i).Live?
    requires AppliedSet(keys, run, k, j) || AppliedDel(keys, run, k, j)
    requires run[j].cmd.version == Itoa(SlotAt(keys, run, k, i).version)
    requires AppliedDel(keys, run, k, j) ==> SlotAt(keys, run, k, i).version < MAX_INT64
    ensures SlotAt(keys, run, k, j).Live?
    ensures SlotAt(keys, run, k, j).data == SlotAt(keys, run, k, i).data
  {
    hide Itoa, Step;
    var past := run[..j];
    assert past[..i] == run[..i] && past[..j] == run[..j];
    assert SlotAt(keys, past, k, j).Live?;
    SlotNext(keys, run, k, j);
    var read, now := SlotAt(keys, run, k, i), SlotAt(keys, run, k, j);
    VersionTextFacts(read.version);
    ItoaInjective(read.version, now.version);
    ETagDeterminesData(keys, past, k, i, j);
  }

  /**
   The hypothesis is needed, at every version: after anything that ended the hash and v sets, a set with the
   stale version v is accepted over data its sender never saw.
   */
  lemma RebirthDefeatsETags(keys: Keys, run: seq<Op>, k: string, v: int, c: string)
    requires SoundKeys(keys) && 1 <= v < MAX_INT64 && |run| == v + 2
    requires SlotOf(keys, k).Live? && SlotOf(keys, k).version == v && Ends(keys, run, k, 0)
    requires forall p :: 1 <= p <= v ==>
      run[p].cmd.EvalSet? && run[p].cmd.key == k && run[p].cmd.version == WILDCARD
    requires run[v + 1].cmd == EvalSet(k, Itoa(v), c)
    ensures SlotAt(keys, run, k, 0) == SlotOf(keys, k)
    ensures SlotAt(keys, run, k, v + 1) == Live(run[v].cmd.data, v)
    ensures AppliedSet(keys, run, k, v + 1) && SlotAt(keys, run, k, v + 2) == Live(c, v + 1)
  {
    hide Itoa, Step;
    assert run[..0] == [];
    SlotNext(keys, run, k, 0);
    SlotNext(keys, run, k, 1);
    SetsRaise(keys, run, k, 2, v + 1);
    SlotNext(keys, run, k, v + 1);
  }

  // ----- Accounting from the observable log -----

  /**
   How one command and its outcome change the number of accepted sets of k since k last became a hash: an
   accepted delete or a transaction that writes k starts over.
   */
  function Tally(cmd: Command, accepted: bool, k: string, before: int): int {
    match cmd
    case EvalSet(_, _, _) => if accepted then before + 1 else before
    case EvalDel(_, _) => if accepted then 0 else before
    case Exec(writes) => if Writes(writes, k) then 0 else before
    case HGetAll(_) => before
    case Get(_) => before
  }

  /** That number after n commands, from the number at the start and from commands and replies alone. */
  function SetsSinceBirth(keys: Keys, run: seq<Op>, k: string, n: nat, first: int): int
    requires n <= |run|
  {
    if n == 0 then first
    else Tally(run[n - 1].cmd, Accepted(keys, run, k, n - 1), k, SetsSinceBirth(keys, run, k, n - 1, first))
  }

  function Number(slot: Slot): int {
    if slot.Live? then slot.version else 0
  }

  lemma TallyFollowsVersion(slot: Slot, cmd: Command, k: string)
    ensures var (slot', accepted) := SlotStep(slot, cmd, k);
      && Tally(cmd, accepted, k, Number(slot)) == Number(slot')
      && ((slot.Live? ==> slot.version >= 0) ==> Number(slot') <= Number(slot) + 1)
  {
  }

  /**
   At every instant the version of a hash is that number, hence at least 1 and never the wildcard; a key
   that is no hash has none.
   */
  lemma {:induction false} VersionAccounting(keys: Keys, run: seq<Op>, k: string, n: nat)
    requires SoundKeys(keys) && n <= |run|
    ensures SetsSinceBirth(keys, run, k, n, Number(SlotOf(keys, k))) == Number(SlotAt(keys, run, k, n))
    ensures Number(SlotAt(keys, run, k, n)) <= Number(SlotOf(keys, k)) + n
  {
    hide Itoa, Step;
    if n == 0 {
      assert run[..0] == [];
    } else {
      VersionAccounting(keys, run, k, n - 1);
      SlotNext(keys, run, k, n - 1);
      TallyFollowsVersion(SlotAt(keys, run, k, n - 1), run[n - 1].cmd, k);
    }
  }

  // ----- Refinement to a plain map -----

  /** The bytes stored under a key, whatever their representation. */
  function Content(slot: Slot): Option<string> {
    match slot
    case Absent => None
    case Plain(text) => Some(text)
    case Live(data, _) => Some(data)
  }

  function LastPut(writes: seq<Write>, k: string, before: Option<string>): Option<string> {
    if writes == [] then before
    else
      match writes[|writes| - 1]
      case Put(key, text) => if key == k then Some(text) else LastPut(writes[..|writes| - 1], k, before)
      case Remove(key) => if key == k then None else LastPut(writes[..|writes| - 1], k, before)
  }

  /** How one command and its outcome change what a plain map holds under k. */
  function MapStep(cmd: Command, accepted: bool, k: string, before: Option<string>): Option<string> {
    match cmd
    case EvalSet(_, _, data) => if accepted then Some(data) else before
    case EvalDel(_, _) => if accepted then None else before
    case Exec(writes) => LastPut(writes, k, before)
    case HGetAll(_) => before
    case Get(_) => before
  }

  /** The specification: a plain map to which the accepted writes are applied in order. */
  function LastWrite(keys: Keys, run: seq<Op>, k: string, n: nat, first: Option<string>): Option<string>
    requires n <= |run|
  {
    if n == 0 then first
    else MapStep(run[n - 1].cmd, Accepted(keys, run, k, n - 1), k, LastWrite(keys, run, k, n - 1, first))
  }

  /** The set script's one failure that is not inert: at the largest version it stores new data and then fails. */
  predicate Overflows(slot: Slot, cmd: Command, k: string) {
    && cmd.EvalSet? && cmd.key == k
    && slot.Live? && slot.version == MAX_INT64
    && (cmd.version == WILDCARD || cmd.version == Itoa(slot.version))
    && cmd.data != slot.data
  }

  lemma SlotRefinesMap(slot: Slot, cmd: Command, k: string)
    requires slot.Live? ==> slot.version <= MAX_INT64
    ensures var (slot', accepted) := SlotStep(slot, cmd, k);
      Content(slot') == MapStep(cmd, accepted, k, Content(slot)) <==> !Overflows(slot, cmd, k)
  {
    hide Itoa;
    if cmd.Exec? {
      WritesRefine(slot, cmd.writes, k);
    }
  }

  lemma {:induction false} WritesRefine(slot: Slot, writes: seq<Write>, k: string)
    ensures Content(SlotAfterWrites(slot, writes, k)) == LastPut(writes, k, Content(slot))
  {
    if writes != [] {
      WritesRefine(slot, writes[..|writes| - 1], k);
    }
  }

  /** A refused set leaves its key as it was, except exactly in that case. */
  lemma RefusedSetIsInert(keys: Keys, k: string, version: string, data: string)
    requires SoundKeys(keys) && Step(keys, EvalSet(k, version, data)).1.Error?
    ensures SlotOf(keys, k).Live? && SoundKeys(Step(keys, EvalSet(k, version, data)).0)
    ensures SlotOf(Step(keys, EvalSet(k, version, data)).0, k) == SlotOf(keys, k)
       <==> !Overflows(SlotOf(keys, k), EvalSet(k, version, data), k)
  {
    hide Itoa;
    StepOnSlots(keys, EvalSet(k, version, data), k);
  }

  /** After n commands k holds what a plain map would hold. */
  ghost predicate HoldsLastWrite(keys: Keys, run: seq<Op>, k: string, n: nat)
    requires SoundKeys(keys) && n <= |run|
  {
    Content(SlotAt(keys, run, k, n)) == LastWrite(keys, run, k, n, Content(SlotOf(keys, k)))
  }

  lemma RefinementStep(keys: Keys, run: seq<Op>, k: string, i: nat)
    requires SoundKeys(keys) && i < |run| && HoldsLastWrite(keys, run, k, i)
    ensures HoldsLastWrite(keys, run, k, i + 1) <==> !Overflows(SlotAt(keys, run, k, i), run[i].cmd, k)
  {
    hide Itoa, Step;
    SlotNext(keys, run, k, i);
    SlotRefinesMap(SlotAt(keys, run, k, i), run[i].cmd, k);
  }

  /**
   Refinement: through all changes of representation k holds at every instant exactly its last accepted
   write, in every run of any length from any well-formed store, if and only if no set in it overflows.
   */
  lemma {:induction false} StoreRefinesMap(keys: Keys, run: seq<Op>, k: string, n: nat)
    requires SoundKeys(keys) && n <= |run|
    ensures (forall m :: 0 <= m <= n ==> HoldsLastWrite(keys, run, k, m))
       <==> (forall i :: 0 <= i < n ==> !Overflows(SlotAt(keys, run, k, i), run[i].cmd, k))
  {
    hide Itoa, Step, Overflows, HoldsLastWrite;
    if n == 0 {
      HoldsAtStart(keys, run, k);
    } else {
      StoreRefinesMap(keys, run, k, n - 1);
      if HoldsLastWrite(keys, run, k, n - 1) {
        RefinementStep(keys, run, k, n - 1);
      }
    }
  }

  lemma HoldsAtStart(keys: Keys, run: seq<Op>, k: string)
    requires SoundKeys(keys)
    ensures HoldsLastWrite(keys, run, k, 0)
  {
    assert run[..0] == [];
  }

  /** No set overflows before the version can have reached the limit. */
  lemma ShortRunsRefineMap(keys: Keys, run: seq<Op>, k: string, n: nat)
    requires SoundKeys(keys) && n <= |run| && Number(SlotOf(keys, k)) + n <= MAX_INT64
    ensures HoldsLastWrite(keys, run, k, n)
  {
    hide Itoa, Step, HoldsLastWrite;
    forall i | 0 <= i < n ensures !Overflows(SlotAt(keys, run, k, i), run[i].cmd, k) {
      VersionAccounting(keys, run, k, i);
    }
    StoreRefinesMap(keys, run, k, n);
  }
}
