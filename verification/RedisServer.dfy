/**
 The Redis key space as the state store uses it: the two Lua scripts, the transaction Multi sends, and
 the two reads. Every command is atomic; a run is any interleaving of the commands of any clients.
 */
module RedisServer {
  import opened Common
  import opened Decimal

  const DATA := "data"
  const VERSION := "version"
  const WILDCARD := "0"

  /** A key holds a plain string, written by a transaction, or a hash, written by the set script. */
  datatype Value = Str(text: string) | Hash(fields: map<string, string>)

  type Keys = map<string, Value>

  datatype Write = Put(key: string, text: string) | Remove(key: string)

  datatype Command =
    | EvalSet(key: string, version: string, data: string)
    | EvalDel(key: string, version: string)
    | Exec(writes: seq<Write>)
    | HGetAll(key: string)
    | Get(key: string)

  /** The store never looks at the number in an integer reply. */
  datatype Reply = Error | Nil | Done | Int | Text(text: string) | Fields(fields: map<string, string>)

  /** What pcall("HGET", key, "version") hands to a script. */
  datatype Probe = Missing | WrongType | Found(text: string)

  function HGetVersion(keys: Keys, key: string): Probe {
    if key !in keys then Missing
    else match keys[key]
      case Str(_) => WrongType
      case Hash(fields) => if VERSION in fields then Found(fields[VERSION]) else Missing
  }

  /** HINCRBY by one: an absent field counts as 0; other text must be a canonical int64 below the largest. */
  function HIncr(fields: map<string, string>): Option<int> {
    var current := if VERSION in fields then CanonicalInt(fields[VERSION]) else Some(0);
    if current.Some? && current.value < MAX_INT64 then Some(current.value + 1) else None
  }

  /** The guard both scripts share. */
  predicate Admits(probe: Probe, version: string) {
    || probe.Missing? || probe.WrongType?
    || probe.text == "" || probe.text == version || version == WILDCARD
  }

  /**
   setQuery. A string key is dropped first. The data is stored before the version is raised, and a
   script that fails in HINCRBY is not rolled back, so the new data stays.
   */
  function SetScript(keys: Keys, key: string, version: string, data: string): (Keys, Reply) {
    var probe := HGetVersion(keys, key);
    var kept := if probe.WrongType? then keys - {key} else keys;
    if Admits(probe, version) then
      var former := if key in kept && kept[key].Hash? then kept[key].fields else map[];
      var fields := former[DATA := data];
      var raised := HIncr(fields);
      if raised.Some? then
        (kept[key := Hash(fields[VERSION := Itoa(raised.value)])], Int)
      else
        (kept[key := Hash(fields)], Error)
    else
      (kept, Error)
  }

  /** delQuery. */
  function DelScript(keys: Keys, key: string, version: string): (Keys, Reply) {
    if Admits(HGetVersion(keys, key), version) then
      (keys - {key}, Int)
    else
      (keys, Error)
  }

  function ApplyWrite(keys: Keys, w: Write): Keys {
    match w
    case Put(key, text) => keys[key := Str(text)]
    case Remove(key) => keys - {key}
  }

  function ApplyWrites(keys: Keys, writes: seq<Write>): Keys {
    if writes == [] then keys
    else ApplyWrite(ApplyWrites(keys, writes[..|writes| - 1]), writes[|writes| - 1])
  }

  function Step(keys: Keys, cmd: Command): (Keys, Reply) {
    match cmd
    case EvalSet(key, version, data) => SetScript(keys, key, version, data)
    case EvalDel(key, version) => DelScript(keys, key, version)
    case Exec(writes) => (ApplyWrites(keys, writes), Done)
    case HGetAll(key) =>
      (keys, if key !in keys then Fields(map[]) else if keys[key].Hash? then Fields(keys[key].fields) else Error)
    case Get(key) =>
      (keys, if key !in keys then Nil else if keys[key].Str? then Text(keys[key].text) else Error)
  }

  // ----- Runs -----

  /** A command and the call, of whatever client, that sent it. */
  datatype Op = Op(caller: nat, cmd: Command)

  function After(keys: Keys, run: seq<Op>): Keys {
    if run == [] then keys else Step(After(keys, run[..|run| - 1]), run[|run| - 1].cmd).0
  }

  /** The key space just before op i. */
  function At(keys: Keys, run: seq<Op>, i: nat): Keys
    requires i <= |run|
  {
    After(keys, run[..i])
  }

  function ReplyAt(keys: Keys, run: seq<Op>, i: nat): Reply
    requires i < |run|
  {
    Step(At(keys, run, i), run[i].cmd).1
  }

  lemma AtNext(keys: Keys, run: seq<Op>, i: nat)
    requires i < |run|
    ensures At(keys, run, i + 1) == Step(At(keys, run, i), run[i].cmd).0
  {
    assert run[..i + 1][..i] == run[..i];
  }

  lemma AtPrefix(keys: Keys, run: seq<Op>, more: seq<Op>, i: nat)
    requires i <= |run|
    ensures At(keys, run + more, i) == At(keys, run, i)
    ensures i < |run| ==> ReplyAt(keys, run + more, i) == ReplyAt(keys, run, i)
  {
    assert (run + more)[..i] == run[..i];
  }

  // ----- Well-formed key spaces -----

  /** A hash written only by the set script: both fields present, the version a canonical positive int64. */
  ghost predicate Sound(v: Value) {
    v.Hash? ==>
      && DATA in v.fields && VERSION in v.fields
      && exists n :: 1 <= n <= MAX_INT64 && v.fields[VERSION] == Itoa(n)
  }

  ghost predicate SoundKeys(keys: Keys) {
    forall k :: k in keys ==> Sound(keys[k])
  }

  /** What a key means: nothing, an unversioned string, or data under a version number. */
  datatype Slot = Absent | Plain(text: string) | Live(data: string, version: int)

  ghost function VersionNumber(v: Value): (n: int)
    requires v.Hash? && Sound(v)
    ensures 1 <= n <= MAX_INT64 && v.fields[VERSION] == Itoa(n)
  {
    var n :| 1 <= n <= MAX_INT64 && v.fields[VERSION] == Itoa(n);
    n
  }

  ghost function SlotOf(keys: Keys, k: string): (slot: Slot)
    requires SoundKeys(keys)
    ensures slot.Absent? <==> k !in keys
    ensures slot.Plain? ==> keys[k] == Str(slot.text)
    ensures slot.Live? ==>
              && keys[k].Hash? && 1 <= slot.version <= MAX_INT64
              && DATA in keys[k].fields && keys[k].fields[DATA] == slot.data
              && VERSION in keys[k].fields && keys[k].fields[VERSION] == Itoa(slot.version)
  {
    if k !in keys then Absent
    else match keys[k]
      case Str(text) => Plain(text)
      case Hash(fields) => Live(fields[DATA], VersionNumber(keys[k]))
  }

  predicate Writes(writes: seq<Write>, k: string) {
    exists i :: 0 <= i < |writes| && writes[i].key == k
  }

  /** What a transaction leaves under k. */
  function SlotAfterWrites(slot: Slot, writes: seq<Write>, k: string): (r: Slot)
    ensures !Writes(writes, k) ==> r == slot
    ensures Writes(writes, k) ==> !r.Live?
  {
    if writes == [] then slot
    else
      var last := writes[|writes| - 1];
      if last.key != k then
        assert Writes(writes[..|writes| - 1], k) ==> Writes(writes, k);
        SlotAfterWrites(slot, writes[..|writes| - 1], k)
      else if last.Put? then Plain(last.text)
      else Absent
  }

  /**
   The scripts seen from one key: compare-and-set and compare-and-delete on a numbered cell. The second
   component says whether a script on k accepted.
   */
  function SlotStep(slot: Slot, cmd: Command, k: string): (Slot, bool) {
    match cmd
    case EvalSet(key, version, data) =>
      if key != k then (slot, false)
      else if !slot.Live? then (Live(data, 1), true)
      else if version != Itoa(slot.version) && version != WILDCARD then (slot, false)
      else if slot.version < MAX_INT64 then (Live(data, slot.version + 1), true)
      else (Live(data, slot.version), false)
    case EvalDel(key, version) =>
      if key != k then (slot, false)
      else if slot.Live? && version != Itoa(slot.version) && version != WILDCARD then (slot, false)
      else (Absent, true)
    case Exec(writes) => (SlotAfterWrites(slot, writes, k), false)
    case HGetAll(_) => (slot, false)
    case Get(_) => (slot, false)
  }

  lemma VersionTextFacts(n: int)
    requires 1 <= n <= MAX_INT64
    ensures Itoa(n) != "" && Itoa(n) != WILDCARD
  {
    assert Itoa(0) == WILDCARD;
    if Itoa(n) == Itoa(0) {
      ItoaInjective(n, 0);
    }
  }

  lemma LiveSlot(v: Value, data: string, n: int)
    requires v.Hash? && DATA in v.fields && VERSION in v.fields
    requires v.fields[DATA] == data && v.fields[VERSION] == Itoa(n) && 1 <= n <= MAX_INT64
    ensures Sound(v) && VersionNumber(v) == n && CanonicalInt(v.fields[VERSION]) == Some(n)
  {
    ItoaInjective(VersionNumber(v), n);
    ItoaRoundTrip(n);
  }

  /** The value the set script leaves under its key. */
  lemma SetOnKey(keys: Keys, key: string, version: string, data: string)
    requires SoundKeys(keys)
    ensures var (after, reply) := SetScript(keys, key, version, data);
      && key in after && Sound(after[key])
      && (forall k :: k != key ==> (k in after <==> k in keys) && (k in keys ==> after[k] == keys[k]))
      && var slot := SlotStep(SlotOf(keys, key), EvalSet(key, version, data), key);
        && after[key].Hash? && slot.0 == Live(after[key].fields[DATA], VersionNumber(after[key]))
        && (reply.Int? <==> slot.1)
  {
    hide Itoa, CanonicalInt;
    var (after, reply) := SetScript(keys, key, version, data);
    var slot := SlotOf(keys, key);
    if slot.Live? {
      VersionTextFacts(slot.version);
      ItoaRoundTrip(slot.version);
      if version == Itoa(slot.version) || version == WILDCARD {
        LiveSlot(after[key], data, if slot.version < MAX_INT64 then slot.version + 1 else slot.version);
      }
    } else {
      assert after[key].fields == map[DATA := data][VERSION := Itoa(1)];
      LiveSlot(after[key], data, 1);
    }
  }

  lemma SetOnSlots(keys: Keys, key: string, version: string, data: string, k: string)
    requires SoundKeys(keys)
    ensures var (after, reply) := SetScript(keys, key, version, data);
      && SoundKeys(after)
      && SlotOf(after, k) == SlotStep(SlotOf(keys, k), EvalSet(key, version, data), k).0
      && (key == k ==> (reply.Int? <==> SlotStep(SlotOf(keys, k), EvalSet(key, version, data), k).1))
  {
    SetOnKey(keys, key, version, data);
  }

  lemma DelOnSlots(keys: Keys, key: string, version: string, k: string)
    requires SoundKeys(keys)
    ensures var (after, reply) := DelScript(keys, key, version);
      && SoundKeys(after)
      && SlotOf(after, k) == SlotStep(SlotOf(keys, k), EvalDel(key, version), k).0
      && (key == k ==> (reply.Int? <==> SlotStep(SlotOf(keys, k), EvalDel(key, version), k).1))
  {
    var slot := SlotOf(keys, key);
    if slot.Live? {
      VersionTextFacts(slot.version);
    }
  }

  lemma {:induction false} WritesOnSlots(keys: Keys, writes: seq<Write>, k: string)
    requires SoundKeys(keys)
    ensures SoundKeys(ApplyWrites(keys, writes))
    ensures SlotOf(ApplyWrites(keys, writes), k) == SlotAfterWrites(SlotOf(keys, k), writes, k)
  {
    if writes != [] {
      WritesOnSlots(keys, writes[..|writes| - 1], k);
    }
  }

  /**
   The textual key space simulates, key by key, the numbered cell: no run of scripts and transactions
   ever leaves a hash without its data or version field, and the string comparison in the scripts is a
   comparison of numbers.
   */
  lemma StepOnSlots(keys: Keys, cmd: Command, k: string)
    requires SoundKeys(keys)
    ensures SoundKeys(Step(keys, cmd).0)
    ensures SlotOf(Step(keys, cmd).0, k) == SlotStep(SlotOf(keys, k), cmd, k).0
    ensures (cmd.EvalSet? || cmd.EvalDel?) && cmd.key == k ==>
              (Step(keys, cmd).1.Int? <==> SlotStep(SlotOf(keys, k), cmd, k).1)
  {
    match cmd
    case EvalSet(key, version, data) => SetOnSlots(keys, key, version, data, k);
    case EvalDel(key, version) => DelOnSlots(keys, key, version, k);
    case Exec(writes) => WritesOnSlots(keys, writes, k);
    case HGetAll(_) =>
    case Get(_) =>
  }

  lemma {:induction false} RunsKeepSound(keys: Keys, run: seq<Op>)
    requires SoundKeys(keys)
    ensures SoundKeys(After(keys, run))
  {
    if run != [] {
      RunsKeepSound(keys, run[..|run| - 1]);
      StepOnSlots(After(keys, run[..|run| - 1]), run[|run| - 1].cmd, "");
    }
  }

  /** What k means just before op i. */
  ghost function SlotAt(keys: Keys, run: seq<Op>, k: string, i: nat): Slot
    requires SoundKeys(keys) && i <= |run|
  {
    RunsKeepSound(keys, run[..i]);
    SlotOf(At(keys, run, i), k)
  }

  /** Whether op i is a script on k that accepted: its caller was sent an integer, not an error. */
  predicate Accepted(keys: Keys, run: seq<Op>, k: string, i: nat)
    requires i < |run|
  {
    (run[i].cmd.EvalSet? || run[i].cmd.EvalDel?) && run[i].cmd.key == k && ReplyAt(keys, run, i).Int?
  }

  /** The whole interface of the server to the theorems about runs. */
  lemma SlotNext(keys: Keys, run: seq<Op>, k: string, i: nat)
    requires SoundKeys(keys) && i < |run|
    ensures SlotAt(keys, run, k, i + 1) == SlotStep(SlotAt(keys, run, k, i), run[i].cmd, k).0
    ensures Accepted(keys, run, k, i) == SlotStep(SlotAt(keys, run, k, i), run[i].cmd, k).1
  {
    AtNext(keys, run, i);
    RunsKeepSound(keys, run[..i]);
    StepOnSlots(At(keys, run, i), run[i].cmd, k);
  }
}
