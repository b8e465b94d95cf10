/**
 state/redis/redis.go: the client side of the Redis state store. Between any two of its commands other
 clients may run, and requests or replies may be lost.
 */
module RedisStore {
  import opened Common
  import opened Decimal
  import opened Requests
  import opened Retry
  import opened VersionedCell
  import opened RedisServer
  import opened RedisHistory

  /** What the environment does around one attempt: others' commands, and the fate of EVAL and WAIT. */
  datatype Turn = Turn(before: seq<Op>, eval: Fate, between: seq<Op>, waitFails: bool)

  type Schedule = nat -> Turn

  datatype StoreError = BadOptions | BadETag | Refused | WaitTimedOut

  // ----- One attempt -----

  /** parseETag: no ETag means the wildcard 0. */
  function ParseETag(etag: string): Option<int> {
    if etag == "" then Some(0) else Atoi(etag)
  }

  /** Byte slices are stored as they are; an encoder failure is ignored and stores nothing. */
  function Encode(value: Payload): string {
    match value
    case Payload(Some(bytes), _) => bytes
    case Payload(None, Some(text)) => text
    case Payload(None, None) => ""
  }

  /** The version a set request carries to the script, if it gets that far. */
  function CarriedVersion(req: SetRequest): Option<int> {
    if !SupportedOptions(req.options) then None
    else
      var ver := ParseETag(req.etag);
      if ver.Some? && req.options.concurrency == LAST_WRITE then Some(0) else ver
  }

  function SetCommand(req: SetRequest): Command
    requires CarriedVersion(req).Some?
  {
    EvalSet(req.key, Itoa(CarriedVersion(req).value), Encode(req.value))
  }

  /** Sending one command: what the server executes, and the reply if it arrives. */
  function Send(base: Keys, run: seq<Op>, op: Op, fate: Fate): (seq<Op>, Reply) {
    match fate
    case Delivered => (run + [op], Step(After(base, run), op.cmd).1)
    case ReplyLost => (run + [op], Error)
    case RequestLost => (run, Error)
  }

  /** setValue. The world of an attempt is everything executed since the call began on key space base. */
  function SetValue(base: Keys, replicas: int, req: SetRequest, me: nat, run: seq<Op>, turn: Turn)
    : (seq<Op>, Option<StoreError>)
  {
    if !SupportedOptions(req.options) then (run, Some(BadOptions))
    else if ParseETag(req.etag).None? then (run, Some(BadETag))
    else
      var (sent, reply) := Send(base, run + turn.before, Op(me, SetCommand(req)), turn.eval);
      if reply.Error? then (sent, Some(Refused))
      else if req.options.consistency == STRONG && replicas > 0 then
        (sent + turn.between, if turn.waitFails then Some(WaitTimedOut) else None)
      else (sent, None)
  }

  function SetCall(base: Keys, replicas: int, req: SetRequest, me: nat, sched: Schedule): Attempt<seq<Op>, StoreError> {
    (run: seq<Op>, i: nat) => SetValue(base, replicas, req, me, run, sched(i))
  }

  /** deleteValue. It overwrites an empty ETag in the request and passes the text on unparsed. */
  function DeleteValue(base: Keys, me: nat, run: seq<Op>, req: DeleteRequest, turn: Turn)
    : ((seq<Op>, DeleteRequest), Option<StoreError>)
  {
    var req' := Normalized(req);
    var (sent, reply) := Send(base, run + turn.before, Op(me, EvalDel(req'.key, req'.etag)), turn.eval);
    ((sent, req'), if reply.Error? then Some(Refused) else None)
  }

  function DeleteCall(base: Keys, me: nat, sched: Schedule): Attempt<(seq<Op>, DeleteRequest), StoreError> {
    (w: (seq<Op>, DeleteRequest), i: nat) => DeleteValue(base, me, w.0, w.1, sched(i))
  }

  // ----- What retried attempts add up to -----

  /** The call identity me is used by no one else. */
  ghost predicate Foreign(ops: seq<Op>, me: nat) {
    forall i :: 0 <= i < |ops| ==> ops[i].caller != me
  }

  ghost predicate ForeignSchedule(sched: Schedule, me: nat) {
    forall t: nat :: Foreign(sched(t).before, me) && Foreign(sched(t).between, me)
  }

  /** All commands of call me in the run are cmd. */
  ghost predicate SendsOnly(run: seq<Op>, me: nat, cmd: Command) {
    forall i :: 0 <= i < |run| && run[i].caller == me ==> run[i].cmd == cmd
  }

  /** Op i of the run is a set by call me that took effect. */
  predicate TookEffect(base: Keys, run: seq<Op>, me: nat, k: string, i: nat) {
    i < |run| && run[i].caller == me && AppliedSet(base, run, k, i)
  }

  /** Call me sent nothing after op i. */
  predicate LastBy(run: seq<Op>, me: nat, i: nat) {
    forall j :: i < j < |run| ==> run[j].caller != me
  }

  predicate Deleted(base: Keys, run: seq<Op>, me: nat, k: string, i: nat) {
    i < |run| && run[i].caller == me && AppliedDel(base, run, k, i)
  }

  ghost predicate AppliedAtMostOnce(base: Keys, run: seq<Op>, me: nat, k: string) {
    forall i: nat, j: nat :: TookEffect(base, run, me, k, i) && TookEffect(base, run, me, k, j) ==> i == j
  }

  lemma SendsOnlyAppend(run: seq<Op>, more: seq<Op>, me: nat, cmd: Command)
    requires SendsOnly(run, me, cmd)
    requires Foreign(more, me) || more == [Op(me, cmd)]
    ensures SendsOnly(run + more, me, cmd)
  {
  }

  /** Every attempt sends at most the same one command. */
  lemma AttemptSends(base: Keys, replicas: int, req: SetRequest, me: nat, run: seq<Op>, turn: Turn)
    requires CarriedVersion(req).Some? && SendsOnly(run, me, SetCommand(req))
    requires Foreign(turn.before, me) && Foreign(turn.between, me)
    ensures SendsOnly(SetValue(base, replicas, req, me, run, turn).0, me, SetCommand(req))
  {
    hide Itoa, Step, After;
    var cmd := SetCommand(req);
    SendsOnlyAppend(run, turn.before, me, cmd);
    SendsOnlyAppend(run + turn.before, [Op(me, cmd)], me, cmd);
    var sent := Send(base, run + turn.before, Op(me, cmd), turn.eval).0;
    SendsOnlyAppend(sent, turn.between, me, cmd);
  }

  lemma {:induction false} AttemptsSend(base: Keys, replicas: int, req: SetRequest, me: nat, sched: Schedule, n: nat)
    requires CarriedVersion(req).Some? && ForeignSchedule(sched, me)
    ensures SendsOnly(WorldAfter(SetCall(base, replicas, req, me, sched), [], n), me, SetCommand(req))
  {
    hide Itoa, Step, After, SetValue;
    if n > 0 {
      AttemptsSend(base, replicas, req, me, sched, n - 1);
      var attempt := SetCall(base, replicas, req, me, sched);
      var run := WorldAfter(attempt, [], n - 1);
      AttemptSends(base, replicas, req, me, run, sched(n - 1));
      assert attempt(run, n - 1) == SetValue(base, replicas, req, me, run, sched(n - 1));
    }
  }

  /** An attempt that reports success was accepted by the script. */
  lemma SuccessTookEffect(base: Keys, replicas: int, req: SetRequest, me: nat, run: seq<Op>, turn: Turn)
    returns (i: nat)
    requires SetValue(base, replicas, req, me, run, turn).1.None?
    ensures TookEffect(base, SetValue(base, replicas, req, me, run, turn).0, me, req.key, i)
    ensures SetValue(base, replicas, req, me, run, turn).0[i].cmd == SetCommand(req)
    ensures Foreign(turn.between, me) ==> LastBy(SetValue(base, replicas, req, me, run, turn).0, me, i)
  {
    hide Itoa, Step, After;
    var seen := run + turn.before;
    var op := Op(me, SetCommand(req));
    var after := SetValue(base, replicas, req, me, run, turn).0;
    i := |seen|;
    assert after[..i] == seen && after[i] == op;
    ScriptsReplyIntOrError(After(base, seen), op.cmd);
  }

  lemma ScriptsReplyIntOrError(keys: Keys, cmd: Command)
    requires cmd.EvalSet? || cmd.EvalDel?
    ensures Step(keys, cmd).1.Int? || Step(keys, cmd).1.Error?
  {
  }

  /** An invalid request never reaches the server, although the retry loop repeats it. */
  lemma {:induction false} InvalidSetSendsNothing(base: Keys, replicas: int, req: SetRequest, me: nat,
                                                  sched: Schedule, n: nat)
    requires CarriedVersion(req).None?
    ensures WorldAfter(SetCall(base, replicas, req, me, sched), [], n) == []
    ensures ErrorOf(SetCall(base, replicas, req, me, sched), [], n) ==
      Some(if SupportedOptions(req.options) then BadETag else BadOptions)
  {
    var attempt := SetCall(base, replicas, req, me, sched);
    assert attempt([], n) == SetValue(base, replicas, req, me, [], sched(n));
    if n > 0 {
      InvalidSetSendsNothing(base, replicas, req, me, sched, n - 1);
      assert attempt([], n - 1) == SetValue(base, replicas, req, me, [], sched(n - 1));
    }
  }

  /**
   At most once: in a lifetime of the key, all attempts of a conditional set together take effect at most
   once, whatever was lost and whoever else wrote.
   */
  lemma AtMostOnce(base: Keys, run: seq<Op>, me: nat, req: SetRequest, i: nat, j: nat)
    requires CarriedVersion(req).Some? && CarriedVersion(req).value != 0
    requires SoundKeys(base) && Alive(base, run, req.key)
    requires SendsOnly(run, me, SetCommand(req))
    requires TookEffect(base, run, me, req.key, i) && TookEffect(base, run, me, req.key, j)
    ensures i == j
  {
    var ver := CarriedVersion(req).value;
    assert Itoa(0) == WILDCARD;
    if Itoa(ver) == WILDCARD {
      ItoaInjective(ver, 0);
    }
    NoLostUpdate(base, run, req.key, i, j);
  }

  /**
   Exactly once: n attempts of a conditional set, interleaved with anything that keeps its key a hash,
   take effect at most once; if the last of them reports success, exactly once, with its own command.
   */
  lemma ExactlyOnce(base: Keys, replicas: int, req: SetRequest, me: nat, sched: Schedule, n: nat)
    requires CarriedVersion(req).Some? && CarriedVersion(req).value != 0 && ForeignSchedule(sched, me)
    requires SoundKeys(base)
    requires Alive(base, WorldAfter(SetCall(base, replicas, req, me, sched), [], n), req.key)
    ensures AppliedAtMostOnce(base, WorldAfter(SetCall(base, replicas, req, me, sched), [], n), me, req.key)
    ensures n > 0 && ErrorOf(SetCall(base, replicas, req, me, sched), [], n - 1).None? ==>
      var run := WorldAfter(SetCall(base, replicas, req, me, sched), [], n);
      exists i: nat :: TookEffect(base, run, me, req.key, i) && run[i].cmd == SetCommand(req) && LastBy(run, me, i)
  {
    hide Itoa, Step, After, SetValue;
    var attempt := SetCall(base, replicas, req, me, sched);
    var run := WorldAfter(attempt, [], n);
    AttemptsSend(base, replicas, req, me, sched, n);
    forall i: nat, j: nat | TookEffect(base, run, me, req.key, i) && TookEffect(base, run, me, req.key, j)
      ensures i == j
    {
      AtMostOnce(base, run, me, req, i, j);
    }
    if n > 0 && ErrorOf(attempt, [], n - 1).None? {
      var last := WorldAfter(attempt, [], n - 1);
      assert attempt(last, n - 1) == SetValue(base, replicas, req, me, last, sched(n - 1));
      var i := SuccessTookEffect(base, replicas, req, me, last, sched(n - 1));
      assert TookEffect(base, run, me, req.key, i);
    }
  }

  /**
   An attempt whose effect was hidden by an error cannot be repaired by retrying: once a conditional set
   has taken effect, every further attempt of the same call fails.
   */
  lemma EffectThenErrors(base: Keys, replicas: int, req: SetRequest, me: nat, run: seq<Op>, turn: Turn, j: nat)
    requires CarriedVersion(req).Some? && CarriedVersion(req).value != 0
    requires SendsOnly(run, me, SetCommand(req)) && Foreign(turn.before, me) && Foreign(turn.between, me)
    requires SoundKeys(base) && Alive(base, SetValue(base, replicas, req, me, run, turn).0, req.key)
    requires TookEffect(base, run, me, req.key, j)
    ensures SetValue(base, replicas, req, me, run, turn).1.Some?
  {
    hide Itoa, Step;
    var after := SetValue(base, replicas, req, me, run, turn).0;
    if SetValue(base, replicas, req, me, run, turn).1.None? {
      var i := SuccessTookEffect(base, replicas, req, me, run, turn);
      AttemptSends(base, replicas, req, me, run, turn);
      assert after == run + after[|run|..];
      AtPrefix(base, run, after[|run|..], j);
      AtMostOnce(base, after, me, req, i, j);
      AttemptSendsLate(base, replicas, req, me, run, turn, i);
    }
  }

  /** What an attempt sends comes after everything it found. */
  lemma AttemptSendsLate(base: Keys, replicas: int, req: SetRequest, me: nat, run: seq<Op>, turn: Turn, i: nat)
    requires CarriedVersion(req).Some? && Foreign(turn.before, me) && Foreign(turn.between, me)
    requires SetValue(base, replicas, req, me, run, turn).1.None?
    requires LastBy(SetValue(base, replicas, req, me, run, turn).0, me, i)
    ensures i >= |run|
  {
    hide Itoa, Step;
    var after := SetValue(base, replicas, req, me, run, turn).0;
    assert after[|run + turn.before|] == Op(me, SetCommand(req));
  }

  /** An accepted write is reported as an error exactly when WAIT was sent and failed. */
  lemma WaitFailureIsReported(base: Keys, replicas: int, req: SetRequest, me: nat, run: seq<Op>, turn: Turn)
    requires CarriedVersion(req).Some?
    requires turn.eval.Delivered? && Step(After(base, run + turn.before), SetCommand(req)).1.Int?
    ensures SetValue(base, replicas, req, me, run, turn).1 ==
      if req.options.consistency == STRONG && replicas > 0 && turn.waitFails then Some(WaitTimedOut) else None
    ensures TookEffect(base, SetValue(base, replicas, req, me, run, turn).0, me, req.key, |run| + |turn.before|)
  {
    hide Itoa, Step;
    var seen := run + turn.before;
    var after := SetValue(base, replicas, req, me, run, turn).0;
    assert after[..|seen|] == seen && after[|seen|] == Op(me, SetCommand(req));
  }

  predicate Waits(req: SetRequest, replicas: int) {
    req.options.consistency == STRONG && replicas > 0
  }

  /** What the set script wants of a key. */
  predicate AdmitsSet(slot: Slot, ver: int) {
    slot.Live? ==> slot.version < MAX_INT64 && (ver == 0 || ver == slot.version)
  }

  /** Exactly when one attempt succeeds, and what it then leaves. */
  lemma AttemptSucceeds(base: Keys, replicas: int, req: SetRequest, me: nat, run: seq<Op>, turn: Turn)
    requires SoundKeys(base) && CarriedVersion(req).Some?
    ensures var seen := run + turn.before;
      var slot := SlotAt(base, seen, req.key, |seen|);
      var (after, err) := SetValue(base, replicas, req, me, run, turn);
      && (err.None? <==>
          && turn.eval.Delivered? && AdmitsSet(slot, CarriedVersion(req).value)
          && !(Waits(req, replicas) && turn.waitFails))
      && (!turn.eval.Delivered? || !AdmitsSet(slot, CarriedVersion(req).value) ==> err == Some(Refused))
      && (err.None? ==>
          && after == seen + [Op(me, SetCommand(req))] + (if Waits(req, replicas) then turn.between else [])
          && SlotAt(base, after, req.key, |seen| + 1) == Live(Encode(req.value), Number(slot) + 1))
  {
    hide Itoa, Step;
    var seen, op := run + turn.before, Op(me, SetCommand(req));
    var sent := seen + [op];
    var after := SetValue(base, replicas, req, me, run, turn).0;
    assert sent[..|seen|] == seen == seen[..|seen|];
    SlotNext(base, sent, req.key, |seen|);
    var slot := SlotAt(base, seen, req.key, |seen|);
    CarriedText(CarriedVersion(req).value, Number(slot));
    ScriptsReplyIntOrError(After(base, seen), op.cmd);
    if SetValue(base, replicas, req, me, run, turn).1.None? {
      assert sent + [] == sent;
      assert after[..|seen| + 1] == sent[..|seen| + 1];
    }
  }

  /**
   A run of the retry loop under the request's own policy, among commands of others none of which ends the
   hash, in which two attempts of the same set both take effect.
   */
  ghost predicate RepeatsUnder(base: Keys, replicas: int, req: SetRequest, me: nat, sched: Schedule,
                               n: nat, err: Option<RetryError<StoreError>>)
  {
    var attempt := SetCall(base, replicas, req, me, sched);
    var run := WorldAfter(attempt, [], n);
    && ForeignSchedule(sched, me)
    && Retried(req.options.retryPolicy, attempt, [], run, err, n)
    && (forall i: nat :: i < |run| ==> !Ends(base, run, req.key, i))
    && !AppliedAtMostOnce(base, run, me, req.key)
  }

  /** What a caller can tell beforehand: the version carried and what the key is when the call begins. */
  predicate Repeatable(slot: Slot, ver: int) {
    if slot.Live? then ver == 0 && slot.version < MAX_INT64 - 1 else 0 <= ver < MAX_INT64
  }

  /**
   Why the hypotheses of exactly once are there: some losses and some commands of others make a set take
   effect twice exactly when its policy allows a second attempt, and it is unconditional, or the key was no
   hash and the ETag a version it may reach.
   */
  lemma RetriedSetRepeats(base: Keys, replicas: int, req: SetRequest, me: nat)
    requires SoundKeys(base) && CarriedVersion(req).Some?
    ensures (exists sched: Schedule, n: nat, err :: RepeatsUnder(base, replicas, req, me, sched, n, err))
       <==> && RetriesOnFailure(req.options.retryPolicy)
            && Repeatable(SlotOf(base, req.key), CarriedVersion(req).value)
  {
    hide Itoa, Step, After, SetValue;
    var ver := CarriedVersion(req).value;
    if RetriesOnFailure(req.options.retryPolicy) && Repeatable(SlotOf(base, req.key), ver) {
      RepetitionHappens(base, replicas, req, me);
    }
    if exists sched: Schedule, n: nat, err :: RepeatsUnder(base, replicas, req, me, sched, n, err) {
      var sched: Schedule, n: nat, err :| RepeatsUnder(base, replicas, req, me, sched, n, err);
      var run := WorldAfter(SetCall(base, replicas, req, me, sched), [], n);
      AttemptsSend(base, replicas, req, me, sched, n);
      var i: nat, j: nat :|
        TookEffect(base, run, me, req.key, i) && TookEffect(base, run, me, req.key, j) && i < j;
      RepetitionNeeds(base, run, me, req, i, j);
      if n < 2 {
        OneAttemptSendsOnce(base, replicas, req, me, sched, n, i);
        OneAttemptSendsOnce(base, replicas, req, me, sched, n, j);
      }
    }
  }

  /** A single attempt sends its command at most once, right after what others did before it. */
  lemma OneAttemptSendsOnce(base: Keys, replicas: int, req: SetRequest, me: nat, sched: Schedule, n: nat, i: nat)
    requires CarriedVersion(req).Some? && ForeignSchedule(sched, me) && n < 2
    requires i < |WorldAfter(SetCall(base, replicas, req, me, sched), [], n)|
    requires WorldAfter(SetCall(base, replicas, req, me, sched), [], n)[i].caller == me
    ensures i == |sched(0).before|
  {
    hide Itoa, Step, After;
    if n == 1 {
      var attempt := SetCall(base, replicas, req, me, sched);
      assert WorldAfter(attempt, [], 0) == [];
      assert attempt([], 0) == SetValue(base, replicas, req, me, [], sched(0));
    }
  }

  /** Two effects without an end between them: the second found what the first left, or something later. */
  lemma RepetitionNeeds(base: Keys, run: seq<Op>, me: nat, req: SetRequest, i: nat, j: nat)
    requires SoundKeys(base) && CarriedVersion(req).Some?
    requires SendsOnly(run, me, SetCommand(req))
    requires forall p: nat :: p < |run| ==> !Ends(base, run, req.key, p)
    requires TookEffect(base, run, me, req.key, i) && TookEffect(base, run, me, req.key, j) && i < j
    ensures Repeatable(SlotOf(base, req.key), CarriedVersion(req).value)
  {
    hide Itoa, Step;
    var ver := CarriedVersion(req).value;
    assert run[..0] == [];
    if SlotOf(base, req.key).Live? {
      AliveUnlessEnded(base, run, req.key);
      if ver != 0 {
        AtMostOnce(base, run, me, req, i, j);
      }
      CellsEvolve(base, run, req.key);
      var cells := Cells(base, run, req.key);
      SlotNext(base, run, req.key, i);
      SlotNext(base, run, req.key, j);
      VersionsOnlyGrow(cells, MAX_INT64, 0, i);
      OvertakenForGood(cells, MAX_INT64, i, j);
    } else {
      SetMakesLive(base, run, req.key, i);
      StaysLive(base, run, req.key, i + 1, j);
      SlotNext(base, run, req.key, j);
      CarriedText(ver, SlotAt(base, run, req.key, j).version);
    }
  }

  /** The script's two textual comparisons are comparisons of numbers. */
  lemma CarriedText(ver: int, n: int)
    requires MIN_INT64 <= ver <= MAX_INT64 && MIN_INT64 <= n <= MAX_INT64
    ensures Itoa(ver) == WILDCARD <==> ver == 0
    ensures Itoa(ver) == Itoa(n) <==> ver == n
  {
    assert Itoa(0) == WILDCARD;
    if Itoa(ver) == Itoa(0) {
      ItoaInjective(ver, 0);
    }
    if Itoa(ver) == Itoa(n) {
      ItoaInjective(ver, n);
    }
  }

  /** The first attempt's reply is lost, and others write before the second. */
  function LostThen(others: seq<Op>): Schedule {
    (t: nat) => if t == 0 then Turn([], ReplyLost, [], false) else Turn(others, Delivered, [], false)
  }

  lemma LostThenRuns(base: Keys, replicas: int, req: SetRequest, me: nat, others: seq<Op>)
    requires CarriedVersion(req).Some?
    ensures var op := Op(me, SetCommand(req));
      WorldAfter(SetCall(base, replicas, req, me, LostThen(others)), [], 2) == [op] + others + [op]
    ensures ErrorOf(SetCall(base, replicas, req, me, LostThen(others)), [], 0).Some?
    ensures var op := Op(me, SetCommand(req));
      ErrorOf(SetCall(base, replicas, req, me, LostThen(others)), [], 1).None? <==>
        !Step(After(base, [op] + others), op.cmd).1.Error?
  {
    hide Itoa, Step, After;
    var op := Op(me, SetCommand(req));
    var sched := LostThen(others);
    var attempt := SetCall(base, replicas, req, me, sched);
    var first := WorldAfter(attempt, [], 1);
    assert attempt([], 0) == SetValue(base, replicas, req, me, [], sched(0));
    assert first == [op];
    assert attempt(first, 1) == SetValue(base, replicas, req, me, first, sched(1));
    assert WorldAfter(attempt, [], 2) == attempt(first, 1).0;
    assert [op] + others + [op] + [] == [op] + others + [op];
  }

  /** A set, as many unconditional sets of others as bring its version about, and the set again. */
  lemma RepetitionInRun(base: Keys, run: seq<Op>, k: string, ver: int, data: string)
    requires SoundKeys(base) && MIN_INT64 <= ver <= MAX_INT64 && Repeatable(SlotOf(base, k), ver)
    requires |run| == if ver == 0 then 2 else ver + 1
    requires run[0].cmd == run[|run| - 1].cmd == EvalSet(k, Itoa(ver), data)
    requires forall p :: 1 <= p < |run| - 1 ==> run[p].cmd == EvalSet(k, WILDCARD, "")
    ensures AppliedSet(base, run, k, 0) && AppliedSet(base, run, k, |run| - 1)
    ensures !Step(After(base, run[..|run| - 1]), run[|run| - 1].cmd).1.Error?
  {
    hide Itoa, Step;
    assert run[..0] == [];
    SlotNext(base, run, k, 0);
    CarriedText(ver, 0);
    SetsRaise(base, run, k, 1, |run| - 1);
    SlotNext(base, run, k, |run| - 1);
  }

  lemma SetsEndNothing(base: Keys, run: seq<Op>, k: string)
    requires forall i :: 0 <= i < |run| ==> run[i].cmd.EvalSet?
    ensures forall i: nat :: i < |run| ==> !Ends(base, run, k, i)
  {
    hide Accepted;
  }

  lemma RepetitionHappens(base: Keys, replicas: int, req: SetRequest, me: nat)
    requires SoundKeys(base) && CarriedVersion(req).Some?
    requires RetriesOnFailure(req.options.retryPolicy)
    requires Repeatable(SlotOf(base, req.key), CarriedVersion(req).value)
    ensures exists sched: Schedule, n: nat, err :: RepeatsUnder(base, replicas, req, me, sched, n, err)
  {
    hide Itoa, Step, After, SetValue, Retried, Ends, WorldAfter, ErrorOf;
    var ver := CarriedVersion(req).value;
    var op := Op(me, SetCommand(req));
    var others := seq(if ver == 0 then 0 else ver - 1, _ => Op(me + 1, EvalSet(req.key, WILDCARD, "")));
    var run := [op] + others + [op];
    LostThenRuns(base, replicas, req, me, others);
    RepetitionInRun(base, run, req.key, ver, Encode(req.value));
    assert run[..|run| - 1] == [op] + others;
    SetsEndNothing(base, run, req.key);
    SecondCallSucceeds(req.options.retryPolicy, SetCall(base, replicas, req, me, LostThen(others)), []);
    assert TookEffect(base, run, me, req.key, 0) && TookEffect(base, run, me, req.key, |run| - 1);
    assert RepeatsUnder(base, replicas, req, me, LostThen(others), 2, None);
  }

  /**
   A retried delete and the hash somebody created in between. After an accepted delete the key is a hash
   again exactly if a set accepted since then was left standing; the next attempt removes that hash exactly
   if, moreover, its ETag is the wildcard or happens to be the number of sets accepted since.
   */
  lemma RetriedDeleteRemovesSuccessor(base: Keys, run: seq<Op>, k: string, i: nat, j: nat)
    requires SoundKeys(base) && i < j < |run| && AppliedDel(base, run, k, i)
    requires run[j].cmd.EvalDel? && run[j].cmd.key == k
    ensures SlotAt(base, run, k, j).Live? <==> exists p: nat :: i < p && RevivedBy(base, run, k, p, j)
    ensures AppliedDel(base, run, k, j) && SlotAt(base, run, k, j).Live? <==>
      && (exists p: nat :: i < p && RevivedBy(base, run, k, p, j))
      && run[j].cmd.version in {WILDCARD, Itoa(SetsSinceBirth(base, run, k, j, Number(SlotOf(base, k))))}
  {
    hide Itoa, Step, RevivedBy;
    SlotNext(base, run, k, i);
    SlotNext(base, run, k, j);
    LiveIffRevived(base, run, k, i + 1, j);
    VersionAccounting(base, run, k, j);
  }

  function Normalized(req: DeleteRequest): DeleteRequest {
    if req.etag == "" then req.(etag := WILDCARD) else req
  }

  lemma {:induction false} DeleteKeepsRequest(base: Keys, me: nat, sched: Schedule, req: DeleteRequest, n: nat)
    ensures WorldAfter(DeleteCall(base, me, sched), ([], req), n).1 == (if n == 0 then req else Normalized(req))
  {
    if n > 0 {
      DeleteKeepsRequest(base, me, sched, req, n - 1);
      var attempt := DeleteCall(base, me, sched);
      var w := WorldAfter(attempt, ([], req), n - 1);
      assert attempt(w, n - 1) == DeleteValue(base, me, w.0, w.1, sched(n - 1));
    }
  }

  /** An attempt that reports success was accepted, and left the key absent at that instant. */
  lemma DeleteSuccess(base: Keys, me: nat, run: seq<Op>, req: DeleteRequest, turn: Turn) returns (i: nat)
    requires DeleteValue(base, me, run, req, turn).1.None?
    ensures var after := DeleteValue(base, me, run, req, turn).0.0;
      && Deleted(base, after, me, req.key, i) && after[i].cmd == EvalDel(req.key, Normalized(req).etag)
      && (SoundKeys(base) ==> SlotAt(base, after, req.key, i + 1).Absent?)
  {
    var seen := run + turn.before;
    var after := DeleteValue(base, me, run, req, turn).0.0;
    i := |seen|;
    assert after[..i] == seen && after[i] == Op(me, EvalDel(req.key, Normalized(req).etag));
    ScriptsReplyIntOrError(After(base, seen), after[i].cmd);
    if SoundKeys(base) {
      SlotNext(base, after, req.key, i);
    }
  }

  /** What the delete script wants of a key. */
  predicate AdmitsDelete(slot: Slot, etag: string) {
    slot.Live? ==> etag == WILDCARD || etag == Itoa(slot.version)
  }

  lemma DeleteSucceeds(base: Keys, me: nat, run: seq<Op>, req: DeleteRequest, turn: Turn)
    requires SoundKeys(base)
    ensures var seen := run + turn.before;
      var ((after, _), err) := DeleteValue(base, me, run, req, turn);
      && (err.None? <==>
          && turn.eval.Delivered? && AdmitsDelete(SlotAt(base, seen, req.key, |seen|), Normalized(req).etag))
      && (err.Some? ==> err == Some(Refused))
      && (err.None? ==>
          && after == seen + [Op(me, EvalDel(req.key, Normalized(req).etag))]
          && SlotAt(base, after, req.key, |after|).Absent?)
  {
    hide Itoa, Step;
    var seen, op := run + turn.before, Op(me, EvalDel(req.key, Normalized(req).etag));
    var sent := seen + [op];
    assert sent[..|seen|] == seen == seen[..|seen|];
    SlotNext(base, sent, req.key, |seen|);
    ScriptsReplyIntOrError(After(base, seen), op.cmd);
  }

  // ----- ETags -----

  datatype Response = Response(data: string, etag: string)

  /** What a client that reads k at one instant sees. */
  function Shown(slot: Slot): Response {
    match slot
    case Absent => Response("", "")
    case Plain(text) => Response(text, "")
    case Live(data, version) => Response(data, Itoa(version))
  }

  /**
   Round trip: the ETag a Get shows is accepted by the next set, which raises the version by one, and by
   the next delete; the set fails only at the 64-bit limit.
   */
  lemma ETagRoundTrip(keys: Keys, req: SetRequest)
    requires SoundKeys(keys) && SlotOf(keys, req.key).Live?
    requires SupportedOptions(req.options)
    requires req.etag == Shown(SlotOf(keys, req.key)).etag
    ensures CarriedVersion(req).Some?
    ensures var n := SlotOf(keys, req.key).version;
      var (after, reply) := Step(keys, SetCommand(req));
      && (reply.Int? <==> n < MAX_INT64)
      && (reply.Int? ==> SoundKeys(after) && SlotOf(after, req.key) == Live(Encode(req.value), n + 1))
    ensures Step(keys, EvalDel(req.key, req.etag)).1.Int?
  {
    var n := SlotOf(keys, req.key).version;
    VersionTextFacts(n);
    ItoaRoundTrip(n);
    assert Itoa(0) == WILDCARD;
    StepOnSlots(keys, SetCommand(req), req.key);
    StepOnSlots(keys, EvalDel(req.key, req.etag), req.key);
  }

  /**
   A last-write set is accepted whatever version its ETag names, except at the 64-bit limit; but its ETag
   must still be a number.
   */
  lemma LastWriteWins(keys: Keys, req: SetRequest)
    requires SoundKeys(keys) && SupportedOptions(req.options) && req.options.concurrency == LAST_WRITE
    ensures CarriedVersion(req).Some? <==> req.etag == "" || Atoi(req.etag).Some?
    ensures CarriedVersion(req).Some? ==>
      (Step(keys, SetCommand(req)).1.Int? <==>
        !(SlotOf(keys, req.key).Live? && SlotOf(keys, req.key).version == MAX_INT64))
  {
    if CarriedVersion(req).Some? {
      assert Itoa(0) == WILDCARD;
      StepOnSlots(keys, SetCommand(req), req.key);
    }
  }

  /**
   ETags tell data apart: two Gets in one lifetime of a hash that show the same ETag show the same data,
   unless the ETag is the largest 64-bit number.
   */
  lemma EqualETagsEqualData(keys: Keys, run: seq<Op>, k: string, i: nat, j: nat)
    requires SoundKeys(keys) && Alive(keys, run, k) && i <= j <= |run|
    requires Shown(SlotAt(keys, run, k, i)).etag == Shown(SlotAt(keys, run, k, j)).etag != Itoa(MAX_INT64)
    ensures Shown(SlotAt(keys, run, k, i)) == Shown(SlotAt(keys, run, k, j))
  {
    hide NatText, Step;
    ItoaInjective(SlotAt(keys, run, k, i).version, SlotAt(keys, run, k, j).version);
    RedisHistory.ETagDeterminesData(keys, run, k, i, j);
  }

  /**
   Optimistic concurrency end to end: if op j is the set of a request whose ETag was shown at instant i, by
   a Get of whatever client, and it is accepted in the same lifetime, then it replaces exactly the data
   shown with that ETag.
   */
  lemma SetReplacesWhatGetShowed(keys: Keys, run: seq<Op>, req: SetRequest, i: nat, j: nat)
    requires SoundKeys(keys) && i <= j < |run| && Alive(keys, run[..j], req.key)
    requires SlotAt(keys, run, req.key, i).Live? && req.etag == Shown(SlotAt(keys, run, req.key, i)).etag
    requires SupportedOptions(req.options) && req.options.concurrency != LAST_WRITE
    requires CarriedVersion(req).Some? && run[j].cmd == SetCommand(req) && AppliedSet(keys, run, req.key, j)
    ensures Shown(SlotAt(keys, run, req.key, j)).data == Shown(SlotAt(keys, run, req.key, i)).data
    ensures SlotAt(keys, run, req.key, j + 1).Live?
    ensures SlotAt(keys, run, req.key, j + 1).data == Encode(req.value)
  {
    var read := SlotAt(keys, run, req.key, i);
    assert req.etag == Itoa(read.version);
    VersionTextFacts(read.version);
    ItoaRoundTrip(read.version);
    hide Itoa, Atoi, Step;
    ReplacesWhatWasRead(keys, run, req.key, i, j);
    SlotNext(keys, run, req.key, j);
  }

  /**
   Set compares numbers, delete compares text: on a hash a first-write set accepts every spelling of the
   version or of zero, a delete only the canonical ones.
   */
  lemma SetComparesNumbersDeleteText(keys: Keys, req: SetRequest, del: DeleteRequest)
    requires SoundKeys(keys) && SlotOf(keys, req.key).Live? && SlotOf(keys, req.key).version < MAX_INT64
    requires CarriedVersion(req).Some? && req.options.concurrency != LAST_WRITE
    requires del.key == req.key && del.etag == req.etag
    ensures Step(keys, SetCommand(req)).1.Int? <==>
      req.etag == "" || Atoi(req.etag) in {Some(0), Some(SlotOf(keys, req.key).version)}
    ensures DeleteValue(keys, 0, [], del, Turn([], Delivered, [], false)).1.None? <==>
      req.etag in {"", WILDCARD, Itoa(SlotOf(keys, req.key).version)}
  {
    var n := SlotOf(keys, req.key).version;
    var ver := CarriedVersion(req).value;
    assert Itoa(0) == WILDCARD;
    StepOnSlots(keys, SetCommand(req), req.key);
    if Itoa(ver) == Itoa(n) {
      ItoaInjective(ver, n);
    }
    if Itoa(ver) == Itoa(0) {
      ItoaInjective(ver, 0);
    }
    var etag := if del.etag == "" then WILDCARD else del.etag;
    var none: seq<Op> := [];
    assert none + none == none;
    ScriptsReplyIntOrError(keys, EvalDel(del.key, etag));
    StepOnSlots(keys, EvalDel(del.key, etag), del.key);
  }

  // ----- Decoding a hash -----

  function Field(vals: seq<string>, p: nat): string
    requires 2 * p < |vals|
  {
    vals[2 * p]
  }

  /** x is the value after the last field called name. */
  ghost predicate LastValue(vals: seq<string>, name: string, x: string) {
    exists p: nat ::
      && 2 * p + 1 < |vals| && Field(vals, p) == name && vals[2 * p + 1] == x
      && forall q: nat :: p < q && 2 * q < |vals| ==> Field(vals, q) != name
  }

  ghost predicate HasField(vals: seq<string>, name: string) {
    exists p: nat :: 2 * p < |vals| && Field(vals, p) == name
  }

  /** getKeyVersion. An odd last element may not be one of the two fields: the code would index past it. */
  method GetKeyVersion(vals: seq<string>) returns (r: Option<Response>)
    requires |vals| % 2 == 1 ==> vals[|vals| - 1] !in {DATA, VERSION}
    ensures r.Some? <==> HasField(vals, DATA) && HasField(vals, VERSION)
    ensures r.Some? ==> LastValue(vals, DATA, r.value.data) && LastValue(vals, VERSION, r.value.etag)
  {
    var seenData, seenVersion := false, false;
    var data, version := "", "";
    var i := 0;
    ghost var n: nat := 0;
    while i < |vals|
      invariant i == 2 * n && n >= 0 && i <= |vals| + 1
      invariant seenData <==> exists p: nat :: p < n && 2 * p < |vals| && Field(vals, p) == DATA
      invariant seenVersion <==> exists p: nat :: p < n && 2 * p < |vals| && Field(vals, p) == VERSION
      invariant seenData ==> exists p: nat ::
        && p < n && 2 * p + 1 < |vals| && Field(vals, p) == DATA && vals[2 * p + 1] == data
        && forall q: nat :: p < q < n && 2 * q < |vals| ==> Field(vals, q) != DATA
      invariant seenVersion ==> exists p: nat ::
        && p < n && 2 * p + 1 < |vals| && Field(vals, p) == VERSION && vals[2 * p + 1] == version
        && forall q: nat :: p < q < n && 2 * q < |vals| ==> Field(vals, q) != VERSION
    {
      assert Field(vals, n) == vals[i];
      if vals[i] == DATA {
        data := vals[i + 1];
        seenData := true;
      } else if vals[i] == VERSION {
        version := vals[i + 1];
        seenVersion := true;
      }
      i := i + 2;
      n := n + 1;
    }
    if !seenData || !seenVersion {
      return None;
    }
    return Some(Response(data, version));
  }

  /** A reply to HGETALL: the fields of m with their values, in any order. */
  ghost predicate Flattens(vals: seq<string>, m: map<string, string>) {
    && |vals| == 2 * |m|
    && (forall p: nat :: 2 * p < |vals| ==> Field(vals, p) in m && m[Field(vals, p)] == vals[2 * p + 1])
    && (forall name :: name in m ==> HasField(vals, name))
  }

  /** Decoding does not depend on the order of the fields or on other fields being there. */
  lemma DecodingIsOrderIndependent(vals: seq<string>, m: map<string, string>, name: string, x: string)
    requires Flattens(vals, m) && LastValue(vals, name, x)
    ensures name in m && m[name] == x
  {
  }

  /** The fields of a slot are decoded to what the slot shows, and never reported missing. */
  lemma DecodedAsShown(slot: Slot, fields: map<string, string>, vals: seq<string>, resp: Option<Response>)
    requires Flattens(vals, fields) && !slot.Plain?
    requires slot.Absent? ==> fields == map[]
    requires slot.Live? ==>
      && DATA in fields && fields[DATA] == slot.data
      && VERSION in fields && fields[VERSION] == Itoa(slot.version)
    requires vals == [] ==> resp == Some(Response("", ""))
    requires vals != [] ==> (resp.Some? <==> HasField(vals, DATA) && HasField(vals, VERSION))
    requires vals != [] && resp.Some? ==>
      LastValue(vals, DATA, resp.value.data) && LastValue(vals, VERSION, resp.value.etag)
    ensures resp == Some(Shown(slot))
  {
    if slot.Live? {
      assert HasField(vals, DATA) && HasField(vals, VERSION);
      DecodingIsOrderIndependent(vals, fields, DATA, resp.value.data);
      DecodingIsOrderIndependent(vals, fields, VERSION, resp.value.etag);
    }
  }

  /** HGETALL at the end of a history. */
  lemma HGetAllShows(base: Keys, seen: seq<Op>, key: string)
    requires SoundKeys(base)
    ensures var slot := SlotAt(base, seen, key, |seen|);
      match Step(After(base, seen), HGetAll(key)).1
      case Fields(fields) =>
        && !slot.Plain?
        && (slot.Absent? ==> fields == map[])
        && (slot.Live? ==>
          && DATA in fields && fields[DATA] == slot.data
          && VERSION in fields && fields[VERSION] == Itoa(slot.version))
      case Error => slot.Plain?
      case _ => false
  {
    assert seen[..|seen|] == seen;
  }

  lemma HGetAllReply(keys: Keys, key: string)
    ensures Step(keys, HGetAll(key)).1.Fields? || Step(keys, HGetAll(key)).1.Error?
    ensures Step(keys, HGetAll(key)).1.Error? <==> key in keys && keys[key].Str?
  {
  }

  /** directGet. */
  function DirectGet(base: Keys, seen: seq<Op>, key: string, me: nat, fate: Fate): (seq<Op>, Option<Response>) {
    var (run, reply) := Send(base, seen, Op(me, RedisServer.Get(key)), fate);
    match reply
    case Nil => (run, Some(Response("", "")))
    case Text(text) => (run, Some(Response(text, "")))
    case _ => (run, None)
  }

  lemma DirectGetShows(base: Keys, seen: seq<Op>, key: string, me: nat, fate: Fate)
    requires SoundKeys(base)
    ensures var (run, resp) := DirectGet(base, seen, key, me, fate);
      && |seen| <= |run| && run[..|seen|] == seen && (fate.Delivered? ==> |run| == |seen| + 1)
      && var slot := SlotAt(base, run, key, |seen|);
        && (resp.Some? ==> !slot.Live? && resp.value == Shown(slot))
        && (resp.None? <==> !fate.Delivered? || slot.Live?)
  {
    var run := DirectGet(base, seen, key, me, fate).0;
    assert run[..|seen|] == seen;
  }

  // ----- Transactions -----

  /** A transactional request; operations of any other kind are skipped. */
  datatype TxRequest = TxUpsert(upsert: SetRequest) | TxDelete(delete: DeleteRequest) | TxOther

  /** Multi encodes every value as JSON, byte slices too, and ignores ETags and options. */
  function TxText(value: Payload): string {
    if value.json.Some? then value.json.value else ""
  }

  /** The specification: what a transaction makes of the content of k. */
  function TxContent(ops: seq<TxRequest>, k: string, before: Option<string>): Option<string> {
    if ops == [] then before
    else
      var rest := TxContent(ops[..|ops| - 1], k, before);
      match ops[|ops| - 1]
      case TxUpsert(req) => if req.key == k then Some(TxText(req.value)) else rest
      case TxDelete(req) => if req.key == k then None else rest
      case TxOther => rest
  }

  /** Op i of the transaction is the last one on key k. */
  predicate DecidesFor(ops: seq<TxRequest>, k: string, i: nat) {
    && i < |ops| && OnKey(ops[i], k)
    && forall j :: i < j < |ops| ==> !OnKey(ops[j], k)
  }

  predicate OnKey(op: TxRequest, k: string) {
    match op
    case TxUpsert(req) => req.key == k
    case TxDelete(req) => req.key == k
    case TxOther => false
  }

  /** The last operation on a key decides: an upsert leaves its JSON text, and a delete nothing. */
  lemma {:induction false} TxDecided(ops: seq<TxRequest>, k: string, before: Option<string>, i: nat)
    requires DecidesFor(ops, k, i)
    ensures ops[i].TxDelete? ==> TxContent(ops, k, before) == None
    ensures ops[i].TxUpsert? ==>
      TxContent(ops, k, before) == Some(if ops[i].upsert.value.json.Some? then ops[i].upsert.value.json.value else "")
  {
    if i < |ops| - 1 {
      assert !OnKey(ops[|ops| - 1], k);
      TxDecided(ops[..|ops| - 1], k, before, i);
    }
  }

  /** A key no operation is on keeps its content. */
  lemma {:induction false} TxUntouched(ops: seq<TxRequest>, k: string, before: Option<string>)
    requires forall i :: 0 <= i < |ops| ==> !OnKey(ops[i], k)
    ensures TxContent(ops, k, before) == before
  {
    if ops != [] {
      assert !OnKey(ops[|ops| - 1], k);
      TxUntouched(ops[..|ops| - 1], k, before);
    }
  }

  lemma ExecShows(base: Keys, seen: seq<Op>, me: nat, writes: seq<Write>, k: string)
    requires SoundKeys(base)
    ensures var run := seen + [Op(me, Exec(writes))];
      Content(SlotAt(base, run, k, |run|)) == LastPut(writes, k, Content(SlotAt(base, seen, k, |seen|)))
  {
    hide Itoa, Step;
    var run := seen + [Op(me, Exec(writes))];
    assert run[..|seen|] == seen == seen[..|seen|];
    SlotNext(base, run, k, |seen|);
    WritesRefine(SlotAt(base, seen, k, |seen|), writes, k);
  }

  // ----- The store -----

  datatype Reads = Reads(before: seq<Op>, hgetall: Fate, between: seq<Op>, get: Fate)

  /** The command reaches the server unless the request is lost. */
  function Reached(op: Op, fate: Fate): seq<Op> {
    if fate.RequestLost? then [] else [op]
  }

  /** HGETALL brought no hash: its messages were lost, or it found a string. */
  predicate FallsBack(base: Keys, key: string, env: Reads) {
    var here := After(base, env.before);
    !env.hgetall.Delivered? || (key in here && here[key].Str?)
  }

  /** What the server executes during a Get. */
  function ReadRun(base: Keys, key: string, me: nat, env: Reads): seq<Op> {
    var first := env.before + Reached(Op(me, HGetAll(key)), env.hgetall);
    if FallsBack(base, key, env) then first + env.between + Reached(Op(me, RedisServer.Get(key)), env.get) else first
  }

  /** What a Get answers: what HGETALL found, or else what GET finds unless that is a hash by then. */
  ghost function ReadOutcome(base: Keys, key: string, me: nat, env: Reads): Option<Response>
    requires SoundKeys(base)
  {
    var run := ReadRun(base, key, me, env);
    if !FallsBack(base, key, env) then Some(Shown(SlotAt(base, run, key, |env.before|)))
    else if !env.get.Delivered? || SlotAt(base, run, key, |run| - 1).Live? then None
    else Some(Shown(SlotAt(base, run, key, |run| - 1)))
  }

  /**
   Data and ETag of a Get are those of one and the same instant, and with a working network the only error is
   a string turning into a hash between the two reads.
   */
  lemma GetShowsOneInstant(base: Keys, key: string, me: nat, env: Reads)
    requires SoundKeys(base)
    ensures var run, resp := ReadRun(base, key, me, env), ReadOutcome(base, key, me, env);
      && (resp.Some? ==> exists i: nat ::
           |env.before| <= i <= |run| && resp.value == Shown(SlotAt(base, run, key, i)))
      && (env.hgetall.Delivered? && env.get.Delivered? ==>
           (resp.None? <==>
             && |env.before| < |run| - 1
             && SlotAt(base, run, key, |env.before|).Plain?
             && SlotAt(base, run, key, |run| - 1).Live?))
  {
    hide Itoa, Step;
    var run := ReadRun(base, key, me, env);
    assert run[..|env.before|] == env.before;
    RunsKeepSound(base, env.before);
  }

  /** An answer as of a slot: its bytes, empty if there are none, and the decimal text of the version of a hash. */
  ghost predicate AnswersFor(slot: Slot, resp: Response) {
    && resp.data == (if Content(slot).Some? then Content(slot).value else "")
    && resp.etag == (if slot.Live? then Itoa(slot.version) else "")
  }

  /** A successful Get answers for the key at one instant of the call. */
  lemma GetShowsContent(base: Keys, key: string, me: nat, env: Reads) returns (i: nat)
    requires SoundKeys(base) && ReadOutcome(base, key, me, env).Some?
    ensures |env.before| <= i <= |ReadRun(base, key, me, env)|
    ensures AnswersFor(SlotAt(base, ReadRun(base, key, me, env), key, i), ReadOutcome(base, key, me, env).value)
  {
    hide Itoa, Step;
    i := if FallsBack(base, key, env) then |ReadRun(base, key, me, env)| - 1 else |env.before|;
  }

  /**
   Get reads the plain map: while no set overflows, it returns the last write accepted before one instant of the
   call, whatever representation that write left behind.
   */
  lemma GetReturnsLastWrite(base: Keys, key: string, me: nat, env: Reads) returns (i: nat)
    requires SoundKeys(base) && ReadOutcome(base, key, me, env).Some?
    requires var run := ReadRun(base, key, me, env);
      forall j :: 0 <= j < |run| ==> !Overflows(SlotAt(base, run, key, j), run[j].cmd, key)
    ensures var run := ReadRun(base, key, me, env);
      && |env.before| <= i <= |run|
      && var last := LastWrite(base, run, key, i, Content(SlotOf(base, key)));
        ReadOutcome(base, key, me, env).value.data == if last.Some? then last.value else ""
  {
    hide Itoa, Step, ReadRun, ReadOutcome, Overflows;
    i := GetShowsContent(base, key, me, env);
    var run := ReadRun(base, key, me, env);
    StoreRefinesMap(base, run, key, |run|);
    assert HoldsLastWrite(base, run, key, i);
  }

  /** What an undisturbed Get answers for a value as it is stored. */
  ghost predicate ShowsStored(here: Keys, key: string, resp: Option<Response>) {
    && (key !in here ==> resp == Some(Response("", "")))
    && (key in here && here[key].Str? ==> resp == Some(Response(here[key].text, "")))
    && (key in here && here[key].Hash? ==>
      && DATA in here[key].fields && VERSION in here[key].fields
      && resp == Some(Response(here[key].fields[DATA], here[key].fields[VERSION])))
  }

  lemma ShownAsStored(here: Keys, key: string)
    requires SoundKeys(here)
    ensures ShowsStored(here, key, Some(Shown(SlotOf(here, key))))
  {
    hide Itoa;
  }

  lemma ShownAsPlain(here: Keys, key: string)
    requires SoundKeys(here)
    ensures ShowsPlain(here, key, if SlotOf(here, key).Live? then None else Some(Shown(SlotOf(here, key))))
  {
    hide Itoa;
  }

  lemma SlotAfterPrefix(base: Keys, run: seq<Op>, seen: seq<Op>, key: string)
    requires SoundKeys(base) && |seen| <= |run| && run[..|seen|] == seen
    ensures SoundKeys(After(base, seen)) && SlotAt(base, run, key, |seen|) == SlotOf(After(base, seen), key)
  {
    hide Itoa, Step, After;
    RunsKeepSound(base, seen);
  }

  /** What GET alone answers: a hash is an error to it. */
  ghost predicate ShowsPlain(here: Keys, key: string, resp: Option<Response>) {
    && (key !in here ==> resp == Some(Response("", "")))
    && (key in here && here[key].Str? ==> resp == Some(Response(here[key].text, "")))
    && (key in here && here[key].Hash? ==> resp == None)
  }

  /** An undisturbed Get shows the stored value; if HGETALL was lost, it shows what GET alone can. */
  lemma UndisturbedGet(base: Keys, key: string, me: nat, env: Reads)
    requires SoundKeys(base) && env.get.Delivered? && env.between == []
    ensures var here, resp := After(base, env.before), ReadOutcome(base, key, me, env);
      if env.hgetall.Delivered? then ShowsStored(here, key, resp) else ShowsPlain(here, key, resp)
  {
    hide Itoa, Step, After, SlotAt, Shown, ShowsStored, ShowsPlain;
    var run, read := ReadRun(base, key, me, env), env.before + Reached(Op(me, HGetAll(key)), env.hgetall);
    RunsKeepSound(base, env.before);
    GetLeavesKeys(base, env.before, me, key);
    assert env.before + [] == env.before;
    ShownAsStored(After(base, env.before), key);
    ShownAsPlain(After(base, env.before), key);
    if FallsBack(base, key, env) {
      assert run[..|read|] == read;
      SlotAfterPrefix(base, run, read, key);
    } else {
      assert run[..|env.before|] == env.before;
      SlotAfterPrefix(base, run, env.before, key);
    }
  }

  /** If the first attempt gets through and is admitted, it is the only one and the call succeeds. */
  ghost predicate SucceedsAtOnce(base: Keys, replicas: int, req: SetRequest, me: nat, turn: Turn,
                                 run: seq<Op>, err: Option<RetryError<StoreError>>, calls: nat)
    requires SoundKeys(base) && CarriedVersion(req).Some?
  {
    var seen := turn.before;
    var slot := SlotAt(base, seen, req.key, |seen|);
    && turn.eval.Delivered? && AdmitsSet(slot, CarriedVersion(req).value)
    && !(Waits(req, replicas) && turn.waitFails) ==>
      && err.None? && calls == 1
      && run == seen + [Op(me, SetCommand(req))] + (if Waits(req, replicas) then turn.between else [])
      && SlotAt(base, run, req.key, |seen| + 1) == Live(Encode(req.value), Number(slot) + 1)
  }

  /** The first attempt of a call, by the turn the environment gives it. */
  lemma FirstAttempt(base: Keys, replicas: int, req: SetRequest, me: nat, sched: Schedule)
    requires SoundKeys(base) && CarriedVersion(req).Some?
    ensures var turn := sched(0);
      var seen := turn.before;
      var slot := SlotAt(base, seen, req.key, |seen|);
      var attempt := SetCall(base, replicas, req, me, sched);
      && (ErrorOf(attempt, [], 0).None? <==>
          && turn.eval.Delivered? && AdmitsSet(slot, CarriedVersion(req).value)
          && !(Waits(req, replicas) && turn.waitFails))
      && (ErrorOf(attempt, [], 0).None? ==>
          var run := WorldAfter(attempt, [], 1);
          && run == seen + [Op(me, SetCommand(req))] + (if Waits(req, replicas) then turn.between else [])
          && SlotAt(base, run, req.key, |seen| + 1) == Live(Encode(req.value), Number(slot) + 1))
  {
    hide Itoa, Step, SetValue;
    var attempt := SetCall(base, replicas, req, me, sched);
    assert attempt([], 0) == SetValue(base, replicas, req, me, [], sched(0));
    assert WorldAfter(attempt, [], 0) == [];
    assert WorldAfter(attempt, [], 1) == attempt([], 0).0;
    assert [] + sched(0).before == sched(0).before;
    AttemptSucceeds(base, replicas, req, me, [], sched(0));
  }

  lemma FirstDelete(base: Keys, req: DeleteRequest, me: nat, sched: Schedule)
    requires SoundKeys(base)
    ensures var seen := sched(0).before;
      var attempt := DeleteCall(base, me, sched);
      && (ErrorOf(attempt, ([], req), 0).None? <==>
          && sched(0).eval.Delivered?
          && AdmitsDelete(SlotAt(base, seen, req.key, |seen|), Normalized(req).etag))
      && (ErrorOf(attempt, ([], req), 0).None? ==>
          var run := WorldAfter(attempt, ([], req), 1).0;
          && run == seen + [Op(me, EvalDel(req.key, Normalized(req).etag))]
          && SlotAt(base, run, req.key, |run|).Absent?)
  {
    hide Itoa, Step, DeleteValue;
    var attempt := DeleteCall(base, me, sched);
    assert attempt(([], req), 0) == DeleteValue(base, me, [], req, sched(0));
    assert WorldAfter(attempt, ([], req), 0) == ([], req);
    assert WorldAfter(attempt, ([], req), 1) == attempt(([], req), 0).0;
    assert [] + sched(0).before == sched(0).before;
    DeleteSucceeds(base, me, [], req, sched(0));
  }

  class StateStore {
    const replicas: int
    var keys: Keys

    constructor (replicas: int, keys: Keys)
      ensures this.replicas == replicas && this.keys == keys
    {
      this.replicas := replicas;
      this.keys := keys;
    }

    /** Set: setValue under the retry loop. run is everything the server executed meanwhile. */
    method Set(req: SetRequest, me: nat, sched: Schedule)
      returns (err: Option<RetryError<StoreError>>, run: seq<Op>, calls: nat)
      requires MIN_INT64 <= req.options.retryPolicy.interval <= MAX_INT64
      modifies this
      ensures keys == After(old(keys), run)
      ensures Retried(req.options.retryPolicy, SetCall(old(keys), replicas, req, me, sched), [], run, err, calls)
      // An invalid request changes nothing.
      ensures CarriedVersion(req).None? ==> err.Some? && run == []
      // A first attempt that gets through and is admitted is the only one, and the call succeeds.
      ensures CarriedVersion(req).Some? && SoundKeys(old(keys)) && calls > 0 ==>
                SucceedsAtOnce(old(keys), replicas, req, me, sched(0), run, err, calls)
      // Success is never reported for a write that did not happen.
      ensures err.None? ==> CarriedVersion(req).Some?
      ensures err.None? ==> exists i: nat ::
                && TookEffect(old(keys), run, me, req.key, i) && run[i].cmd == SetCommand(req)
                && (ForeignSchedule(sched, me) ==> LastBy(run, me, i))
      // What is written is the bytes of a byte slice, the JSON text of anything else, nothing if there is none.
      ensures err.None? ==>
                && SetCommand(req).key == req.key
                && (req.value.raw.Some? ==> SetCommand(req).data == req.value.raw.value)
                && (req.value.raw.None? && req.value.json.Some? ==> SetCommand(req).data == req.value.json.value)
                && (req.value.raw.None? && req.value.json.None? ==> SetCommand(req).data == "")
      ensures CarriedVersion(req).Some? && ForeignSchedule(sched, me) ==> SendsOnly(run, me, SetCommand(req))
      // A conditional set within one lifetime of its key takes effect at most once, with or without success.
      ensures && SoundKeys(old(keys)) && ForeignSchedule(sched, me)
              && CarriedVersion(req).Some? && CarriedVersion(req).value != 0
              && Alive(old(keys), run, req.key) ==>
                AppliedAtMostOnce(old(keys), run, me, req.key)
    {
      hide Itoa, Step, SetValue;
      var base := keys;
      var sleeps;
      run, err, calls, sleeps := WithRetries(req.options.retryPolicy, SetCall(base, replicas, req, me, sched), []);
      keys := After(base, run);
      ghost var attempt := SetCall(base, replicas, req, me, sched);
      if CarriedVersion(req).None? {
        InvalidSetSendsNothing(base, replicas, req, me, sched, calls);
        if calls > 0 {
          InvalidSetSendsNothing(base, replicas, req, me, sched, calls - 1);
        }
      } else {
        if SoundKeys(base) && calls > 0 {
          FirstAttempt(base, replicas, req, me, sched);
        }
        if err.None? {
          ghost var last := WorldAfter(attempt, [], calls - 1);
          assert attempt(last, calls - 1) == SetValue(base, replicas, req, me, last, sched(calls - 1));
          ghost var i := SuccessTookEffect(base, replicas, req, me, last, sched(calls - 1));
          assert TookEffect(base, run, me, req.key, i);
        }
        if ForeignSchedule(sched, me) {
          AttemptsSend(base, replicas, req, me, sched, calls);
          if SoundKeys(base) && CarriedVersion(req).value != 0 && Alive(base, run, req.key) {
            ExactlyOnce(base, replicas, req, me, sched, calls);
          }
        }
      }
    }

    /** Delete: the options are checked once, outside the retry loop. left is the request as the call leaves it. */
    method Delete(req: DeleteRequest, me: nat, sched: Schedule)
      returns (err: Option<RetryError<StoreError>>, left: DeleteRequest, run: seq<Op>, calls: nat)
      requires MIN_INT64 <= req.options.retryPolicy.interval <= MAX_INT64
      modifies this
      ensures keys == After(old(keys), run)
      ensures !SupportedOptions(req.options) ==>
                err == Some(Single(BadOptions)) && run == [] && left == req && calls == 0
      ensures SupportedOptions(req.options) ==>
                && left == (if KnownPattern(req.options.retryPolicy.pattern) then Normalized(req) else req)
                && var attempt := DeleteCall(old(keys), me, sched);
                  Retried(req.options.retryPolicy, attempt, ([], req), (run, left), err, calls)
      // A first attempt that gets through and is admitted is the only one, and the call succeeds.
      ensures SoundKeys(old(keys)) && calls > 0 ==>
                var seen := sched(0).before;
                && sched(0).eval.Delivered?
                && AdmitsDelete(SlotAt(old(keys), seen, req.key, |seen|), Normalized(req).etag) ==>
                  && err.None? && calls == 1
                  && run == seen + [Op(me, EvalDel(req.key, Normalized(req).etag))]
                  && SlotAt(old(keys), run, req.key, |run|).Absent?
      // Success means that at some instant of the call the key was gone by this call's doing.
      ensures err.None? ==> exists i: nat ::
                && Deleted(old(keys), run, me, req.key, i)
                && run[i].cmd == EvalDel(req.key, Normalized(req).etag)
                && (SoundKeys(old(keys)) ==> SlotAt(old(keys), run, req.key, i + 1).Absent?)
    {
      hide Itoa, Step, DeleteValue;
      if !SupportedOptions(req.options) {
        return Some(Single(BadOptions)), req, [], 0;
      }
      var base := keys;
      var w, sleeps;
      w, err, calls, sleeps := WithRetries(req.options.retryPolicy, DeleteCall(base, me, sched), ([], req));
      run, left := w.0, w.1;
      keys := After(base, run);
      DeleteKeepsRequest(base, me, sched, req, calls);
      ghost var attempt := DeleteCall(base, me, sched);
      if SoundKeys(base) && calls > 0 {
        FirstDelete(base, req, me, sched);
      }
      if err.None? {
        DeleteKeepsRequest(base, me, sched, req, calls - 1);
        ghost var last := WorldAfter(attempt, ([], req), calls - 1);
        assert attempt(last, calls - 1) == DeleteValue(base, me, last.0, last.1, sched(calls - 1));
        ghost var i := DeleteSuccess(base, me, last.0, last.1, sched(calls - 1));
        assert Deleted(base, run, me, req.key, i);
      }
    }

    /** Get: the hash if there is one, else the plain string. None is an error. */
    method Get(key: string, me: nat, env: Reads, flatten: map<string, string> -> seq<string>)
      returns (resp: Option<Response>, run: seq<Op>)
      requires forall m :: Flattens(flatten(m), m)
      modifies this
      ensures keys == After(old(keys), run)
      // The server sees HGETALL and, if that failed or found a string, GET; nothing else but what others sent.
      ensures run == ReadRun(old(keys), key, me, env)
      ensures SoundKeys(old(keys)) ==> resp == ReadOutcome(old(keys), key, me, env)
      // Success: the answer is that for the key at one instant of the call.
      ensures SoundKeys(old(keys)) && resp.Some? ==> exists i: nat ::
                |env.before| <= i <= |run| && AnswersFor(SlotAt(old(keys), run, key, i), resp.value)
      // Undisturbed: the stored string, or the two fields of the stored hash, or nothing.
      // If HGETALL is lost, what GET alone shows.
      ensures SoundKeys(old(keys)) && env.between == [] && env.get.Delivered? ==>
                var here := After(old(keys), env.before);
                if env.hgetall.Delivered? then ShowsStored(here, key, resp) else ShowsPlain(here, key, resp)
    {
      hide Itoa, Step, After, HasField, LastValue, AnswersFor, ShowsStored, ShowsPlain;
      var base := keys;
      if SoundKeys(base) {
        if ReadOutcome(base, key, me, env).Some? {
          ghost var i := GetShowsContent(base, key, me, env);
        }
        if env.between == [] && env.get.Delivered? {
          UndisturbedGet(base, key, me, env);
        }
      }
      var first := Send(base, env.before, Op(me, HGetAll(key)), env.hgetall);
      assert first.0[..|env.before|] == env.before == env.before[..|env.before|];
      HGetAllReply(After(base, env.before), key);
      if SoundKeys(base) {
        HGetAllShows(base, env.before, key);
      }
      if first.1.Error? {
        var seen := first.0 + env.between;
        var direct := DirectGet(base, seen, key, me, env.get);
        run, resp := direct.0, direct.1;
        if SoundKeys(base) {
          DirectGetShows(base, seen, key, me, env.get);
        }
      } else {
        run := first.0;
        var vals := flatten(first.1.fields);
        if |vals| == 0 {
          resp := Some(Response("", ""));
        } else {
          resp := GetKeyVersion(vals);
        }
        if SoundKeys(base) {
          DecodedAsShown(SlotAt(base, run, key, |env.before|), first.1.fields, vals, resp);
        }
      }
      keys := After(base, run);
    }

    /** Multi: one atomic transaction of plain writes. */
    method Multi(ops: seq<TxRequest>, me: nat, before: seq<Op>, fate: Fate) returns (ok: bool, run: seq<Op>)
      modifies this
      ensures keys == After(old(keys), run)
      ensures ok <==> fate.Delivered?
      ensures fate.RequestLost? ==> run == before
      // All operations take effect at one instant, the last one on a key deciding.
      ensures !fate.RequestLost? ==> |run| == |before| + 1 && run[..|before|] == before
      ensures !fate.RequestLost? && SoundKeys(old(keys)) ==> forall k ::
                Content(SlotAt(old(keys), run, k, |run|)) ==
                TxContent(ops, k, Content(SlotAt(old(keys), before, k, |before|)))
      // An upsert leaves its JSON text, even for bytes, and a delete removes the key.
      ensures !fate.RequestLost? && SoundKeys(old(keys)) ==> forall k, i: nat :: DecidesFor(ops, k, i) ==>
                var content := Content(SlotAt(old(keys), run, k, |run|));
                && (ops[i].TxDelete? ==> content == None)
                && (ops[i].TxUpsert? && ops[i].upsert.value.json.Some? ==> content == ops[i].upsert.value.json)
      ensures !fate.RequestLost? && SoundKeys(old(keys)) ==> forall k ::
                (forall i :: 0 <= i < |ops| ==> !OnKey(ops[i], k)) ==>
                  Content(SlotAt(old(keys), run, k, |run|)) == Content(SlotAt(old(keys), before, k, |before|))
    {
      hide Itoa, Step;
      var base := keys;
      var writes: seq<Write> := [];
      for i := 0 to |ops|
        invariant forall k, b :: LastPut(writes, k, b) == TxContent(ops[..i], k, b)
      {
        assert ops[..i + 1][..i] == ops[..i];
        assert forall w :: (writes + [w])[..|writes|] == writes;
        match ops[i]
        case TxUpsert(req) => writes := writes + [Put(req.key, TxText(req.value))];
        case TxDelete(req) => writes := writes + [Remove(req.key)];
        case TxOther =>
      }
      assert ops[..|ops|] == ops;
      var sent := Send(base, before, Op(me, Exec(writes)), fate);
      run, ok := sent.0, fate.Delivered?;
      keys := After(base, run);
      if !fate.RequestLost? && SoundKeys(base) {
        forall k ensures
          Content(SlotAt(base, run, k, |run|)) == TxContent(ops, k, Content(SlotAt(base, before, k, |before|)))
        {
          ExecShows(base, before, me, writes, k);
        }
        forall k, i: nat | DecidesFor(ops, k, i) ensures
          var content := Content(SlotAt(base, run, k, |run|));
          && (ops[i].TxDelete? ==> content == None)
          && (ops[i].TxUpsert? && ops[i].upsert.value.json.Some? ==> content == ops[i].upsert.value.json)
        {
          TxDecided(ops, k, Content(SlotAt(base, before, k, |before|)), i);
        }
        forall k | forall i :: 0 <= i < |ops| ==> !OnKey(ops[i], k) ensures
          Content(SlotAt(base, run, k, |run|)) == Content(SlotAt(base, before, k, |before|))
        {
          TxUntouched(ops, k, Content(SlotAt(base, before, k, |before|)));
        }
      }
    }
  }

  /** Set with the ETag the store shows at the start of the call. */
  method SetShown(store: StateStore, req: SetRequest, me: nat, sched: Schedule)
    returns (err: Option<RetryError<StoreError>>, run: seq<Op>, calls: nat)
    requires MIN_INT64 <= req.options.retryPolicy.interval <= MAX_INT64
    requires SoundKeys(store.keys) && SlotOf(store.keys, req.key).Live?
    requires req.etag == Shown(SlotOf(store.keys, req.key)).etag
    modifies store
    ensures store.keys == After(old(store.keys), run)
    ensures var attempt := SetCall(old(store.keys), store.replicas, req, me, sched);
      Retried(req.options.retryPolicy, attempt, [], run, err, calls)
    // If nobody interferes the update succeeds, except at the 64-bit limit, and raises the version by one.
    ensures && SupportedOptions(req.options) && KnownPattern(req.options.retryPolicy.pattern)
            && SlotOf(old(store.keys), req.key).version < MAX_INT64
            && sched(0) == Turn([], Delivered, [], false) ==>
              && err.None? && SoundKeys(store.keys)
              && SlotOf(store.keys, req.key) ==
                 Live(Encode(req.value), SlotOf(old(store.keys), req.key).version + 1)
    // Whoever interferes, an update that succeeds in this lifetime replaced just the data shown with the ETag.
    ensures err.None? && req.options.concurrency != LAST_WRITE && Alive(old(store.keys), run, req.key) ==>
              exists i: nat :: Replaced(old(store.keys), run, me, req, SlotOf(old(store.keys), req.key).data, i)
  {
    hide Itoa, Step, Atoi, Encode, Replaced, SucceedsAtOnce;
    ghost var base := store.keys;
    ReadETagParses(SlotOf(base, req.key).version);
    err, run, calls := store.Set(req, me, sched);
    if && SupportedOptions(req.options) && KnownPattern(req.options.retryPolicy.pattern)
       && SlotOf(base, req.key).version < MAX_INT64 && sched(0) == Turn([], Delivered, [], false) {
      SucceedsUndisturbed(base, store.replicas, req, me, run, err, calls);
    }
    if err.None? && req.options.concurrency != LAST_WRITE && Alive(base, run, req.key) {
      ghost var i: nat :| TookEffect(base, run, me, req.key, i) && run[i].cmd == SetCommand(req);
      ReplacedAtStart(base, run, me, req, i);
    }
  }

  lemma SucceedsUndisturbed(base: Keys, replicas: int, req: SetRequest, me: nat,
                            run: seq<Op>, err: Option<RetryError<StoreError>>, calls: nat)
    requires SoundKeys(base) && CarriedVersion(req).Some?
    requires AdmitsSet(SlotOf(base, req.key), CarriedVersion(req).value)
    requires SucceedsAtOnce(base, replicas, req, me, Turn([], Delivered, [], false), run, err, calls)
    ensures err.None? && SoundKeys(After(base, run))
    ensures SlotOf(After(base, run), req.key) == Live(Encode(req.value), Number(SlotOf(base, req.key)) + 1)
  {
    hide Itoa, Step, Encode;
    RunsKeepSound(base, run);
    assert run[..|run|] == run;
    var none: seq<Op> := [];
    assert none[..0] == none;
  }

  /**
   The optimistic update a client writes: Get, then Set with the ETag that Get showed. run is what the server
   executed after the read.
   */
  method GetThenSet(store: StateStore, key: string, value: Payload, options: Options, me: nat,
                    env: Reads, flatten: map<string, string> -> seq<string>, sched: Schedule)
    returns (resp: Option<Response>, err: Option<RetryError<StoreError>>, run: seq<Op>, calls: nat)
    requires MIN_INT64 <= options.retryPolicy.interval <= MAX_INT64
    requires forall m :: Flattens(flatten(m), m)
    requires SoundKeys(store.keys) && env.hgetall.Delivered?
    requires SlotAt(store.keys, env.before, key, |env.before|).Live?
    modifies store
    ensures SoundKeys(After(old(store.keys), env.before))
    ensures store.keys == After(After(old(store.keys), env.before), run)
    ensures resp == Some(Shown(SlotAt(old(store.keys), env.before, key, |env.before|)))
    ensures var req := SetRequest(key, value, resp.value.etag, options);
      var attempt := SetCall(After(old(store.keys), env.before), store.replicas, req, me, sched);
      Retried(options.retryPolicy, attempt, [], run, err, calls)
    ensures var read := SlotAt(old(store.keys), env.before, key, |env.before|);
      && SupportedOptions(options) && KnownPattern(options.retryPolicy.pattern)
      && read.version < MAX_INT64 && sched(0) == Turn([], Delivered, [], false) ==>
        && err.None? && SoundKeys(store.keys)
        && SlotOf(store.keys, key) == Live(Encode(value), read.version + 1)
    ensures var base := After(old(store.keys), env.before);
      err.None? && options.concurrency != LAST_WRITE && Alive(base, run, key) ==>
        var req := SetRequest(key, value, resp.value.etag, options);
        exists i: nat :: Replaced(base, run, me, req, resp.value.data, i)
  {
    hide Itoa, Step, Atoi, Flattens, Replaced;
    ghost var first := store.keys;
    assert env.before[..|env.before|] == env.before;
    RunsKeepSound(first, env.before);
    GetLeavesKeys(first, env.before, me, key);
    var seen;
    resp, seen := store.Get(key, me, env, flatten);
    err, run, calls := SetShown(store, SetRequest(key, value, resp.value.etag, options), me, sched);
  }

  /** Set, undisturbed and admitted. */
  method SetUndisturbed(store: StateStore, req: SetRequest, me: nat, sched: Schedule)
    returns (err: Option<RetryError<StoreError>>)
    requires MIN_INT64 <= req.options.retryPolicy.interval <= MAX_INT64
    requires KnownPattern(req.options.retryPolicy.pattern) && CarriedVersion(req).Some?
    requires SoundKeys(store.keys) && AdmitsSet(SlotOf(store.keys, req.key), CarriedVersion(req).value)
    requires sched(0) == Turn([], Delivered, [], false)
    modifies store
    ensures err.None? && SoundKeys(store.keys) && SlotOf(store.keys, req.key).Live?
    ensures SlotOf(store.keys, req.key).version == Number(SlotOf(old(store.keys), req.key)) + 1
    ensures req.value.raw.Some? ==> SlotOf(store.keys, req.key).data == req.value.raw.value
    ensures req.value.raw.None? && req.value.json.Some? ==> SlotOf(store.keys, req.key).data == req.value.json.value
  {
    hide Itoa, Step, Atoi, SucceedsAtOnce, Retried, TookEffect, AppliedAtMostOnce, SendsOnly;
    ghost var base := store.keys;
    var run, calls;
    err, run, calls := store.Set(req, me, sched);
    KnownPatternCalls(req.options.retryPolicy, SetCall(base, store.replicas, req, me, sched), run, err, calls);
    SucceedsUndisturbed(base, store.replicas, req, me, run, err, calls);
  }

  lemma KnownPatternCalls(policy: RetryPolicy, attempt: Attempt<seq<Op>, StoreError>, run: seq<Op>,
                          err: Option<RetryError<StoreError>>, calls: nat)
    requires Retried(policy, attempt, [], run, err, calls) && KnownPattern(policy.pattern)
    ensures calls > 0
  {
  }

  /** Set, then Get, undisturbed: Get shows the bytes that were set, under the next version. */
  method SetThenGet(store: StateStore, req: SetRequest, me: nat, sched: Schedule,
                    flatten: map<string, string> -> seq<string>)
    returns (err: Option<RetryError<StoreError>>, resp: Option<Response>)
    requires MIN_INT64 <= req.options.retryPolicy.interval <= MAX_INT64
    requires KnownPattern(req.options.retryPolicy.pattern) && CarriedVersion(req).Some?
    requires forall m :: Flattens(flatten(m), m)
    requires SoundKeys(store.keys) && AdmitsSet(SlotOf(store.keys, req.key), CarriedVersion(req).value)
    requires sched(0) == Turn([], Delivered, [], false)
    modifies store
    ensures err.None? && resp.Some?
    ensures req.value.raw.Some? ==> resp.value.data == req.value.raw.value
    ensures req.value.raw.None? && req.value.json.Some? ==> resp.value.data == req.value.json.value
    ensures SoundKeys(old(store.keys))
    ensures resp.value.etag == Itoa(Number(SlotOf(old(store.keys), req.key)) + 1)
  {
    hide Itoa, Step, Flattens, ReadOutcome, ReadRun, AnswersFor, AdmitsSet, CarriedVersion, ShowsStored;
    err := SetUndisturbed(store, req, me, sched);
    ghost var mid := store.keys;
    var seen;
    assert After(mid, []) == mid;
    resp, seen := store.Get(req.key, me, Reads([], Delivered, [], Delivered), flatten);
    StoredHashShows(mid, req.key, resp);
  }

  lemma StoredHashShows(keys: Keys, key: string, resp: Option<Response>)
    requires SoundKeys(keys) && SlotOf(keys, key).Live? && ShowsStored(keys, key, resp)
    ensures resp == Some(Response(SlotOf(keys, key).data, Itoa(SlotOf(keys, key).version)))
  {
    hide Itoa;
  }

  /** Op i is the set of the request, and it replaced the given data by its own. */
  ghost predicate Replaced(base: Keys, run: seq<Op>, me: nat, req: SetRequest, data: string, i: nat)
    requires SoundKeys(base)
  {
    && TookEffect(base, run, me, req.key, i)
    && SlotAt(base, run, req.key, i).Live? && SlotAt(base, run, req.key, i).data == data
    && SlotAt(base, run, req.key, i + 1).Live? && SlotAt(base, run, req.key, i + 1).data == Encode(req.value)
  }

  lemma ReplacedAtStart(base: Keys, run: seq<Op>, me: nat, req: SetRequest, i: nat)
    requires SoundKeys(base) && Alive(base, run, req.key) && SlotOf(base, req.key).Live?
    requires req.etag == Shown(SlotOf(base, req.key)).etag
    requires CarriedVersion(req).Some? && req.options.concurrency != LAST_WRITE
    requires TookEffect(base, run, me, req.key, i) && run[i].cmd == SetCommand(req)
    ensures Replaced(base, run, me, req, SlotOf(base, req.key).data, i)
  {
    hide Itoa, Step;
    assert run[..0] == [];
    forall j: nat | j <= i ensures SlotAt(base, run[..i], req.key, j) == SlotAt(base, run, req.key, j) {
      assert run[..i][..j] == run[..j];
    }
    assert Alive(base, run[..i], req.key);
    SetReplacesWhatGetShowed(base, run, req, 0, i);
  }

  lemma GetLeavesKeys(keys: Keys, seen: seq<Op>, me: nat, key: string)
    ensures After(keys, seen + [Op(me, HGetAll(key))]) == After(keys, seen)
  {
    assert (seen + [Op(me, HGetAll(key))])[..|seen|] == seen;
  }

  lemma ReadETagParses(n: int)
    requires 1 <= n <= MAX_INT64
    ensures ParseETag(Itoa(n)) == Some(n)
  {
    VersionTextFacts(n);
    ItoaRoundTrip(n);
  }
}
