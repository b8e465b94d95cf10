/**
 state/zookeeper/zk.go: single operations under the retry loop, with other clients and lost messages in
 between. The batch operations are in ZkBulk.
 */
module ZkStore {
  import opened Common
  import opened Decimal
  import opened Requests
  import opened Retry
  import opened ZkServer

  datatype Turn = Turn(before: seq<Op>, first: Fate, between: seq<Op>, second: Fate)

  type Schedule = nat -> Turn

  // ----- Building requests -----

  /** parseETag: anything that is not a number, and no ETag at all, means any version. */
  function ParseETag(etag: string): (version: int)
    ensures -0x8000_0000 <= version <= 0x7FFF_FFFF
  {
    var v := Atoi(etag);
    if v.Some? then Wrap32(v.value) else ANY_VERSION
  }

  function Version(options: Options, etag: string): int {
    if options.concurrency == LAST_WRITE then ANY_VERSION else ParseETag(etag)
  }

  /** marshalData: byte slices as they are, everything else through the encoder, which may fail. */
  function Marshal(value: Payload): Option<string> {
    if value.raw.Some? then value.raw else value.json
  }

  /** newSetDataRequest. None is an error. */
  function NewSetData(prefix: string -> string, req: SetRequest): (r: Option<Request>)
    ensures r.None? <==> !SupportedOptions(req.options) || (req.value.raw.None? && req.value.json.None?)
    ensures r.Some? ==> r.value.SetData? && r.value.path == prefix(req.key)
    ensures r.Some? ==> r.value.data == if req.value.raw.Some? then req.value.raw.value else req.value.json.value
  {
    if !SupportedOptions(req.options) || Marshal(req.value).None? then None
    else Some(SetData(prefix(req.key), Marshal(req.value).value, Version(req.options, req.etag)))
  }

  /** newDeleteRequest. */
  function NewDelete(prefix: string -> string, req: DeleteRequest): (r: Option<Request>)
    ensures r.None? <==> !SupportedOptions(req.options)
    ensures r.Some? ==> r.value.Delete? && r.value.path == prefix(req.key)
  {
    if !SupportedOptions(req.options) then None
    else Some(Delete(prefix(req.key), Version(req.options, req.etag)))
  }

  /** The ETag that Get shows for a node: Itoa of its version. */
  function ShownETag(n: Node): string {
    Itoa(VersionOf(n))
  }

  /**
   What an ETag demands of a node: nothing for last-write, for text that is no 64-bit decimal and for numbers
   congruent to -1; else that the number and the node's count of sets agree in their low 32 bits.
   */
  predicate Accepts(options: Options, etag: string, n: Node) {
    || options.concurrency == "last-write"
    || Atoi(etag).None?
    || (Atoi(etag).value + 1) % TWO_TO_THE_32 == 0
    || (Atoi(etag).value - n.sets) % TWO_TO_THE_32 == 0
  }

  /** The requests built for a set and for a delete match exactly the nodes their ETags accept. */
  lemma ETagDecides(prefix: string -> string, upd: SetRequest, del: DeleteRequest, n: Node)
    ensures NewSetData(prefix, upd).Some? ==>
      (Matches(NewSetData(prefix, upd).value.version, n) <==> Accepts(upd.options, upd.etag, n))
    ensures NewDelete(prefix, del).Some? ==>
      (Matches(NewDelete(prefix, del).value.version, n) <==> Accepts(del.options, del.etag, n))
  {
    VersionDecides(upd.options, upd.etag, n);
    VersionDecides(del.options, del.etag, n);
  }

  lemma VersionDecides(options: Options, etag: string, n: Node)
    ensures Matches(Version(options, etag), n) <==> Accepts(options, etag, n)
  {
    hide Atoi;
    if Atoi(etag).Some? {
      WrapCongruent(Atoi(etag).value, n.sets);
      WrapCongruent(Atoi(etag).value, ANY_VERSION);
    }
  }

  lemma WrapCongruent(a: int, b: int)
    ensures Wrap32(a) == Wrap32(b) <==> (a - b) % TWO_TO_THE_32 == 0
  {
  }

  /**
   The plain cases: the decimal text of a 32-bit version other than -1 accepts just that version, unless
   last-write; no ETag at all accepts every version.
   */
  lemma PlainETags(options: Options, v: int, n: Node)
    requires -0x8000_0000 <= v <= 0x7FFF_FFFF && v != ANY_VERSION && options.concurrency != "last-write"
    ensures Accepts(options, Itoa(v), n) <==> VersionOf(n) == v
    ensures Accepts(options, "", n)
  {
    ItoaRoundTrip(v);
    hide Atoi, Itoa;
    WrapCongruent(v, n.sets);
    WrapCongruent(v, ANY_VERSION);
    assert Atoi("").None? by {
      NoNumber();
    }
  }

  lemma NoNumber()
    ensures Atoi("").None?
  {
  }

  /** Round trip: a set that carries the ETag just shown is applied and counts one more set. */
  lemma ETagRoundTrip(nodes: Nodes, prefix: string -> string, req: SetRequest)
    requires prefix(req.key) in nodes && req.etag == ShownETag(nodes[prefix(req.key)])
    requires NewSetData(prefix, req).Some?
    ensures var path, r := prefix(req.key), NewSetData(prefix, req).value;
      && (req.options.concurrency != LAST_WRITE ==> r.version == VersionOf(nodes[path]))
      && Step(nodes, r) == (nodes[path := Node(r.data, nodes[path].sets + 1)], None)
  {
    ItoaRoundTrip(VersionOf(nodes[prefix(req.key)]));
  }

  /** A last-write set is applied to an existing node whatever its ETag. */
  lemma LastWriteWins(nodes: Nodes, prefix: string -> string, req: SetRequest)
    requires prefix(req.key) in nodes && NewSetData(prefix, req).Some? && req.options.concurrency == LAST_WRITE
    ensures Step(nodes, NewSetData(prefix, req).value).1.None?
  {
  }

  /**
   When an ETag protects nothing: it is not a 64-bit decimal, or it is one that the cast to 32 bits
   turns into the wildcard.
   */
  lemma ETagIsWildcard(etag: string)
    ensures ParseETag(etag) == ANY_VERSION <==>
      Atoi(etag).None? || (Atoi(etag).value + 1) % TWO_TO_THE_32 == 0
  {
  }

  // ----- One attempt -----

  function Send(base: Nodes, run: seq<Op>, op: Op, fate: Fate): (seq<Op>, Option<ErrorCode>) {
    match fate
    case Delivered => (run + [op], Step(After(base, run), op.req).1)
    case ReplyLost => (run + [op], Some(Disconnected))
    case RequestLost => (run, Some(Disconnected))
  }

  /** The closure in Set: set-data, and create when the node is missing. */
  function SetAttempt(base: Nodes, r: Request, me: nat, run: seq<Op>, turn: Turn): (seq<Op>, Option<ErrorCode>)
    requires r.SetData?
  {
    var (sent, res) := Send(base, run + turn.before, Op(me, r), turn.first);
    if res == Some(NoNode) then Send(base, sent + turn.between, Op(me, Create(r.path, r.data)), turn.second)
    else (sent, res)
  }

  function SetCall(base: Nodes, r: Request, me: nat, sched: Schedule): Attempt<seq<Op>, ErrorCode>
    requires r.SetData?
  {
    (run: seq<Op>, i: nat) => SetAttempt(base, r, me, run, sched(i))
  }

  /** The closure in Delete: a missing node counts as deleted. */
  function DeleteAttempt(base: Nodes, r: Request, me: nat, run: seq<Op>, turn: Turn)
    : (seq<Op>, Option<ErrorCode>)
  {
    var (sent, res) := Send(base, run + turn.before, Op(me, r), turn.first);
    (sent, if res == Some(NoNode) then None else res)
  }

  function DeleteCall(base: Nodes, r: Request, me: nat, sched: Schedule): Attempt<seq<Op>, ErrorCode> {
    (run: seq<Op>, i: nat) => DeleteAttempt(base, r, me, run, sched(i))
  }

  // ----- What retried attempts add up to -----

  ghost predicate Foreign(ops: seq<Op>, me: nat) {
    forall i :: 0 <= i < |ops| ==> ops[i].caller != me
  }

  ghost predicate ForeignSchedule(sched: Schedule, me: nat) {
    forall t: nat :: Foreign(sched(t).before, me) && Foreign(sched(t).between, me)
  }

  /** Call me sent only r and the create derived from it. */
  ghost predicate SendsOnly(run: seq<Op>, me: nat, r: Request)
    requires r.SetData?
  {
    forall i :: 0 <= i < |run| && run[i].caller == me ==> run[i].req == r || run[i].req == Create(r.path, r.data)
  }

  predicate TookEffect(base: Nodes, run: seq<Op>, me: nat, path: string, i: nat) {
    i < |run| && run[i].caller == me && Applied(base, run, path, i)
  }

  ghost predicate AppliedAtMostOnce(base: Nodes, run: seq<Op>, me: nat, path: string) {
    forall i: nat, j: nat :: TookEffect(base, run, me, path, i) && TookEffect(base, run, me, path, j) ==> i == j
  }

  lemma AttemptSends(base: Nodes, r: Request, me: nat, run: seq<Op>, turn: Turn)
    requires r.SetData? && SendsOnly(run, me, r)
    requires Foreign(turn.before, me) && Foreign(turn.between, me)
    ensures SendsOnly(SetAttempt(base, r, me, run, turn).0, me, r)
  {
    hide Step, After;
  }

  lemma {:induction false} AttemptsSend(base: Nodes, r: Request, me: nat, sched: Schedule, n: nat)
    requires r.SetData? && ForeignSchedule(sched, me)
    ensures SendsOnly(WorldAfter(SetCall(base, r, me, sched), [], n), me, r)
  {
    hide Step, After, SetAttempt;
    if n > 0 {
      AttemptsSend(base, r, me, sched, n - 1);
      var attempt := SetCall(base, r, me, sched);
      var run := WorldAfter(attempt, [], n - 1);
      AttemptSends(base, r, me, run, sched(n - 1));
      assert attempt(run, n - 1) == SetAttempt(base, r, me, run, sched(n - 1));
    }
  }

  lemma SuccessTookEffect(base: Nodes, r: Request, me: nat, run: seq<Op>, turn: Turn) returns (i: nat)
    requires r.SetData? && SetAttempt(base, r, me, run, turn).1.None?
    ensures var after := SetAttempt(base, r, me, run, turn).0;
      && TookEffect(base, after, me, r.path, i)
      && (after[i].req == r || after[i].req == Create(r.path, r.data))
      && i + 1 == |after| && r.path in After(base, after) && After(base, after)[r.path].data == r.data
  {
    var seen := run + turn.before;
    var after := SetAttempt(base, r, me, run, turn).0;
    i := |after| - 1;
    if Send(base, seen, Op(me, r), turn.first).1.None? {
      assert after[..i] == seen && after[i].req == r;
    } else {
      assert after[..i] == seen + [Op(me, r)] + turn.between;
    }
  }

  /** What one attempt of Set needs of the network and of the node it finds. */
  ghost predicate Succeeds(base: Nodes, r: Request, run: seq<Op>, turn: Turn)
    requires r.SetData?
  {
    var here := After(base, run + turn.before);
    && turn.first.Delivered?
    && if r.path in here then Matches(r.version, here[r.path])
       else turn.second.Delivered? && r.path !in After(here, turn.between)
  }

  /** The nodes it then leaves. */
  ghost function Written(base: Nodes, r: Request, run: seq<Op>, turn: Turn): Nodes
    requires r.SetData?
  {
    var here := After(base, run + turn.before);
    if r.path in here then here[r.path := Node(r.data, here[r.path].sets + 1)]
    else After(here, turn.between)[r.path := Node(r.data, 0)]
  }

  /** Exactly when one attempt of Set succeeds, and what it then leaves. */
  lemma AttemptSucceeds(base: Nodes, r: Request, me: nat, run: seq<Op>, turn: Turn)
    requires r.SetData?
    ensures var (after, err) := SetAttempt(base, r, me, run, turn);
      && (err.None? <==> Succeeds(base, r, run, turn))
      && (err.None? ==> After(base, after) == Written(base, r, run, turn))
      && (err.Some? ==>
          err.value == if !turn.first.Delivered? then Disconnected
                       else if r.path in After(base, run + turn.before) then BadVersion
                       else if !turn.second.Delivered? then Disconnected else NodeExists)
  {
    hide Matches, After;
    var seen := run + turn.before;
    var sent := seen + [Op(me, r)];
    AfterSnoc(base, seen, Op(me, r));
    AfterConcat(base, sent, turn.between);
    AfterSnoc(base, sent + turn.between, Op(me, Create(r.path, r.data)));
  }

  /** And one attempt of Delete, which succeeds on a missing node and on a matching one. */
  lemma DeleteSucceeds(base: Nodes, r: Request, me: nat, run: seq<Op>, turn: Turn)
    requires r.Delete?
    ensures var here := After(base, run + turn.before);
      var (after, err) := DeleteAttempt(base, r, me, run, turn);
      && (err.None? <==> turn.first.Delivered? && (r.path in here ==> Matches(r.version, here[r.path])))
      && (err.None? ==> after == run + turn.before + [Op(me, r)] && After(base, after) == here - {r.path})
      && (err.Some? ==> err.value == if turn.first.Delivered? then BadVersion else Disconnected)
  {
    hide Matches;
    var seen := run + turn.before;
    assert (seen + [Op(me, r)])[..|seen|] == seen;
  }

  /**
   At most once: two effects of the attempts of a conditional set within one lifetime of its node are one,
   exactly if the node was set fewer than 2^32 times from the one to the other.
   */
  lemma AtMostOnce(base: Nodes, run: seq<Op>, me: nat, r: Request, i: nat, j: nat)
    requires r.SetData? && r.version != ANY_VERSION
    requires Alive(base, run, r.path) && SendsOnly(run, me, r)
    requires TookEffect(base, run, me, r.path, i) && TookEffect(base, run, me, r.path, j) && i <= j
    ensures i == j <==> SetsBetween(base, run, r.path, i, j) < TWO_TO_THE_32
  {
    hide Matches;
    assert r.path in At(base, run, i) && r.path in At(base, run, j);
    NoLostUpdate(base, run, r.path, i, j);
  }

  /** The node exists throughout the run, and is set fewer than 2^32 times in it. */
  ghost predicate OneLifetime(base: Nodes, run: seq<Op>, path: string) {
    Alive(base, run, path) && SetsBetween(base, run, path, 0, |run|) < TWO_TO_THE_32
  }

  /** Exactly once, as for Redis: at most one effect in one lifetime, and the last attempt's if it succeeded. */
  lemma ExactlyOnce(base: Nodes, r: Request, me: nat, sched: Schedule, n: nat)
    requires r.SetData? && r.version != ANY_VERSION && ForeignSchedule(sched, me)
    requires OneLifetime(base, WorldAfter(SetCall(base, r, me, sched), [], n), r.path)
    ensures AppliedAtMostOnce(base, WorldAfter(SetCall(base, r, me, sched), [], n), me, r.path)
    ensures n > 0 && ErrorOf(SetCall(base, r, me, sched), [], n - 1).None? ==>
      var run := WorldAfter(SetCall(base, r, me, sched), [], n);
      |run| > 0 && TookEffect(base, run, me, r.path, |run| - 1)
  {
    hide Step, SetAttempt;
    var attempt := SetCall(base, r, me, sched);
    var run := WorldAfter(attempt, [], n);
    AttemptsSend(base, r, me, sched, n);
    forall i: nat, j: nat | TookEffect(base, run, me, r.path, i) && TookEffect(base, run, me, r.path, j)
      ensures i == j
    {
      var early, late := if i <= j then i else j, if i <= j then j else i;
      SetsBetweenAtMost(base, run, r.path, early, late);
      AtMostOnce(base, run, me, r, early, late);
    }
    if n > 0 && ErrorOf(attempt, [], n - 1).None? {
      var last := WorldAfter(attempt, [], n - 1);
      assert attempt(last, n - 1) == SetAttempt(base, r, me, last, sched(n - 1));
      var i := SuccessTookEffect(base, r, me, last, sched(n - 1));
    }
  }

  // ----- When a retried set takes effect twice -----

  /** Ops i and j are two effects of call me, with fewer than 2^32 sets of the node from the one to the other. */
  ghost predicate TwoEffects(base: Nodes, run: seq<Op>, me: nat, path: string, i: nat, j: nat) {
    && i < j && TookEffect(base, run, me, path, i) && TookEffect(base, run, me, path, j)
    && Count(At(base, run, j), path) - Count(At(base, run, i), path) < TWO_TO_THE_32
  }

  /** A run of the retry loop under a policy with two effects, among commands none of which deletes the node. */
  ghost predicate RepeatsUnder(base: Nodes, policy: RetryPolicy, r: Request, me: nat, sched: Schedule,
                               n: nat, err: Option<RetryError<ErrorCode>>)
    requires r.SetData?
  {
    var attempt := SetCall(base, r, me, sched);
    var run := WorldAfter(attempt, [], n);
    && ForeignSchedule(sched, me)
    && Retried(policy, attempt, [], run, err, n)
    && (forall i: nat :: i < |run| ==> !Ends(base, run, r.path, i))
    && exists i: nat, j: nat :: TwoEffects(base, run, me, r.path, i, j)
  }

  /**
   Why the hypotheses are there: some losses and some commands of others make a set take effect twice
   exactly when the policy allows a second attempt, and the set is unconditional or its node was missing when
   the call began.
   */
  lemma RetriedSetRepeats(base: Nodes, policy: RetryPolicy, r: Request, me: nat)
    requires r.SetData? && -0x8000_0000 <= r.version <= 0x7FFF_FFFF
    ensures (exists sched: Schedule, n: nat, err :: RepeatsUnder(base, policy, r, me, sched, n, err))
       <==> RetriesOnFailure(policy) && (r.version == ANY_VERSION || r.path !in base)
  {
    hide Step, SetAttempt, TwoEffects;
    if RetriesOnFailure(policy) && (r.version == ANY_VERSION || r.path !in base) {
      RepetitionHappens(base, policy, r, me);
    }
    if exists sched: Schedule, n: nat, err :: RepeatsUnder(base, policy, r, me, sched, n, err) {
      var sched: Schedule, n: nat, err :| RepeatsUnder(base, policy, r, me, sched, n, err);
      var run := WorldAfter(SetCall(base, r, me, sched), [], n);
      AttemptsSend(base, r, me, sched, n);
      var i: nat, j: nat :| TwoEffects(base, run, me, r.path, i, j);
      RepetitionNeeds(base, run, me, r, i, j);
      TwoEffectsTwoAttempts(base, r, me, sched, n, i, j);
    }
  }

  /** Only the last command of a single attempt takes effect: a create is sent only after a set-data that did not. */
  lemma TwoEffectsTwoAttempts(base: Nodes, r: Request, me: nat, sched: Schedule, n: nat, i: nat, j: nat)
    requires r.SetData? && ForeignSchedule(sched, me)
    requires TwoEffects(base, WorldAfter(SetCall(base, r, me, sched), [], n), me, r.path, i, j)
    ensures n >= 2
  {
    hide Step, SetAttempt;
    if n == 1 {
      var attempt := SetCall(base, r, me, sched);
      assert WorldAfter(attempt, [], 0) == [];
      assert attempt([], 0) == SetAttempt(base, r, me, [], sched(0));
      LastTakesEffect(base, r, me, sched(0), i);
    }
  }

  lemma LastTakesEffect(base: Nodes, r: Request, me: nat, turn: Turn, i: nat)
    requires r.SetData? && Foreign(turn.before, me) && Foreign(turn.between, me)
    requires TookEffect(base, SetAttempt(base, r, me, [], turn).0, me, r.path, i)
    ensures i == |SetAttempt(base, r, me, [], turn).0| - 1
  {
    hide Step, After;
    var run := SetAttempt(base, r, me, [], turn).0;
    assert [] + turn.before == turn.before;
    if i == |turn.before| {
      assert run[..i] == turn.before && run[i].req == r;
    }
  }

  lemma RepetitionNeeds(base: Nodes, run: seq<Op>, me: nat, r: Request, i: nat, j: nat)
    requires r.SetData? && SendsOnly(run, me, r) && TwoEffects(base, run, me, r.path, i, j)
    requires forall p: nat :: p < |run| ==> !Ends(base, run, r.path, p)
    ensures r.version == ANY_VERSION || r.path !in base
  {
    hide Step;
    if r.version != ANY_VERSION && r.path in base {
      assert run[..0] == [];
      forall p | 0 <= p <= |run| ensures r.path in At(base, run, p) {
        StaysAlive(base, run, r.path, 0, p);
      }
      AtMostOnce(base, run, me, r, i, j);
    }
  }

  /** The first attempt loses a reply, the one to create or the one to set-data, and others write before the second. */
  function LostThen(create: bool, others: seq<Op>): Schedule {
    (t: nat) =>
      if t > 0 then Turn(others, Delivered, [], Delivered)
      else if create then Turn([], Delivered, [], ReplyLost)
      else Turn([], ReplyLost, [], Delivered)
  }

  /** Others' sets that bring the version of a new node to the one the call carries. */
  function Padding(r: Request, me: nat): (others: seq<Op>)
    requires r.SetData? && -0x8000_0000 <= r.version <= 0x7FFF_FFFF
    ensures |others| < TWO_TO_THE_32
    ensures r.version == ANY_VERSION || r.version == Wrap32(|others|)
  {
    var m := if r.version == ANY_VERSION then 0 else if r.version < 0 then r.version + TWO_TO_THE_32 else r.version;
    seq(m, _ => Op(me + 1, SetData(r.path, "", ANY_VERSION)))
  }

  /** A create of a missing node, sets of others, and the retried set-data. */
  lemma RepetitionAfterCreate(base: Nodes, r: Request, me: nat, run: seq<Op>)
    requires r.SetData? && -0x8000_0000 <= r.version <= 0x7FFF_FFFF && r.path !in base
    requires run == [Op(me, r), Op(me, Create(r.path, r.data))] + Padding(r, me) + [Op(me, r)]
    ensures TwoEffects(base, run, me, r.path, 1, |run| - 1)
  {
    hide Wrap32;
    var others := Padding(r, me);
    var n := |run| - 1;
    assert run[..0] == [];
    AtNext(base, run, 0);
    AtNext(base, run, 1);
    assert forall p :: 2 <= p < n ==> run[p] == others[p - 2];
    SetsCountUp(base, run, r.path, 2, n);
  }

  lemma RepetitionHappens(base: Nodes, policy: RetryPolicy, r: Request, me: nat)
    requires r.SetData? && -0x8000_0000 <= r.version <= 0x7FFF_FFFF && RetriesOnFailure(policy)
    requires r.version == ANY_VERSION || r.path !in base
    ensures exists sched: Schedule, n: nat, err :: RepeatsUnder(base, policy, r, me, sched, n, err)
  {
    hide Step, Wrap32, SetAttempt;
    var others := if r.path in base then [] else Padding(r, me);
    var sched := LostThen(r.path !in base, others);
    var attempt := SetCall(base, r, me, sched);
    LostThenRuns(base, r, me, others);
    var run := WorldAfter(attempt, [], 2);
    if r.path in base {
      RepetitionOfWildcard(base, r, me, run);
      assert TwoEffects(base, run, me, r.path, 0, 1);
    } else {
      RepetitionAfterCreate(base, r, me, run);
      assert TwoEffects(base, run, me, r.path, 1, |run| - 1);
    }
    assert run[..|run| - 1] == Begun(base, r, me) + others;
    assert RepeatsUnder(base, policy, r, me, sched, 2, None);
  }

  lemma RepetitionOfWildcard(base: Nodes, r: Request, me: nat, run: seq<Op>)
    requires r.SetData? && r.version == ANY_VERSION && r.path in base && run == [Op(me, r), Op(me, r)]
    ensures TwoEffects(base, run, me, r.path, 0, 1)
  {
    assert run[..0] == [];
    AtNext(base, run, 0);
  }

  /** What such a first attempt sends. */
  function Begun(base: Nodes, r: Request, me: nat): seq<Op>
    requires r.SetData?
  {
    if r.path in base then [Op(me, r)] else [Op(me, r), Op(me, Create(r.path, r.data))]
  }

  lemma {:induction false} LostThenRuns(base: Nodes, r: Request, me: nat, others: seq<Op>)
    requires r.SetData? && forall p :: 0 <= p < |others| ==> others[p].req == SetData(r.path, "", ANY_VERSION)
    ensures var attempt := SetCall(base, r, me, LostThen(r.path !in base, others));
      && ErrorOf(attempt, [], 0).Some?
      && WorldAfter(attempt, [], 2) == Begun(base, r, me) + others + [Op(me, r)]
      && ErrorOf(attempt, [], 1) == Step(After(base, Begun(base, r, me) + others), r).1
  {
    hide Wrap32;
    var sched := LostThen(r.path !in base, others);
    var attempt := SetCall(base, r, me, sched);
    var first := WorldAfter(attempt, [], 1);
    var op, create := Op(me, r), Op(me, Create(r.path, r.data));
    assert attempt([], 0) == SetAttempt(base, r, me, [], sched(0));
    assert [op] + [] == [op] && [op] + [create] == [op, create];
    assert first == Begun(base, r, me);
    assert attempt(first, 1) == SetAttempt(base, r, me, first, sched(1));
    assert WorldAfter(attempt, [], 2) == attempt(first, 1).0;
    FoundOnRetry(base, r, me, others);
  }

  /** The retried set-data finds the node, so no second create is sent. */
  lemma FoundOnRetry(base: Nodes, r: Request, me: nat, others: seq<Op>)
    requires r.SetData? && forall p :: 0 <= p < |others| ==> others[p].req == SetData(r.path, "", ANY_VERSION)
    ensures r.path in After(base, Begun(base, r, me) + others)
  {
    hide Wrap32;
    var first := Begun(base, r, me);
    var run := first + others;
    assert run[..0] == [] && run[..|run|] == run;
    AtNext(base, run, 0);
    if r.path !in base {
      AtNext(base, run, 1);
    }
    SetsCountUp(base, run, r.path, |first|, |run|);
  }

  // ----- When a retried delete removes a successor -----

  /**
   A retried delete and the node somebody created in between. After a delete that removed the node or found
   none, the node exists again exactly if a create applied since then was left standing; the next attempt
   removes it exactly if, moreover, its version is the wildcard or the 32-bit count of the sets since.
   */
  lemma RetriedDeleteRemovesSuccessor(base: Nodes, run: seq<Op>, path: string, i: nat, j: nat)
    requires i < j < |run| && run[i].req.Delete? && run[i].req.path == path
    requires Step(At(base, run, i), run[i].req).1.None? || Step(At(base, run, i), run[i].req).1 == Some(NoNode)
    requires run[j].req.Delete? && run[j].req.path == path
    ensures path in At(base, run, j) <==> exists p: nat :: i < p && RevivedBy(base, run, path, p, j)
    ensures Applied(base, run, path, j) <==>
      && (exists p: nat :: i < p && RevivedBy(base, run, path, p, j))
      && run[j].req.version in {ANY_VERSION, Wrap32(SetsSinceBirth(base, run, path, j, Count(base, path)))}
  {
    hide Wrap32, RevivedBy, SetsSinceBirth;
    AtNext(base, run, i);
    ExistsIffRevived(base, run, path, i + 1, j);
    VersionAccounting(base, run, path, j);
  }

  // ----- The store -----

  datatype Response = Response(data: string, etag: string)

  /** The first attempt of a call, by the turn the environment gives it. */
  lemma FirstAttempt(base: Nodes, r: Request, me: nat, sched: Schedule)
    requires r.SetData?
    ensures var attempt := SetCall(base, r, me, sched);
      && (ErrorOf(attempt, [], 0).None? <==> Succeeds(base, r, [], sched(0)))
      && (ErrorOf(attempt, [], 0).None? ==>
          After(base, WorldAfter(attempt, [], 1)) == Written(base, r, [], sched(0)))
  {
    hide Step, SetAttempt, Succeeds, Written;
    var attempt := SetCall(base, r, me, sched);
    assert attempt([], 0) == SetAttempt(base, r, me, [], sched(0));
    assert WorldAfter(attempt, [], 0) == [];
    assert WorldAfter(attempt, [], 1) == attempt([], 0).0;
    AttemptSucceeds(base, r, me, [], sched(0));
  }

  lemma FirstDelete(base: Nodes, r: Request, me: nat, sched: Schedule)
    requires r.Delete?
    ensures var attempt := DeleteCall(base, r, me, sched);
      var here := After(base, sched(0).before);
      && (ErrorOf(attempt, [], 0).None? <==>
          sched(0).first.Delivered? && (r.path in here ==> Matches(r.version, here[r.path])))
      && (ErrorOf(attempt, [], 0).None? ==> After(base, WorldAfter(attempt, [], 1)) == here - {r.path})
  {
    hide Step, DeleteAttempt, Matches;
    var attempt := DeleteCall(base, r, me, sched);
    assert attempt([], 0) == DeleteAttempt(base, r, me, [], sched(0));
    assert WorldAfter(attempt, [], 0) == [];
    assert WorldAfter(attempt, [], 1) == attempt([], 0).0;
    assert [] + sched(0).before == sched(0).before;
    DeleteSucceeds(base, r, me, [], sched(0));
  }

  lemma DeleteByETag(prefix: string -> string, req: DeleteRequest)
    requires NewDelete(prefix, req).Some?
    ensures forall n: Node :: Matches(NewDelete(prefix, req).value.version, n) <==> Accepts(req.options, req.etag, n)
  {
    hide Matches, Accepts;
    forall n: Node
      ensures Matches(NewDelete(prefix, req).value.version, n) <==> Accepts(req.options, req.etag, n)
    {
      VersionDecides(req.options, req.etag, n);
    }
  }

  lemma FirstSetByETag(base: Nodes, prefix: string -> string, req: SetRequest, turn: Turn)
    requires NewSetData(prefix, req).Some?
    ensures var path, here := prefix(req.key), After(base, turn.before);
      path in here ==>
        (Succeeds(base, NewSetData(prefix, req).value, [], turn) <==>
          turn.first.Delivered? && Accepts(req.options, req.etag, here[path]))
  {
    hide Matches, Accepts, Step;
    var here := After(base, turn.before);
    assert [] + turn.before == turn.before;
    if prefix(req.key) in here {
      VersionDecides(req.options, req.etag, here[prefix(req.key)]);
    }
  }

  class StateStore {
    const prefix: string -> string
    var nodes: Nodes

    constructor (prefix: string -> string, nodes: Nodes)
      ensures this.prefix == prefix && this.nodes == nodes
    {
      this.prefix := prefix;
      this.nodes := nodes;
    }

    /** Set: the request is built once, the attempts are retried. None as err is success. */
    method Set(req: SetRequest, me: nat, sched: Schedule)
      returns (err: Option<RetryError<ErrorCode>>, run: seq<Op>, calls: nat)
      requires MIN_INT64 <= req.options.retryPolicy.interval <= MAX_INT64
      modifies this
      ensures nodes == After(old(nodes), run)
      ensures NewSetData(prefix, req).None? ==> err == Some(Single(InvalidRequest)) && run == [] && calls == 0
      ensures NewSetData(prefix, req).Some? ==>
                var attempt := SetCall(old(nodes), NewSetData(prefix, req).value, me, sched);
                Retried(req.options.retryPolicy, attempt, [], run, err, calls)
      // If the first attempt gets through and is admitted, it is the only one and the call succeeds.
      ensures calls > 0 ==>
                var r := NewSetData(prefix, req).value;
                Succeeds(old(nodes), r, [], sched(0)) ==>
                  err.None? && calls == 1 && nodes == Written(old(nodes), r, [], sched(0))
      // On an existing node that is exactly if the messages get through and its ETag is accepted.
      ensures calls > 0 && prefix(req.key) in After(old(nodes), sched(0).before) ==>
                (err.None? && calls == 1 <==>
                  && sched(0).first.Delivered?
                  && Accepts(req.options, req.etag, After(old(nodes), sched(0).before)[prefix(req.key)]))
      // The data is the bytes of a byte slice and the JSON text of anything else, which must exist.
      ensures err.None? ==>
                && (req.value.raw.Some? || req.value.json.Some?) && prefix(req.key) in nodes
                && nodes[prefix(req.key)].data ==
                   if req.value.raw.Some? then req.value.raw.value else req.value.json.value
      // Success: the last thing that happened was this call's write.
      ensures err.None? ==>
                && NewSetData(prefix, req).Some?
                && var r := NewSetData(prefix, req).value;
                  && |run| > 0 && TookEffect(old(nodes), run, me, r.path, |run| - 1)
                  && (run[|run| - 1].req == r || run[|run| - 1].req == Create(r.path, r.data))
                  && r.path in nodes && nodes[r.path].data == r.data
      // Conditional, within one lifetime: at most once, with or without success.
      ensures && NewSetData(prefix, req).Some? && NewSetData(prefix, req).value.version != ANY_VERSION
              && ForeignSchedule(sched, me) && OneLifetime(old(nodes), run, prefix(req.key)) ==>
                AppliedAtMostOnce(old(nodes), run, me, prefix(req.key))
    {
      hide Step, SetAttempt, Succeeds, Written, Accepts, Matches;
      var built := NewSetData(prefix, req);
      if built.None? {
        return Some(Single(InvalidRequest)), [], 0;
      }
      var base, r := nodes, built.value;
      var sleeps;
      run, err, calls, sleeps := WithRetries(req.options.retryPolicy, SetCall(base, r, me, sched), []);
      nodes := After(base, run);
      ghost var attempt := SetCall(base, r, me, sched);
      FirstAttempt(base, r, me, sched);
      FirstSetByETag(base, prefix, req, sched(0));
      if err.None? {
        ghost var last := WorldAfter(attempt, [], calls - 1);
        assert attempt(last, calls - 1) == SetAttempt(base, r, me, last, sched(calls - 1));
        ghost var i := SuccessTookEffect(base, r, me, last, sched(calls - 1));
      }
      if ForeignSchedule(sched, me) && r.version != ANY_VERSION && OneLifetime(base, run, r.path) {
        ExactlyOnce(base, r, me, sched, calls);
      }
    }

    /** Delete. */
    method Delete(req: DeleteRequest, me: nat, sched: Schedule)
      returns (err: Option<RetryError<ErrorCode>>, run: seq<Op>, calls: nat)
      requires MIN_INT64 <= req.options.retryPolicy.interval <= MAX_INT64
      modifies this
      ensures nodes == After(old(nodes), run)
      ensures NewDelete(prefix, req).None? ==> err == Some(Single(InvalidRequest)) && run == [] && calls == 0
      ensures NewDelete(prefix, req).Some? ==>
                var attempt := DeleteCall(old(nodes), NewDelete(prefix, req).value, me, sched);
                Retried(req.options.retryPolicy, attempt, [], run, err, calls)
      // The first attempt succeeds exactly if it gets through and finds a node its ETag accepts, or none.
      ensures calls > 0 ==>
                var path, here := prefix(req.key), After(old(nodes), sched(0).before);
                && (err.None? && calls == 1 <==>
                    sched(0).first.Delivered? && (path in here ==> Accepts(req.options, req.etag, here[path])))
                && (err.None? && calls == 1 ==> nodes == here - {path})
      // Success: the last thing that happened was this call's delete, of a node with its version or of none.
      ensures err.None? ==>
                && NewDelete(prefix, req).Some?
                && var r := NewDelete(prefix, req).value;
                  && |run| > 0 && run[|run| - 1] == Op(me, r)
                  && var here := At(old(nodes), run, |run| - 1);
                    && (r.path in here ==> Accepts(req.options, req.etag, here[r.path]))
                    && nodes == here - {r.path}
    {
      hide Step, DeleteAttempt, Matches, Accepts;
      var built := NewDelete(prefix, req);
      if built.None? {
        return Some(Single(InvalidRequest)), [], 0;
      }
      var base, r := nodes, built.value;
      var sleeps;
      run, err, calls, sleeps := WithRetries(req.options.retryPolicy, DeleteCall(base, r, me, sched), []);
      nodes := After(base, run);
      ghost var attempt := DeleteCall(base, r, me, sched);
      FirstDelete(base, r, me, sched);
      DeleteByETag(prefix, req);
      if err.None? {
        ghost var last := WorldAfter(attempt, [], calls - 1);
        assert attempt(last, calls - 1) == DeleteAttempt(base, r, me, last, sched(calls - 1));
        DeleteSucceeds(base, r, me, last, sched(calls - 1));
        assert run[..|run| - 1] == last + sched(calls - 1).before;
      }
    }

    /** Get: a missing node is an error, None. */
    method Get(key: string, before: seq<Op>, reached: bool) returns (resp: Option<Response>)
      modifies this
      ensures nodes == After(old(nodes), before)
      ensures resp.Some? <==> reached && prefix(key) in nodes
      ensures resp.Some? ==>
                && resp.value.data == nodes[prefix(key)].data
                && resp.value.etag == Itoa(Wrap32(nodes[prefix(key)].sets))
    {
      nodes := After(nodes, before);
      if !reached || prefix(key) !in nodes {
        return None;
      }
      return Some(Response(nodes[prefix(key)].data, ShownETag(nodes[prefix(key)])));
    }
  }

  /**
   The optimistic update a client writes: Get, then Set with the ETag that Get showed. run is what the server
   executed after the read.
   */
  method GetThenSet(store: StateStore, key: string, value: Payload, options: Options, me: nat,
                    before: seq<Op>, sched: Schedule)
    returns (resp: Option<Response>, err: Option<RetryError<ErrorCode>>, run: seq<Op>, calls: nat)
    requires MIN_INT64 <= options.retryPolicy.interval <= MAX_INT64
    requires store.prefix(key) in After(store.nodes, before)
    modifies store
    ensures resp.Some?
    ensures var path, read := store.prefix(key), After(old(store.nodes), before);
      && store.nodes == After(read, run)
      && resp.value == Response(read[path].data, ShownETag(read[path]))
    ensures var built := NewSetData(store.prefix, SetRequest(key, value, resp.value.etag, options));
      if built.None? then err.Some? && run == [] && calls == 0
      else
        var attempt := SetCall(After(old(store.nodes), before), built.value, me, sched);
        Retried(options.retryPolicy, attempt, [], run, err, calls)
    // If nobody interferes the update succeeds and counts as one more set of the node.
    ensures var path, read := store.prefix(key), After(old(store.nodes), before);
      && SupportedOptions(options) && Marshal(value).Some? && KnownPattern(options.retryPolicy.pattern)
      && sched(0) == Turn([], Delivered, [], Delivered) ==>
        && err.None?
        && store.nodes == read[path := Node(Marshal(value).value, read[path].sets + 1)]
    // Whoever interferes, an update that succeeds in the lifetime it read replaced just what it had read.
    ensures var path, read := store.prefix(key), After(old(store.nodes), before);
      && err.None? && OneLifetime(read, run, path)
      && options.concurrency != LAST_WRITE && VersionOf(read[path]) != ANY_VERSION ==>
        Replaced(read, run, path, Marshal(value))
  {
    hide Step, Itoa, Atoi, Matches;
    resp := store.Get(key, before, true);
    var req := SetRequest(key, value, resp.value.etag, options);
    ghost var read := store.nodes;
    ghost var path := store.prefix(key);
    ItoaRoundTrip(VersionOf(read[path]));
    err, run, calls := store.Set(req, me, sched);
    if NewSetData(store.prefix, req).Some? {
      ghost var r := NewSetData(store.prefix, req).value;
      ShownIsAdmitted(read, r);
      if err.None? && r.version != ANY_VERSION && OneLifetime(read, run, path) {
        ReplacedWhatWasRead(read, run, me, r);
      }
    }
  }

  /** Set, then Get, undisturbed: Get shows the bytes that were set, under the next version or a new node's. */
  method SetThenGet(store: StateStore, req: SetRequest, me: nat, sched: Schedule)
    returns (err: Option<RetryError<ErrorCode>>, resp: Option<Response>)
    requires MIN_INT64 <= req.options.retryPolicy.interval <= MAX_INT64
    requires KnownPattern(req.options.retryPolicy.pattern) && NewSetData(store.prefix, req).Some?
    requires store.prefix(req.key) in store.nodes ==>
      Accepts(req.options, req.etag, store.nodes[store.prefix(req.key)])
    requires sched(0) == Turn([], Delivered, [], Delivered)
    modifies store
    ensures err.None? && resp.Some?
    ensures resp.value.data == if req.value.raw.Some? then req.value.raw.value else req.value.json.value
    ensures var path := store.prefix(req.key);
      resp.value.etag == Itoa(if path in old(store.nodes) then Wrap32(old(store.nodes)[path].sets + 1) else 0)
  {
    hide Step, Itoa, Accepts, Matches, Retried;
    ghost var base, r := store.nodes, NewSetData(store.prefix, req).value;
    var run, calls;
    err, run, calls := store.Set(req, me, sched);
    KnownPatternCalls(req.options.retryPolicy, SetCall(base, r, me, sched), run, err, calls);
    UndisturbedWrites(base, store.prefix, req);
    resp := store.Get(req.key, [], true);
  }

  lemma KnownPatternCalls(policy: RetryPolicy, attempt: Attempt<seq<Op>, ErrorCode>, run: seq<Op>,
                          err: Option<RetryError<ErrorCode>>, calls: nat)
    requires Retried(policy, attempt, [], run, err, calls) && KnownPattern(policy.pattern)
    ensures calls > 0
  {
  }

  lemma UndisturbedWrites(base: Nodes, prefix: string -> string, req: SetRequest)
    requires NewSetData(prefix, req).Some?
    requires prefix(req.key) in base ==> Accepts(req.options, req.etag, base[prefix(req.key)])
    ensures var r, turn := NewSetData(prefix, req).value, Turn([], Delivered, [], Delivered);
      && Succeeds(base, r, [], turn)
      && Written(base, r, [], turn) ==
         base[r.path := Node(r.data, if r.path in base then base[r.path].sets + 1 else 0)]
  {
    hide Step, Accepts, Matches;
    var none: seq<Op> := [];
    assert none + none == none && After(base, none) == base;
    if prefix(req.key) in base {
      VersionDecides(req.options, req.etag, base[prefix(req.key)]);
    }
  }

  /** The last op of the run found the node as it was at the start, and gave it the data. */
  ghost predicate Replaced(read: Nodes, run: seq<Op>, path: string, data: Option<string>) {
    && path in read && data.Some? && |run| > 0
    && path in At(read, run, |run| - 1) && At(read, run, |run| - 1)[path] == read[path]
    && path in After(read, run) && After(read, run)[path] == Node(data.value, read[path].sets + 1)
  }

  lemma ReplacedWhatWasRead(read: Nodes, run: seq<Op>, me: nat, r: Request)
    requires r.SetData? && OneLifetime(read, run, r.path)
    requires r.path in read && r.version == VersionOf(read[r.path]) != ANY_VERSION
    requires |run| > 0 && TookEffect(read, run, me, r.path, |run| - 1)
    requires run[|run| - 1].req == r || run[|run| - 1].req == Create(r.path, r.data)
    ensures Replaced(read, run, r.path, Some(r.data))
  {
    hide Wrap32;
    var last := |run| - 1;
    assert run[..0] == [];
    assert r.path in At(read, run, last);
    SetsBetweenAtMost(read, run, r.path, 0, last);
    ZkServer.ETagDeterminesData(read, run, r.path, 0, last);
  }

  lemma ShownIsAdmitted(nodes: Nodes, r: Request)
    requires r.SetData? && r.path in nodes && r.version in {ANY_VERSION, VersionOf(nodes[r.path])}
    ensures var turn := Turn([], Delivered, [], Delivered);
      && Succeeds(nodes, r, [], turn)
      && Written(nodes, r, [], turn) == nodes[r.path := Node(r.data, nodes[r.path].sets + 1)]
  {
    var none: seq<Op> := [];
    assert none + none == none;
  }
}
