/**
 BulkSet and BulkDelete of state/zookeeper/zk.go. The connection's Multi is a parameter: the loops are
 verified for every Multi, and the theorems about their results for three of them: the one the code and its
 tests are written for, in which each operation of a batch succeeds or fails by itself; the one of the
 client library the store is built with; and a hypothetical one in between.
 */
module ZkBulk {
  import opened Common
  import opened Requests
  import opened ZkServer
  import opened ZkStore

  datatype MultiReply = Failed(code: ErrorCode) | Results(results: seq<Option<ErrorCode>>)

  type MultiFn = (Nodes, seq<Request>) -> (Nodes, MultiReply)

  datatype BulkError = Invalid | NotSent(code: ErrorCode) | Several(errors: seq<ErrorCode>)

  /** Results beyond the operations are tolerated unless they claim a missing node, which would be looked up. */
  ghost predicate Answers(multi: MultiFn) {
    forall nodes, ops :: multi(nodes, ops).1.Results? ==>
      forall i :: |ops| <= i < |multi(nodes, ops).1.results| ==> multi(nodes, ops).1.results[i] != Some(NoNode)
  }

  predicate AllSets(ops: seq<Request>) {
    forall i :: 0 <= i < |ops| ==> ops[i].SetData?
  }

  predicate AllCreates(ops: seq<Request>) {
    forall i :: 0 <= i < |ops| ==> ops[i].Create?
  }

  // ----- The specification of one and of two rounds -----

  predicate Retryable(ops: seq<Request>, results: seq<Option<ErrorCode>>, i: nat)
    requires i < |results|
  {
    results[i] == Some(NoNode) && i < |ops| && ops[i].SetData?
  }

  /** The errors among the first n results that are reported to the caller. */
  function Errors(ops: seq<Request>, results: seq<Option<ErrorCode>>, n: nat): seq<ErrorCode>
    requires n <= |results|
  {
    if n == 0 then []
    else if results[n - 1].Some? && !Retryable(ops, results, n - 1) then
      Errors(ops, results, n - 1) + [results[n - 1].value]
    else Errors(ops, results, n - 1)
  }

  /** The creates that replace set-data requests for missing nodes. */
  function Creates(ops: seq<Request>, results: seq<Option<ErrorCode>>, n: nat): (r: seq<Request>)
    requires n <= |results|
    ensures AllCreates(r)
  {
    if n == 0 then []
    else if Retryable(ops, results, n - 1) then
      Creates(ops, results, n - 1) + [Create(ops[n - 1].path, ops[n - 1].data)]
    else Creates(ops, results, n - 1)
  }

  /** One round: the nodes it leaves, what the caller is told, and what is left to do. */
  function Round(multi: MultiFn, nodes: Nodes, ops: seq<Request>): (Nodes, Option<BulkError>, seq<Request>) {
    var (after, reply) := multi(nodes, ops);
    match reply
    case Failed(code) => (after, Some(NotSent(code)), [])
    case Results(results) =>
      var errors := Errors(ops, results, |results|);
      if errors != [] then (after, Some(Several(errors)), [])
      else (after, None, Creates(ops, results, |results|))
  }

  /** BulkSet in closed form: at most two rounds, whatever Multi does. */
  function TwoRounds(multi: MultiFn, nodes: Nodes, ops: seq<Request>): (Nodes, Option<BulkError>) {
    var (mid, err, rest) := Round(multi, nodes, ops);
    if err.Some? || rest == [] then (mid, err)
    else
      var (after, err2, _) := Round(multi, mid, rest);
      (after, err2)
  }

  /** A round of creates leaves nothing to retry. */
  lemma {:induction false} CreatesAreFinal(ops: seq<Request>, results: seq<Option<ErrorCode>>, n: nat)
    requires n <= |results| && AllCreates(ops)
    ensures Creates(ops, results, n) == []
  {
    if n > 0 {
      CreatesAreFinal(ops, results, n - 1);
    }
  }

  /** The requests of a batch, None if one of them is invalid. */
  function NewSetDatas(prefix: string -> string, reqs: seq<SetRequest>): (r: Option<seq<Request>>)
    ensures r.Some? ==> |r.value| == |reqs| && AllSets(r.value)
    ensures r.Some? ==> forall i :: 0 <= i < |reqs| ==> NewSetData(prefix, reqs[i]) == Some(r.value[i])
  {
    if reqs == [] then Some([])
    else
      var init, last := NewSetDatas(prefix, reqs[..|reqs| - 1]), NewSetData(prefix, reqs[|reqs| - 1]);
      if init.Some? && last.Some? then Some(init.value + [last.value]) else None
  }

  function NewDeletes(prefix: string -> string, reqs: seq<DeleteRequest>): (r: Option<seq<Request>>)
    ensures r.Some? ==> |r.value| == |reqs|
    ensures r.Some? ==> forall i :: 0 <= i < |reqs| ==> NewDelete(prefix, reqs[i]) == Some(r.value[i])
  {
    if reqs == [] then Some([])
    else
      var init, last := NewDeletes(prefix, reqs[..|reqs| - 1]), NewDelete(prefix, reqs[|reqs| - 1]);
      if init.Some? && last.Some? then Some(init.value + [last.value]) else None
  }

  lemma {:induction false} InvalidSpreads(prefix: string -> string, reqs: seq<SetRequest>, i: nat)
    requires i < |reqs| && NewSetData(prefix, reqs[i]).None?
    ensures NewSetDatas(prefix, reqs).None?
  {
    if i < |reqs| - 1 {
      InvalidSpreads(prefix, reqs[..|reqs| - 1], i);
    }
  }

  lemma {:induction false} InvalidDeleteSpreads(prefix: string -> string, reqs: seq<DeleteRequest>, i: nat)
    requires i < |reqs| && NewDelete(prefix, reqs[i]).None?
    ensures NewDeletes(prefix, reqs).None?
  {
    if i < |reqs| - 1 {
      InvalidDeleteSpreads(prefix, reqs[..|reqs| - 1], i);
    }
  }

  // ----- The code -----

  /** The inner loop of BulkSet: sorts the results of one Multi into errors and creates. */
  method Sift(ops: seq<Request>, results: seq<Option<ErrorCode>>) returns (errors: seq<ErrorCode>, retry: seq<Request>)
    requires forall i :: |ops| <= i < |results| ==> results[i] != Some(NoNode)
    ensures errors == Errors(ops, results, |results|)
    ensures retry == Creates(ops, results, |results|)
  {
    errors, retry := [], [];
    for i := 0 to |results|
      invariant errors == Errors(ops, results, i)
      invariant retry == Creates(ops, results, i)
    {
      var res := results[i];
      if res.Some? {
        if res.value == NoNode && ops[i].SetData? {
          retry := retry + [Create(ops[i].path, ops[i].data)];
        } else {
          errors := errors + [res.value];
        }
      }
    }
  }

  /**
   BulkSet. The outer loop has no bound of its own; it ends because the second work list holds creates
   only, and those are never retried.
   */
  method BulkSet(prefix: string -> string, reqs: seq<SetRequest>, nodes: Nodes, multi: MultiFn)
    returns (after: Nodes, err: Option<BulkError>, rounds: nat)
    requires Answers(multi)
    ensures rounds <= 2
    ensures NewSetDatas(prefix, reqs).None? ==> after == nodes && err == Some(Invalid) && rounds == 0
    ensures NewSetDatas(prefix, reqs).Some? ==>
              rounds > 0 && (after, err) == TwoRounds(multi, nodes, NewSetDatas(prefix, reqs).value)
  {
    after, err, rounds := nodes, None, 0;
    var ops: seq<Request> := [];
    for i := 0 to |reqs|
      invariant NewSetDatas(prefix, reqs[..i]) == Some(ops)
    {
      assert reqs[..i + 1][..i] == reqs[..i];
      var r := NewSetData(prefix, reqs[i]);
      if r.None? {
        InvalidSpreads(prefix, reqs, i);
        err := Some(Invalid);
        return;
      }
      ops := ops + [r.value];
    }
    assert reqs[..|reqs|] == reqs;
    ghost var all := ops;
    while true
      invariant rounds <= 1 && err.None?
      invariant rounds == 0 ==> ops == all && after == nodes
      invariant rounds == 1 ==> AllCreates(ops) && ops != [] && Round(multi, nodes, all) == (after, None, ops)
      decreases 2 - rounds
    {
      var (next, reply) := multi(after, ops);
      rounds := rounds + 1;
      if reply.Failed? {
        after, err := next, Some(NotSent(reply.code));
        return;
      }
      var errors, retry := Sift(ops, reply.results);
      assert Round(multi, after, ops) ==
        (next, if errors != [] then Some(Several(errors)) else None, if errors != [] then [] else retry);
      if rounds == 2 {
        CreatesAreFinal(ops, reply.results, |reply.results|);
      }
      after := next;
      if errors != [] || retry == [] {
        err := if errors != [] then Some(Several(errors)) else None;
        return;
      }
      ops := retry;
    }
  }

  /** The errors a batch of deletes reports: all but missing nodes. */
  function DeleteErrors(results: seq<Option<ErrorCode>>, n: nat): seq<ErrorCode>
    requires n <= |results|
  {
    if n == 0 then []
    else if results[n - 1].Some? && results[n - 1] != Some(NoNode) then
      DeleteErrors(results, n - 1) + [results[n - 1].value]
    else DeleteErrors(results, n - 1)
  }

  /** BulkDelete in closed form: what the one Multi leaves, and all its errors but missing nodes. */
  function DeleteRound(multi: MultiFn, nodes: Nodes, ops: seq<Request>): (Nodes, Option<BulkError>) {
    var (after, reply) := multi(nodes, ops);
    match reply
    case Failed(code) => (after, Some(NotSent(code)))
    case Results(results) =>
      var errors := DeleteErrors(results, |results|);
      (after, if errors == [] then None else Some(Several(errors)))
  }

  /** BulkDelete: one Multi, no retry. */
  method BulkDelete(prefix: string -> string, reqs: seq<DeleteRequest>, nodes: Nodes, multi: MultiFn)
    returns (after: Nodes, err: Option<BulkError>)
    ensures NewDeletes(prefix, reqs).None? ==> after == nodes && err == Some(Invalid)
    ensures NewDeletes(prefix, reqs).Some? ==>
              (after, err) == DeleteRound(multi, nodes, NewDeletes(prefix, reqs).value)
  {
    after, err := nodes, None;
    var ops: seq<Request> := [];
    for i := 0 to |reqs|
      invariant NewDeletes(prefix, reqs[..i]) == Some(ops)
    {
      assert reqs[..i + 1][..i] == reqs[..i];
      var r := NewDelete(prefix, reqs[i]);
      if r.None? {
        InvalidDeleteSpreads(prefix, reqs, i);
        err := Some(Invalid);
        return;
      }
      ops := ops + [r.value];
    }
    assert reqs[..|reqs|] == reqs;
    var (next, reply) := multi(nodes, ops);
    after := next;
    if reply.Failed? {
      err := Some(NotSent(reply.code));
      return;
    }
    var errors := [];
    for i := 0 to |reply.results|
      invariant errors == DeleteErrors(reply.results, i)
    {
      var res := reply.results[i];
      if res.Some? && res.value != NoNode {
        errors := errors + [res.value];
      }
    }
    err := if errors == [] then None else Some(Several(errors));
  }

  // ----- Multi with independent operations -----

  function Each(nodes: Nodes, ops: seq<Request>): (r: (Nodes, seq<Option<ErrorCode>>))
    ensures |r.1| == |ops|
  {
    if ops == [] then (nodes, [])
    else
      var (mid, results) := Each(nodes, ops[..|ops| - 1]);
      var (after, res) := Step(mid, ops[|ops| - 1]);
      (after, results + [res])
  }

  /** Every operation of the batch is executed in order and succeeds or fails by itself. */
  function PerOperation(nodes: Nodes, ops: seq<Request>): (Nodes, MultiReply) {
    var (after, results) := Each(nodes, ops);
    (after, Results(results))
  }

  /** One Set without retries and without interference. */
  function SetOnce(nodes: Nodes, r: Request): (Nodes, Option<ErrorCode>)
    requires r.SetData?
  {
    var (after, res) := Step(nodes, r);
    if res == Some(NoNode) then Step(after, Create(r.path, r.data)) else (after, res)
  }

  /** Which is what one attempt of the store's Set does when nothing interferes. */
  lemma SetOnceIsAttempt(base: Nodes, r: Request, me: nat, run: seq<Op>)
    requires r.SetData?
    ensures var (run', res) := SetAttempt(base, r, me, run, Turn([], Delivered, [], Delivered));
      SetOnce(After(base, run), r) == (After(base, run'), res)
  {
    hide Step, After;
    var sent := run + [Op(me, r)];
    assert run + [] == run && sent + [] == sent;
    AfterSnoc(base, run, Op(me, r));
    AfterSnoc(base, sent, Op(me, Create(r.path, r.data)));
  }

  /** The reference: Set applied to each request in turn; the flag says that all of them succeeded. */
  function InTurn(nodes: Nodes, ops: seq<Request>): (Nodes, bool)
    requires AllSets(ops)
  {
    if ops == [] then (nodes, true)
    else
      var (mid, ok) := InTurn(nodes, ops[..|ops| - 1]);
      var (after, res) := SetOnce(mid, ops[|ops| - 1]);
      (after, ok && res.None?)
  }

  /** The creates for the requests whose node does not exist at the start. */
  function Missing(nodes: Nodes, ops: seq<Request>): (r: seq<Request>)
    requires AllSets(ops)
    ensures AllCreates(r) && forall i :: 0 <= i < |r| ==> r[i].path !in nodes
  {
    if ops == [] then []
    else
      var last := ops[|ops| - 1];
      Missing(nodes, ops[..|ops| - 1]) + if last.path in nodes then [] else [Create(last.path, last.data)]
  }

  predicate Distinct(ops: seq<Request>) {
    forall i, j :: 0 <= i < j < |ops| ==> ops[i].path != ops[j].path
  }

  function CreateAll(nodes: Nodes, ops: seq<Request>): Nodes
    requires AllCreates(ops)
  {
    if ops == [] then nodes
    else CreateAll(nodes, ops[..|ops| - 1])[ops[|ops| - 1].path := Node(ops[|ops| - 1].data, 0)]
  }

  lemma {:induction false} CreateAllKeys(nodes: Nodes, ops: seq<Request>)
    requires AllCreates(ops)
    ensures forall p :: p in CreateAll(nodes, ops) <==> p in nodes || exists i :: 0 <= i < |ops| && ops[i].path == p
    ensures forall p :: p in nodes && (forall i :: 0 <= i < |ops| ==> ops[i].path != p) ==>
      CreateAll(nodes, ops)[p] == nodes[p]
  {
    if ops != [] {
      var init := ops[..|ops| - 1];
      CreateAllKeys(nodes, init);
      assert forall i :: 0 <= i < |init| ==> init[i] == ops[i];
      forall p | exists i :: 0 <= i < |ops| && ops[i].path == p
        ensures p in CreateAll(nodes, ops)
      {
        var i :| 0 <= i < |ops| && ops[i].path == p;
        assert i < |init| ==> init[i].path == p;
      }
    }
  }

  /** The bookkeeping of n results looks only at n operations and n results. */
  lemma {:induction false} SamePrefix(ops: seq<Request>, results: seq<Option<ErrorCode>>,
                                      r: Request, res: Option<ErrorCode>, n: nat)
    requires n <= |ops| == |results|
    ensures Errors(ops + [r], results + [res], n) == Errors(ops, results, n)
    ensures Creates(ops + [r], results + [res], n) == Creates(ops, results, n)
  {
    if n > 0 {
      SamePrefix(ops, results, r, res, n - 1);
    }
  }

  function OneError(r: Request, res: Option<ErrorCode>): seq<ErrorCode> {
    if res.Some? && !(res == Some(NoNode) && r.SetData?) then [res.value] else []
  }

  /** One more operation in a batch. */
  lemma OneMore(nodes: Nodes, ops: seq<Request>, r: Request)
    ensures var (mid, results) := Each(nodes, ops);
      var (after, res) := Step(mid, r);
      var n := |ops|;
      && Each(nodes, ops + [r]) == (after, results + [res])
      && Errors(ops + [r], results + [res], n + 1) == Errors(ops, results, n) + OneError(r, res)
      && Creates(ops + [r], results + [res], n + 1) == Creates(ops, results, n) +
           (if res == Some(NoNode) && r.SetData? then [Create(r.path, r.data)] else [])
  {
    hide Step;
    var (mid, results) := Each(nodes, ops);
    var (after, res) := Step(mid, r);
    assert (ops + [r])[..|ops|] == ops;
    SamePrefix(ops, results, r, res, |ops|);
  }

  /** The second round: all creates succeed exactly when their paths differ. */
  lemma {:induction false} CreateRound(nodes: Nodes, ops: seq<Request>)
    requires AllCreates(ops) && forall i :: 0 <= i < |ops| ==> ops[i].path !in nodes
    ensures Errors(ops, Each(nodes, ops).1, |ops|) == [] <==> Distinct(ops)
    ensures Distinct(ops) ==> Each(nodes, ops).0 == CreateAll(nodes, ops)
  {
    hide Each, Errors;
    if ops == [] {
      CreateNone(nodes);
    } else {
      var init, last := ops[..|ops| - 1], ops[|ops| - 1];
      assert ops == init + [last];
      CreateRound(nodes, init);
      OneMore(nodes, init, last);
      CreateAllKeys(nodes, init);
      DistinctSnoc(init, last);
    }
  }

  lemma CreateNone(nodes: Nodes)
    ensures Each(nodes, []) == (nodes, []) && Errors([], [], 0) == []
  {
  }

  lemma DistinctSnoc(ops: seq<Request>, r: Request)
    ensures Distinct(ops + [r]) <==> Distinct(ops) && forall i :: 0 <= i < |ops| ==> ops[i].path != r.path
  {
    var all := ops + [r];
    assert forall i :: 0 <= i < |ops| ==> all[i] == ops[i];
    if Distinct(all) {
      assert all[|ops|] == r;
    }
  }

  /** The first round: it updates, never creates, and defers exactly the missing nodes. */
  lemma {:induction false} SetRound(nodes: Nodes, ops: seq<Request>)
    requires AllSets(ops)
    ensures Each(nodes, ops).0.Keys == nodes.Keys
    ensures Creates(ops, Each(nodes, ops).1, |ops|) == Missing(nodes, ops)
  {
    hide Matches;
    if ops != [] {
      var init, last := ops[..|ops| - 1], ops[|ops| - 1];
      assert ops == init + [last];
      SetRound(nodes, init);
      OneMore(nodes, init, last);
    }
  }

  lemma InTurnSnoc(nodes: Nodes, ops: seq<Request>, r: Request)
    requires AllSets(ops) && r.SetData?
    ensures var (mid, ok) := InTurn(nodes, ops);
      InTurn(nodes, ops + [r]) == (SetOnce(mid, r).0, ok && SetOnce(mid, r).1.None?)
    ensures Missing(nodes, ops + [r]) == Missing(nodes, ops) + if r.path in nodes then [] else [Create(r.path, r.data)]
  {
    hide SetOnce;
    assert (ops + [r])[..|ops|] == ops;
  }

  /** Updates before creates is as good as one after the other, when no missing node is named twice. */
  lemma {:induction false} RoundsMatchTurns(nodes: Nodes, ops: seq<Request>)
    requires AllSets(ops) && Distinct(Missing(nodes, ops))
    ensures InTurn(nodes, ops).0 == CreateAll(Each(nodes, ops).0, Missing(nodes, ops))
    ensures Errors(ops, Each(nodes, ops).1, |ops|) == [] <==> InTurn(nodes, ops).1
  {
    hide Matches, Each, Errors, InTurn, Missing;
    if ops == [] {
      TurnNone(nodes);
    } else {
      var init, last := ops[..|ops| - 1], ops[|ops| - 1];
      assert ops == init + [last];
      var late := Missing(nodes, init);
      InTurnSnoc(nodes, init, last);
      if last.path in nodes {
        assert late + [] == late;
      } else {
        DistinctSnoc(late, Create(last.path, last.data));
      }
      RoundsMatchTurns(nodes, init);
      OneMore(nodes, init, last);
      SetRound(nodes, init);
      LastTurn(nodes, Each(nodes, init).0, late, last);
    }
  }

  lemma TurnNone(nodes: Nodes)
    ensures Each(nodes, []) == (nodes, []) && Errors([], [], 0) == []
    ensures InTurn(nodes, []) == (nodes, true) && Missing(nodes, []) == []
  {
  }

  /** The last request of a batch, done in turn after the creates or in the first round before them. */
  lemma LastTurn(nodes: Nodes, mid: Nodes, late: seq<Request>, r: Request)
    requires r.SetData? && AllCreates(late) && mid.Keys == nodes.Keys
    requires forall i :: 0 <= i < |late| ==> late[i].path !in nodes && late[i].path != r.path
    ensures var (turn, res) := SetOnce(CreateAll(mid, late), r);
      && (res.None? <==> OneError(r, Step(mid, r).1) == [])
      && turn == CreateAll(Step(mid, r).0, late + if r.path in nodes then [] else [Create(r.path, r.data)])
  {
    hide Matches, CreateAll;
    CreateAllKeys(mid, late);
    assert r.path in mid <==> r.path in mid.Keys;
    if r.path in nodes {
      assert late + [] == late;
      CommuteUpdate(mid, late, r.path, Node(r.data, mid[r.path].sets + 1));
    } else {
      CreateAllSnoc(mid, late, Create(r.path, r.data));
    }
  }

  lemma CreateAllSnoc(nodes: Nodes, ops: seq<Request>, r: Request)
    requires AllCreates(ops) && r.Create?
    ensures CreateAll(nodes, ops + [r]) == CreateAll(nodes, ops)[r.path := Node(r.data, 0)]
  {
    assert (ops + [r])[..|ops|] == ops;
  }

  lemma {:induction false} CommuteUpdate(nodes: Nodes, ops: seq<Request>, path: string, node: Node)
    requires AllCreates(ops) && forall i :: 0 <= i < |ops| ==> ops[i].path != path
    ensures CreateAll(nodes, ops)[path := node] == CreateAll(nodes[path := node], ops)
  {
    if ops != [] {
      CommuteUpdate(nodes, ops[..|ops| - 1], path, node);
    }
  }

  /**
   BulkSet refines Set: with independent operations and nobody interfering, it succeeds exactly when
   setting the requests in turn would succeed and no missing node is named twice, and then leaves the
   same nodes.
   */
  lemma BulkSetRefinesSet(nodes: Nodes, ops: seq<Request>)
    requires AllSets(ops)
    ensures TwoRounds(PerOperation, nodes, ops).1.None? <==> InTurn(nodes, ops).1 && Distinct(Missing(nodes, ops))
    ensures TwoRounds(PerOperation, nodes, ops).1.None? ==>
      TwoRounds(PerOperation, nodes, ops).0 == InTurn(nodes, ops).0
  {
    hide Each, Errors, Creates, InTurn, Missing, Distinct;
    var (mid, results) := Each(nodes, ops);
    var late := Missing(nodes, ops);
    SetRound(nodes, ops);
    CreateRound(mid, late);
    CreatesAreFinal(late, Each(mid, late).1, |late|);
    if Distinct(late) {
      RoundsMatchTurns(nodes, ops);
    }
    NoneIsDistinct();
    if late == [] {
      assert CreateAll(mid, late) == mid;
    }
  }

  lemma NoneIsDistinct()
    ensures Distinct([])
  {
  }

  /** A duplicated missing node is refused although setting it twice in turn works. */
  lemma DuplicateMissingFails(nodes: Nodes, a: Request, b: Request)
    requires a.SetData? && b.SetData? && a.path == b.path && a.path !in nodes && b.version in {ANY_VERSION, 0}
    ensures InTurn(nodes, [a] + [b]) == (nodes[a.path := Node(b.data, 1)], true)
    ensures TwoRounds(PerOperation, nodes, [a] + [b]).1.Some?
  {
    hide TwoRounds, InTurn, Missing, SetOnce;
    SetTwice(nodes, a, b);
    TurnNone(nodes);
    InTurnSnoc(nodes, [], a);
    assert [] + [a] == [a];
    assert Missing(nodes, [a]) == [Create(a.path, a.data)];
    InTurnSnoc(nodes, [a], b);
    var first := [Create(a.path, a.data)];
    assert first[0].path == b.path;
    DistinctSnoc(first, Create(b.path, b.data));
    BulkSetRefinesSet(nodes, [a] + [b]);
  }

  lemma SetTwice(nodes: Nodes, a: Request, b: Request)
    requires a.SetData? && b.SetData? && a.path == b.path && a.path !in nodes && b.version in {ANY_VERSION, 0}
    ensures var mid := nodes[a.path := Node(a.data, 0)];
      && SetOnce(nodes, a) == (mid, None)
      && SetOnce(mid, b) == (nodes[a.path := Node(b.data, 1)], None)
  {
    var mid := nodes[a.path := Node(a.data, 0)];
    assert mid[a.path := Node(b.data, 1)] == nodes[a.path := Node(b.data, 1)];
  }

  // ----- Multi of the client library -----

  predicate NoErrors(results: seq<Option<ErrorCode>>) {
    forall i :: 0 <= i < |results| ==> results[i].None?
  }

  function FirstError(results: seq<Option<ErrorCode>>): ErrorCode
    requires !NoErrors(results)
  {
    if results[0].Some? then results[0].value else FirstError(results[1..])
  }

  /** All or nothing, and the first error of a rolled-back batch becomes the error of Multi itself. */
  function ClientMulti(nodes: Nodes, ops: seq<Request>): (Nodes, MultiReply) {
    var (after, results) := Each(nodes, ops);
    if NoErrors(results) then (after, Results(results)) else (nodes, Failed(FirstError(results)))
  }

  /** Nothing fails in a batch exactly if nothing would fail in turn and no node is missing. */
  lemma NoErrorsInTurn(nodes: Nodes, ops: seq<Request>)
    requires AllSets(ops)
    ensures NoErrors(Each(nodes, ops).1) <==> InTurn(nodes, ops).1 && Missing(nodes, ops) == []
  {
    hide Each, InTurn, Missing, Errors, Creates;
    SetRound(nodes, ops);
    NothingToReport(ops, Each(nodes, ops).1, |ops|);
    NoneIsDistinct();
    if Missing(nodes, ops) == [] {
      RoundsMatchTurns(nodes, ops);
    }
  }

  /**
   BulkSet as the store runs it: it succeeds exactly when setting the requests in turn would and no node is
   missing, and then leaves the same nodes; otherwise it changes nothing and reports the first error. So it
   never creates a node: its second round is never reached, and a missing node that Set would create is an error.
   */
  lemma BulkSetAsRun(nodes: Nodes, ops: seq<Request>)
    requires AllSets(ops)
    ensures var (after, err) := TwoRounds(ClientMulti, nodes, ops);
      && (err.None? <==> InTurn(nodes, ops).1 && Missing(nodes, ops) == [])
      && (err.None? ==> after == InTurn(nodes, ops).0 && after.Keys == nodes.Keys)
      && (err.Some? ==> after == nodes && !NoErrors(Each(nodes, ops).1)
                        && err == Some(NotSent(FirstError(Each(nodes, ops).1))))
  {
    hide Each, InTurn, Missing, Errors, Creates;
    NoErrorsInTurn(nodes, ops);
    NothingToReport(ops, Each(nodes, ops).1, |ops|);
    SetRound(nodes, ops);
    if NoErrors(Each(nodes, ops).1) {
      NoneMissing(nodes, ops);
    }
  }

  /** The error it reports is that of the first operation that fails. */
  lemma {:induction false} FirstErrorIsFirst(results: seq<Option<ErrorCode>>, i: nat)
    requires i < |results| && results[i].Some? && forall j :: 0 <= j < i ==> results[j].None?
    ensures !NoErrors(results) && FirstError(results) == results[i].value
  {
    if i > 0 {
      FirstErrorIsFirst(results[1..], i - 1);
    }
  }

  // ----- A hypothetical Multi that reports a roll-back in its results -----

  /** What a rolled-back batch reports: its first error, nothing before it and Inconsistent behind it. */
  function Reported(results: seq<Option<ErrorCode>>): seq<Option<ErrorCode>> {
    seq(|results|, i requires 0 <= i < |results| =>
      if NoErrors(results[..i]) then results[i] else Some(Inconsistent))
  }

  /** One failing operation rolls the batch back, and Multi itself does not fail. */
  function AllOrNothing(nodes: Nodes, ops: seq<Request>): (Nodes, MultiReply) {
    var (after, results) := Each(nodes, ops);
    if NoErrors(results) then (after, Results(results)) else (nodes, Results(Reported(results)))
  }

  lemma {:induction false} NothingToReport(ops: seq<Request>, results: seq<Option<ErrorCode>>, n: nat)
    requires n <= |results|
    ensures Errors(ops, results, n) == [] <==> forall i :: 0 <= i < n && results[i].Some? ==> Retryable(ops, results, i)
    ensures Creates(ops, results, n) == [] <==> forall i :: 0 <= i < n ==> !Retryable(ops, results, i)
  {
    if n > 0 {
      NothingToReport(ops, results, n - 1);
    }
  }

  /** A round goes through, or defers just its last request, or reports an error. */
  lemma RoundAllOrNothing(nodes: Nodes, ops: seq<Request>)
    requires AllSets(ops)
    ensures var (after, results) := Each(nodes, ops);
      if NoErrors(results) then Round(AllOrNothing, nodes, ops) == (after, None, [])
      else
        && ops != []
        && var n := |ops| - 1;
          && (Round(AllOrNothing, nodes, ops).1.None? <==> NoErrors(results[..n]) && results[n] == Some(NoNode))
          && (Round(AllOrNothing, nodes, ops).1.None? ==>
              Round(AllOrNothing, nodes, ops) == (nodes, None, [Create(ops[n].path, ops[n].data)]))
  {
    hide Each, Errors;
    var results := Each(nodes, ops).1;
    if NoErrors(results) {
      NothingToReport(ops, results, |ops|);
    } else {
      var n, told := |ops| - 1, Reported(results);
      NothingToReport(ops, told, n + 1);
      if Errors(ops, told, n + 1) == [] {
        assert told[n] != Some(Inconsistent);
        assert results == results[..n] + [results[n]];
        assert NoErrors(results[..n]) && results[n] == Some(NoNode);
      }
      if NoErrors(results[..n]) && results[n] == Some(NoNode) {
        FineBefore(results, n);
        NothingToReport(ops, told, n);
        assert Retryable(ops, told, n) && |told| == n + 1;
        assert Creates(ops, told, n + 1) == [Create(ops[n].path, ops[n].data)];
      }
    }
  }

  lemma FineBefore(results: seq<Option<ErrorCode>>, n: nat)
    requires n < |results| && NoErrors(results[..n])
    ensures forall i :: 0 <= i < n ==> Reported(results)[i].None?
    ensures Reported(results)[n] == results[n]
  {
    forall i | 0 <= i < n ensures Reported(results)[i].None? {
      assert forall k :: 0 <= k < i ==> results[..i][k] == results[..n][k];
      assert results[i] == results[..n][i];
    }
  }

  /** BulkSet under such a Multi, as far as it reports success. */
  lemma TwoRoundsAllOrNothing(nodes: Nodes, ops: seq<Request>)
    requires AllSets(ops)
    ensures TwoRounds(AllOrNothing, nodes, ops).1.None? <==>
      || NoErrors(Each(nodes, ops).1)
      || (ops != [] && ops[|ops| - 1].path !in nodes && NoErrors(Each(nodes, ops[..|ops| - 1]).1))
    ensures NoErrors(Each(nodes, ops).1) ==> TwoRounds(AllOrNothing, nodes, ops).0 == Each(nodes, ops).0
    ensures !NoErrors(Each(nodes, ops).1) && TwoRounds(AllOrNothing, nodes, ops).1.None? ==>
      var last := ops[|ops| - 1];
      TwoRounds(AllOrNothing, nodes, ops).0 == nodes[last.path := Node(last.data, 0)]
  {
    hide Each, Round;
    RoundAllOrNothing(nodes, ops);
    if ops != [] {
      var init, last := ops[..|ops| - 1], ops[|ops| - 1];
      assert ops == init + [last];
      OneMore(nodes, init, last);
      SetRound(nodes, init);
      MissingLast(nodes, Each(nodes, init).0, Each(nodes, init).1, last);
      if last.path !in nodes {
        OneCreate(nodes, Create(last.path, last.data));
      }
    }
  }

  lemma MissingLast(nodes: Nodes, mid: Nodes, results: seq<Option<ErrorCode>>, r: Request)
    requires r.SetData? && mid.Keys == nodes.Keys
    ensures Step(mid, r).1 == Some(NoNode) <==> r.path !in nodes
    ensures (results + [Step(mid, r).1])[..|results|] == results
    ensures NoErrors(results + [Step(mid, r).1]) ==> r.path in nodes
  {
    var all := results + [Step(mid, r).1];
    assert all[|results|] == Step(mid, r).1;
    assert r.path in mid <==> r.path in mid.Keys;
  }

  lemma OneCreate(nodes: Nodes, r: Request)
    requires r.Create? && r.path !in nodes
    ensures Round(AllOrNothing, nodes, [r]) == (nodes[r.path := Node(r.data, 0)], None, [])
  {
    OneMore(nodes, [], r);
    assert [] + [r] == [r];
    assert NoErrors(Each(nodes, [r]).1);
    NothingToReport([r], Each(nodes, [r]).1, 1);
  }

  /** Set-datas only ever count up. */
  lemma {:induction false} CountsGrow(nodes: Nodes, ops: seq<Request>, p: string)
    requires AllSets(ops) && p in nodes
    ensures p in Each(nodes, ops).0 && Each(nodes, ops).0[p].sets >= nodes[p].sets
  {
    hide Matches;
    if ops != [] {
      CountsGrow(nodes, ops[..|ops| - 1], p);
    }
  }

  /** A batch that went through left a trace. */
  lemma LeavesATrace(nodes: Nodes, ops: seq<Request>)
    requires AllSets(ops) && ops != [] && NoErrors(Each(nodes, ops).1)
    ensures var p := ops[|ops| - 1].path;
      p in nodes && p in Each(nodes, ops).0 && Each(nodes, ops).0[p].sets > nodes[p].sets
  {
    hide Matches;
    var init, last := ops[..|ops| - 1], ops[|ops| - 1];
    assert ops == init + [last];
    SetRound(nodes, init);
    assert Each(nodes, ops).1[|init|].None?;
    assert last.path in Each(nodes, init).0.Keys;
    CountsGrow(nodes, init, last.path);
  }

  /**
   Under such a Multi BulkSet would be right in exactly two cases. Among the batches for which it
   reports success, it leaves what setting in turn leaves if and only if no node was missing or the batch
   was a single request; otherwise all writes but the last are lost without an error.
   */
  lemma AllOrNothingDropsWrites(nodes: Nodes, ops: seq<Request>)
    requires AllSets(ops) && TwoRounds(AllOrNothing, nodes, ops).1.None?
    ensures TwoRounds(AllOrNothing, nodes, ops).0 == InTurn(nodes, ops).0
       <==> Missing(nodes, ops) == [] || |ops| == 1
  {
    hide Each, Round, InTurn, Missing, TwoRounds, SetOnce, CreateAll, NoErrors;
    TwoRoundsAllOrNothing(nodes, ops);
    if NoErrors(Each(nodes, ops).1) {
      NoneMissing(nodes, ops);
    } else {
      var init, last := ops[..|ops| - 1], ops[|ops| - 1];
      assert ops == init + [last];
      NoneMissing(nodes, init);
      InTurnSnoc(nodes, init, last);
      SetRound(nodes, init);
      var mid := Each(nodes, init).0;
      assert last.path in mid <==> last.path in mid.Keys;
      MissingIsCreated(mid, last);
      if init == [] {
        TurnNone(nodes);
      } else {
        LeavesATrace(nodes, init);
        var p := init[|init| - 1].path;
        assert nodes[last.path := Node(last.data, 0)][p] != mid[last.path := Node(last.data, 0)][p];
      }
    }
  }

  lemma MissingIsCreated(nodes: Nodes, r: Request)
    requires r.SetData? && r.path !in nodes
    ensures SetOnce(nodes, r) == (nodes[r.path := Node(r.data, 0)], None)
  {
  }

  /** A batch without errors misses no node and is the same as setting in turn. */
  lemma NoneMissing(nodes: Nodes, ops: seq<Request>)
    requires AllSets(ops) && NoErrors(Each(nodes, ops).1)
    ensures Missing(nodes, ops) == [] && InTurn(nodes, ops).0 == Each(nodes, ops).0
  {
    hide Each, InTurn, Missing;
    SetRound(nodes, ops);
    NothingToReport(ops, Each(nodes, ops).1, |ops|);
    NoneIsDistinct();
    RoundsMatchTurns(nodes, ops);
  }

  // ----- BulkDelete with independent operations -----

  predicate AllDeletes(ops: seq<Request>) {
    forall i :: 0 <= i < |ops| ==> ops[i].Delete?
  }

  /** One attempt of the store's Delete when nothing interferes. */
  function DeleteOnce(nodes: Nodes, r: Request): (Nodes, Option<ErrorCode>) {
    var (run, res) := DeleteAttempt(nodes, r, 0, [], Turn([], Delivered, [], Delivered));
    (After(nodes, run), res)
  }

  /** The same at any point of any call. */
  lemma DeleteOnceIsAttempt(base: Nodes, r: Request, me: nat, run: seq<Op>)
    requires r.Delete?
    ensures var (run', res) := DeleteAttempt(base, r, me, run, Turn([], Delivered, [], Delivered));
      DeleteOnce(After(base, run), r) == (After(base, run'), res)
  {
    hide Step, After;
    var here := After(base, run);
    var none: seq<Op> := [];
    assert run + [] == run && none + none == none && none + [Op(0, r)] == [Op(0, r)];
    AfterSnoc(base, run, Op(me, r));
    AfterOne(here, Op(0, r));
  }

  /** The reference: Delete applied to each request in turn; the flag says that all of them succeeded. */
  function DeletesInTurn(nodes: Nodes, ops: seq<Request>): (Nodes, bool)
    requires AllDeletes(ops)
  {
    if ops == [] then (nodes, true)
    else
      var (mid, ok) := DeletesInTurn(nodes, ops[..|ops| - 1]);
      var (after, res) := DeleteOnce(mid, ops[|ops| - 1]);
      (after, ok && res.None?)
  }

  /** Some delete of the batch names the node with a version that it has at the start. */
  predicate Hit(nodes: Nodes, ops: seq<Request>, p: string)
    requires AllDeletes(ops) && p in nodes
  {
    exists i :: 0 <= i < |ops| && ops[i].path == p && Matches(ops[i].version, nodes[p])
  }

  /** What a batch of deletes leaves, whether or not some of them fail. */
  function Unhit(nodes: Nodes, ops: seq<Request>): Nodes
    requires AllDeletes(ops)
  {
    map p | p in nodes && !Hit(nodes, ops, p) :: nodes[p]
  }

  /** Every delete finds its node gone or, as the first to match, removes it. */
  predicate NoneRefused(nodes: Nodes, ops: seq<Request>)
    requires AllDeletes(ops)
  {
    forall i :: 0 <= i < |ops| && ops[i].path in nodes ==> Hit(nodes, ops[..i + 1], ops[i].path)
  }

  lemma HitSnoc(nodes: Nodes, ops: seq<Request>, r: Request, p: string)
    requires AllDeletes(ops) && r.Delete? && p in nodes
    ensures Hit(nodes, ops + [r], p) <==> Hit(nodes, ops, p) || (r.path == p && Matches(r.version, nodes[p]))
  {
    hide Matches;
    var all := ops + [r];
    assert forall i :: 0 <= i < |ops| ==> all[i] == ops[i];
    if r.path == p && Matches(r.version, nodes[p]) {
      assert all[|ops|] == r;
    }
  }

  lemma NoneRefusedSnoc(nodes: Nodes, ops: seq<Request>, r: Request)
    requires AllDeletes(ops) && r.Delete?
    ensures NoneRefused(nodes, ops + [r]) <==>
      NoneRefused(nodes, ops) && (r.path in nodes ==> Hit(nodes, ops + [r], r.path))
  {
    hide Hit;
    var all := ops + [r];
    assert forall i :: 0 <= i < |ops| ==> all[i] == ops[i] && all[..i + 1] == ops[..i + 1];
    assert all[..|ops| + 1] == all && all[|ops|] == r;
  }

  lemma DeleteStep(nodes: Nodes, r: Request)
    requires r.Delete?
    ensures Step(nodes, r).0 == DeleteOnce(nodes, r).0
    ensures DeleteOnce(nodes, r).1.None? <==> Step(nodes, r).1.None? || Step(nodes, r).1 == Some(NoNode)
  {
    hide Step, After;
    AfterOne(nodes, Op(0, r));
    var none: seq<Op> := [];
    assert none + none == none && none + [Op(0, r)] == [Op(0, r)];
  }

  lemma StepOnUnhit(nodes: Nodes, ops: seq<Request>, r: Request)
    requires AllDeletes(ops) && r.Delete?
    ensures Step(Unhit(nodes, ops), r).0 == Unhit(nodes, ops + [r])
    ensures Step(Unhit(nodes, ops), r).1 in {None, Some(NoNode)} <==>
      r.path in nodes ==> Hit(nodes, ops + [r], r.path)
  {
    hide Matches, Hit;
    forall p | p in nodes
      ensures Hit(nodes, ops + [r], p) <==> Hit(nodes, ops, p) || (r.path == p && Matches(r.version, nodes[p]))
    {
      HitSnoc(nodes, ops, r, p);
    }
  }

  lemma {:induction false} DeleteErrorsPrefix(results: seq<Option<ErrorCode>>, res: Option<ErrorCode>, n: nat)
    requires n <= |results|
    ensures DeleteErrors(results + [res], n) == DeleteErrors(results, n)
  {
    if n > 0 {
      DeleteErrorsPrefix(results, res, n - 1);
    }
  }

  lemma DeletesSnoc(nodes: Nodes, ops: seq<Request>, r: Request)
    requires AllDeletes(ops) && r.Delete?
    ensures var (mid, results) := Each(nodes, ops);
      var (after, res) := Step(mid, r);
      && Each(nodes, ops + [r]) == (after, results + [res])
      && (DeleteErrors(results + [res], |ops| + 1) == [] <==>
          DeleteErrors(results, |ops|) == [] && res in {None, Some(NoNode)})
    ensures var (mid, ok) := DeletesInTurn(nodes, ops);
      DeletesInTurn(nodes, ops + [r]) == (DeleteOnce(mid, r).0, ok && DeleteOnce(mid, r).1.None?)
  {
    hide Step, DeleteOnce;
    assert (ops + [r])[..|ops|] == ops;
    var (mid, results) := Each(nodes, ops);
    DeleteErrorsPrefix(results, Step(mid, r).1, |ops|);
  }

  /**
   BulkDelete refines Delete, duplicates and errors included: it leaves what deleting in turn leaves, which is
   every node that no listed delete matches, and it succeeds exactly when every delete in turn does, which is
   when each one's node is missing or matched by it or an earlier one.
   */
  lemma {:induction false} BulkDeleteRefinesDelete(nodes: Nodes, ops: seq<Request>)
    requires AllDeletes(ops)
    ensures var (after, results) := Each(nodes, ops);
      && after == DeletesInTurn(nodes, ops).0 == Unhit(nodes, ops)
      && (DeleteErrors(results, |ops|) == [] <==> DeletesInTurn(nodes, ops).1)
      && (DeletesInTurn(nodes, ops).1 <==> NoneRefused(nodes, ops))
  {
    hide Each, Step, DeleteErrors, DeletesInTurn, DeleteOnce, Hit, Unhit, NoneRefused;
    if ops == [] {
      NoDeletes(nodes);
    } else {
      var init, last := ops[..|ops| - 1], ops[|ops| - 1];
      assert ops == init + [last];
      BulkDeleteRefinesDelete(nodes, init);
      DeletesSnoc(nodes, init, last);
      DeleteStep(Unhit(nodes, init), last);
      StepOnUnhit(nodes, init, last);
      NoneRefusedSnoc(nodes, init, last);
    }
  }

  lemma NoDeletes(nodes: Nodes)
    ensures Each(nodes, []) == (nodes, []) && DeleteErrors([], 0) == []
    ensures DeletesInTurn(nodes, []) == (nodes, true) && Unhit(nodes, []) == nodes && NoneRefused(nodes, [])
  {
  }

  /** Success means that exactly the listed nodes are gone. */
  lemma BulkDeleteRemovesListed(nodes: Nodes, ops: seq<Request>)
    requires AllDeletes(ops) && DeleteErrors(Each(nodes, ops).1, |ops|) == []
    ensures Each(nodes, ops).0 == nodes - set i | 0 <= i < |ops| :: ops[i].path
  {
    hide Each, Step, DeleteErrors, DeletesInTurn, Matches;
    BulkDeleteRefinesDelete(nodes, ops);
    forall p | p in nodes ensures Hit(nodes, ops, p) <==> exists i :: 0 <= i < |ops| && ops[i].path == p {
      if i :| 0 <= i < |ops| && ops[i].path == p {
        assert Hit(nodes, ops[..i + 1], p);
      }
    }
  }

  // ----- BulkDelete as the store runs it -----

  lemma {:induction false} NoDeleteErrors(results: seq<Option<ErrorCode>>, n: nat)
    requires n <= |results| && NoErrors(results)
    ensures DeleteErrors(results, n) == []
  {
    if n > 0 {
      NoDeleteErrors(results, n - 1);
    }
  }

  /** No node is listed twice, and each exists with the version listed. */
  predicate AllMatch(nodes: Nodes, ops: seq<Request>)
    requires AllDeletes(ops)
  {
    Distinct(ops) && forall i :: 0 <= i < |ops| ==> ops[i].path in nodes && Matches(ops[i].version, nodes[ops[i].path])
  }

  lemma {:induction false} NoErrorsIffAllMatch(nodes: Nodes, ops: seq<Request>)
    requires AllDeletes(ops)
    ensures NoErrors(Each(nodes, ops).1) <==> AllMatch(nodes, ops)
  {
    hide Each, Matches, Distinct, DeleteErrors;
    if ops == [] {
      NoDeletes(nodes);
      NoneIsDistinct();
    } else {
      var init, last := ops[..|ops| - 1], ops[|ops| - 1];
      assert ops == init + [last];
      var (mid, results) := Each(nodes, init);
      NoErrorsIffAllMatch(nodes, init);
      OneMore(nodes, init, last);
      DistinctSnoc(init, last);
      NoErrorsSnoc(results, Step(mid, last).1);
      AllMatchSnoc(nodes, init, last);
      if NoErrors(results) {
        NoDeleteErrors(results, |init|);
        BulkDeleteRemovesListed(nodes, init);
      }
    }
  }

  lemma AllMatchSnoc(nodes: Nodes, ops: seq<Request>, r: Request)
    requires AllDeletes(ops) && r.Delete?
    ensures AllMatch(nodes, ops + [r]) <==>
      && AllMatch(nodes, ops) && (forall i :: 0 <= i < |ops| ==> ops[i].path != r.path)
      && r.path in nodes && Matches(r.version, nodes[r.path])
  {
    hide Matches, Distinct;
    DistinctSnoc(ops, r);
    var all := ops + [r];
    assert forall i :: 0 <= i < |ops| ==> all[i] == ops[i];
    assert all[|ops|] == r;
  }

  lemma NoErrorsSnoc(results: seq<Option<ErrorCode>>, res: Option<ErrorCode>)
    ensures NoErrors(results + [res]) <==> NoErrors(results) && res.None?
  {
    var all := results + [res];
    assert all[|results|] == res && forall i :: 0 <= i < |results| ==> all[i] == results[i];
  }

  /**
   BulkDelete as the store runs it succeeds exactly when no node is listed twice and each exists with the
   version listed, and then exactly the listed nodes are gone; otherwise it changes nothing. So one missing
   node fails the whole batch, although Delete counts it as success.
   */
  lemma BulkDeleteAsRun(nodes: Nodes, ops: seq<Request>)
    requires AllDeletes(ops)
    ensures var (after, err) := DeleteRound(ClientMulti, nodes, ops);
      && (err.None? <==> AllMatch(nodes, ops))
      && (err.None? ==>
          && after == nodes - (set i | 0 <= i < |ops| :: ops[i].path)
          && DeletesInTurn(nodes, ops) == (after, true))
      && (err.Some? ==> after == nodes)
  {
    hide Each, Matches, DeleteErrors, DeletesInTurn, AllMatch;
    NoErrorsIffAllMatch(nodes, ops);
    if NoErrors(Each(nodes, ops).1) {
      NoDeleteErrors(Each(nodes, ops).1, |ops|);
      BulkDeleteRemovesListed(nodes, ops);
      BulkDeleteRefinesDelete(nodes, ops);
    }
  }

  /** The requests name different nodes, each of which exists and is accepted by its ETag. */
  predicate AllAccepted(prefix: string -> string, reqs: seq<DeleteRequest>, nodes: Nodes) {
    && (forall i, j :: 0 <= i < j < |reqs| ==> prefix(reqs[i].key) != prefix(reqs[j].key))
    && (forall i :: 0 <= i < |reqs| ==>
         && prefix(reqs[i].key) in nodes
         && Accepts(reqs[i].options, reqs[i].etag, nodes[prefix(reqs[i].key)]))
  }

  /** The same in terms of the requests and their ETags. */
  lemma BulkDeleteAsRequested(prefix: string -> string, reqs: seq<DeleteRequest>, nodes: Nodes)
    requires NewDeletes(prefix, reqs).Some?
    ensures DeleteRound(ClientMulti, nodes, NewDeletes(prefix, reqs).value).1.None? <==>
      AllAccepted(prefix, reqs, nodes)
  {
    hide DeleteRound, Matches, Accepts, AllMatch, AllAccepted, NewDelete, DeletesInTurn;
    var ops := NewDeletes(prefix, reqs).value;
    forall i | 0 <= i < |reqs| ensures BuiltFrom(prefix, reqs[i], ops[i]) {
      DeleteByETag(prefix, reqs[i]);
    }
    BulkDeleteAsRun(nodes, ops);
    MatchedIfAccepted(prefix, reqs, ops, nodes);
    AcceptedIfMatched(prefix, reqs, ops, nodes);
  }

  ghost predicate BuiltFrom(prefix: string -> string, req: DeleteRequest, r: Request) {
    && r.Delete? && r.path == prefix(req.key)
    && forall n: Node :: Matches(r.version, n) <==> Accepts(req.options, req.etag, n)
  }

  lemma MatchedIfAccepted(prefix: string -> string, reqs: seq<DeleteRequest>, ops: seq<Request>, nodes: Nodes)
    requires |ops| == |reqs| && forall i :: 0 <= i < |ops| ==> BuiltFrom(prefix, reqs[i], ops[i])
    ensures AllDeletes(ops) && (AllAccepted(prefix, reqs, nodes) ==> AllMatch(nodes, ops))
  {
    hide Matches, Accepts;
  }

  lemma AcceptedIfMatched(prefix: string -> string, reqs: seq<DeleteRequest>, ops: seq<Request>, nodes: Nodes)
    requires |ops| == |reqs| && forall i :: 0 <= i < |ops| ==> BuiltFrom(prefix, reqs[i], ops[i])
    ensures AllDeletes(ops) && (AllMatch(nodes, ops) ==> AllAccepted(prefix, reqs, nodes))
  {
    hide Matches, Accepts;
    if AllMatch(nodes, ops) {
      forall i, j | 0 <= i < j < |reqs| ensures prefix(reqs[i].key) != prefix(reqs[j].key) {
        assert ops[i].path != ops[j].path;
      }
      forall i | 0 <= i < |reqs| ensures
        && prefix(reqs[i].key) in nodes
        && Accepts(reqs[i].options, reqs[i].etag, nodes[prefix(reqs[i].key)])
      {
        assert ops[i].path in nodes && Matches(ops[i].version, nodes[ops[i].path]);
      }
    }
  }

  /** Each set-data of a batch carries its request's path and data, and matches what its ETag accepts. */
  lemma BulkSetAsRequested(prefix: string -> string, reqs: seq<SetRequest>, i: nat, n: Node)
    requires NewSetDatas(prefix, reqs).Some? && i < |reqs|
    ensures var r, value := NewSetDatas(prefix, reqs).value[i], reqs[i].value;
      && r.path == prefix(reqs[i].key)
      && (value.raw.Some? ==> r.data == value.raw.value)
      && (value.raw.None? ==> value.json == Some(r.data))
      && (Matches(r.version, n) <==> Accepts(reqs[i].options, reqs[i].etag, n))
  {
    hide Matches, Accepts;
    assert NewSetData(prefix, reqs[i]) == Some(NewSetDatas(prefix, reqs).value[i]);
    VersionDecides(reqs[i].options, reqs[i].etag, n);
  }

  // ----- The errors a batch reports -----

  /** BulkSet reports every error but those it retries, and BulkDelete every error but missing nodes. */
  lemma {:induction false} ErrorsReported(ops: seq<Request>, results: seq<Option<ErrorCode>>, n: nat, e: ErrorCode)
    requires n <= |results|
    ensures e in Errors(ops, results, n) <==>
      exists i :: 0 <= i < n && results[i] == Some(e) && !(e == NoNode && i < |ops| && ops[i].SetData?)
    ensures e in DeleteErrors(results, n) <==> e != NoNode && exists i :: 0 <= i < n && results[i] == Some(e)
  {
    if n > 0 {
      ErrorsReported(ops, results, n - 1, e);
    }
  }
}
