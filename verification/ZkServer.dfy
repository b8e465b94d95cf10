/**
 ZooKeeper behind the Conn interface of state/zookeeper/zk.go: a flat set of nodes, each with data and the
 number of times it was set since its creation, which clients see as a 32-bit counter.
 */
module ZkServer {
  import opened Common
  import opened VersionedCell

  const ANY_VERSION: int := -1

  datatype Node = Node(data: string, sets: nat)

  type Nodes = map<string, Node>

  function VersionOf(n: Node): int {
    Wrap32(n.sets)
  }

  datatype Request =
    | SetData(path: string, data: string, version: int)
    | Create(path: string, data: string)
    | Delete(path: string, version: int)

  datatype ErrorCode =
    | NoNode
    | BadVersion
    | NodeExists
    | Inconsistent
    | Disconnected
    | InvalidRequest
    | Other(code: int)

  predicate Matches(version: int, n: Node) {
    version == ANY_VERSION || version == VersionOf(n)
  }

  /** Conn.Set, Conn.Create and Conn.Delete, each atomic. */
  function Step(nodes: Nodes, r: Request): (Nodes, Option<ErrorCode>) {
    match r
    case SetData(path, data, version) =>
      if path !in nodes then (nodes, Some(NoNode))
      else if !Matches(version, nodes[path]) then (nodes, Some(BadVersion))
      else (nodes[path := Node(data, nodes[path].sets + 1)], None)
    case Create(path, data) =>
      if path in nodes then (nodes, Some(NodeExists)) else (nodes[path := Node(data, 0)], None)
    case Delete(path, version) =>
      if path !in nodes then (nodes, Some(NoNode))
      else if !Matches(version, nodes[path]) then (nodes, Some(BadVersion))
      else (nodes - {path}, None)
  }

  // ----- Runs of any clients -----

  datatype Op = Op(caller: nat, req: Request)

  function After(nodes: Nodes, run: seq<Op>): Nodes {
    if run == [] then nodes else Step(After(nodes, run[..|run| - 1]), run[|run| - 1].req).0
  }

  function At(nodes: Nodes, run: seq<Op>, i: nat): Nodes
    requires i <= |run|
  {
    After(nodes, run[..i])
  }

  predicate Applied(nodes: Nodes, run: seq<Op>, path: string, i: nat)
    requires i < |run|
  {
    run[i].req.path == path && Step(At(nodes, run, i), run[i].req).1.None?
  }

  lemma AtNext(nodes: Nodes, run: seq<Op>, i: nat)
    requires i < |run|
    ensures At(nodes, run, i + 1) == Step(At(nodes, run, i), run[i].req).0
  {
    assert run[..i + 1][..i] == run[..i];
  }

  lemma AfterSnoc(nodes: Nodes, run: seq<Op>, op: Op)
    ensures After(nodes, run + [op]) == Step(After(nodes, run), op.req).0
  {
    hide Step;
    assert (run + [op])[..|run|] == run;
  }

  lemma AfterOne(nodes: Nodes, op: Op)
    ensures After(nodes, []) == nodes && After(nodes, [op]) == Step(nodes, op.req).0
  {
    hide Step;
    assert [op][..0] == [];
  }

  lemma {:induction false} AfterConcat(nodes: Nodes, run: seq<Op>, more: seq<Op>)
    ensures After(nodes, run + more) == After(After(nodes, run), more)
  {
    hide Step;
    if more == [] {
      assert run + more == run;
    } else {
      assert (run + more)[..|run + more| - 1] == run + more[..|more| - 1];
      AfterConcat(nodes, run, more[..|more| - 1]);
    }
  }

  /** Op i deletes the node. */
  predicate Ends(nodes: Nodes, run: seq<Op>, path: string, i: nat)
    requires i < |run|
  {
    run[i].req.Delete? && Applied(nodes, run, path, i)
  }

  /** The node exists at every instant of the run: one lifetime. */
  ghost predicate Alive(nodes: Nodes, run: seq<Op>, path: string) {
    forall i :: 0 <= i <= |run| ==> path in At(nodes, run, i)
  }

  /** Only an applied delete takes a node away. */
  lemma {:induction false} StaysAlive(nodes: Nodes, run: seq<Op>, path: string, i: nat, j: nat)
    requires i <= j <= |run| && path in At(nodes, run, i)
    requires forall p :: i <= p < j ==> !Ends(nodes, run, path, p)
    ensures path in At(nodes, run, j)
    decreases j - i
  {
    hide Matches;
    if i < j {
      StaysAlive(nodes, run, path, i, j - 1);
      AtNext(nodes, run, j - 1);
      assert !Ends(nodes, run, path, j - 1);
    }
  }

  ghost function Cells(nodes: Nodes, run: seq<Op>, path: string): (cells: seq<Cell<string>>)
    requires Alive(nodes, run, path)
    ensures |cells| == |run| + 1
    ensures forall i :: 0 <= i <= |run| ==>
      cells[i] == Cell(At(nodes, run, i)[path].data, At(nodes, run, i)[path].sets)
  {
    seq(|run| + 1, i requires 0 <= i <= |run| => Cell(At(nodes, run, i)[path].data, At(nodes, run, i)[path].sets))
  }

  lemma CellsEvolve(nodes: Nodes, run: seq<Op>, path: string, ceiling: int)
    requires Alive(nodes, run, path)
    ensures Lifetime(Cells(nodes, run, path), ceiling)
  {
    hide Matches;
    var cells := Cells(nodes, run, path);
    forall i | 0 < i < |cells| ensures Evolves(cells[i - 1], cells[i], ceiling) {
      AtNext(nodes, run, i - 1);
    }
  }

  lemma WrapInjective(a: int, b: int)
    requires Wrap32(a) == Wrap32(b) && -TWO_TO_THE_32 < a - b < TWO_TO_THE_32
    ensures a == b
  {
    var p, q := (a - Wrap32(a)) / TWO_TO_THE_32, (b - Wrap32(b)) / TWO_TO_THE_32;
    assert a == Wrap32(a) + p * TWO_TO_THE_32 && b == Wrap32(b) + q * TWO_TO_THE_32;
    assert a - b == (p - q) * TWO_TO_THE_32;
  }

  /** How often the node was set from instant i to instant j of one lifetime. */
  ghost function SetsBetween(nodes: Nodes, run: seq<Op>, path: string, i: nat, j: nat): int
    requires i <= |run| && path in At(nodes, run, i) && j <= |run| && path in At(nodes, run, j)
  {
    At(nodes, run, j)[path].sets - At(nodes, run, i)[path].sets
  }

  /** Equal 32-bit versions of one lifetime mean equal counts exactly if fewer than 2^32 sets lie between. */
  lemma SameVersionSameCount(nodes: Nodes, run: seq<Op>, path: string, i: nat, j: nat)
    requires Alive(nodes, run, path) && i <= j <= |run|
    requires VersionOf(At(nodes, run, i)[path]) == VersionOf(At(nodes, run, j)[path])
    ensures At(nodes, run, i)[path].sets <= At(nodes, run, j)[path].sets
    ensures At(nodes, run, i)[path].sets == At(nodes, run, j)[path].sets
       <==> SetsBetween(nodes, run, path, i, j) < TWO_TO_THE_32
  {
    hide Wrap32;
    CellsEvolve(nodes, run, path, 0);
    var cells := Cells(nodes, run, path);
    VersionsOnlyGrow(cells, 0, i, j);
    if SetsBetween(nodes, run, path, i, j) < TWO_TO_THE_32 {
      WrapInjective(cells[i].version, cells[j].version);
    }
  }

  /**
   No lost update: in one lifetime, two applied set-datas that carry the same version are one and the same,
   exactly if the node was set fewer than 2^32 times from the one to the other.
   */
  lemma NoLostUpdate(nodes: Nodes, run: seq<Op>, path: string, i: nat, j: nat)
    requires Alive(nodes, run, path) && i <= j < |run|
    requires Applied(nodes, run, path, i) && run[i].req.SetData?
    requires Applied(nodes, run, path, j) && run[j].req.SetData?
    requires run[i].req.version == run[j].req.version != ANY_VERSION
    ensures i == j <==> SetsBetween(nodes, run, path, i, j) < TWO_TO_THE_32
  {
    hide Wrap32;
    if i < j {
      CellsEvolve(nodes, run, path, 0);
      AtNext(nodes, run, i);
      OvertakenForGood(Cells(nodes, run, path), 0, i, j);
      SameVersionSameCount(nodes, run, path, i, j);
    }
  }

  /** What lies within a run lies within its sets. */
  lemma SetsBetweenAtMost(nodes: Nodes, run: seq<Op>, path: string, i: nat, j: nat)
    requires Alive(nodes, run, path) && i <= j <= |run|
    ensures SetsBetween(nodes, run, path, i, j) <= SetsBetween(nodes, run, path, 0, |run|)
  {
    CellsEvolve(nodes, run, path, 0);
    var cells := Cells(nodes, run, path);
    VersionsOnlyGrow(cells, 0, 0, i);
    VersionsOnlyGrow(cells, 0, j, |run|);
  }

  /** An ETag determines the data: equal versions in one lifetime show the same node under the same condition. */
  lemma ETagDeterminesData(nodes: Nodes, run: seq<Op>, path: string, i: nat, j: nat)
    requires Alive(nodes, run, path) && i <= j <= |run|
    requires VersionOf(At(nodes, run, i)[path]) == VersionOf(At(nodes, run, j)[path])
    ensures At(nodes, run, i)[path] == At(nodes, run, j)[path]
       <==> SetsBetween(nodes, run, path, i, j) < TWO_TO_THE_32
  {
    SameVersionSameCount(nodes, run, path, i, j);
    if SetsBetween(nodes, run, path, i, j) < TWO_TO_THE_32 {
      var cells := Cells(nodes, run, path);
      var ceiling := cells[j].version + 1;
      CellsEvolve(nodes, run, path, ceiling);
      VersionDeterminesData(cells, ceiling, i, j);
    }
  }

  /** A stretch of unconditional set-datas counts up by its length. */
  lemma {:induction false} SetsCountUp(nodes: Nodes, run: seq<Op>, path: string, i: nat, j: nat)
    requires i <= j <= |run| && path in At(nodes, run, i)
    requires forall p :: i <= p < j ==>
      run[p].req.SetData? && run[p].req.path == path && run[p].req.version == ANY_VERSION
    ensures path in At(nodes, run, j) && SetsBetween(nodes, run, path, i, j) == j - i
    decreases j - i
  {
    hide Wrap32;
    if i < j {
      SetsCountUp(nodes, run, path, i, j - 1);
      AtNext(nodes, run, j - 1);
    }
  }

  /** Op p created the node, and nothing since then, up to instant j, deleted it. */
  ghost predicate RevivedBy(nodes: Nodes, run: seq<Op>, path: string, p: nat, j: nat)
    requires j <= |run|
  {
    p < j && run[p].req.Create? && Applied(nodes, run, path, p) && forall q :: p < q < j ==> !Ends(nodes, run, path, q)
  }

  lemma {:induction false} RevivedSince(nodes: Nodes, run: seq<Op>, path: string, i: nat, j: nat) returns (p: nat)
    requires i <= j <= |run| && path !in At(nodes, run, i) && path in At(nodes, run, j)
    ensures i <= p && RevivedBy(nodes, run, path, p, j)
    decreases j - i
  {
    hide Matches;
    AtNext(nodes, run, j - 1);
    if path !in At(nodes, run, j - 1) {
      p := j - 1;
    } else {
      p := RevivedSince(nodes, run, path, i, j - 1);
    }
  }

  /** A missing node exists later exactly if an applied create has been left standing. */
  lemma ExistsIffRevived(nodes: Nodes, run: seq<Op>, path: string, i: nat, j: nat)
    requires i <= j <= |run| && path !in At(nodes, run, i)
    ensures path in At(nodes, run, j) <==> exists p: nat :: i <= p && RevivedBy(nodes, run, path, p, j)
  {
    hide Matches;
    if exists p: nat :: i <= p && RevivedBy(nodes, run, path, p, j) {
      var p: nat :| i <= p && RevivedBy(nodes, run, path, p, j);
      AtNext(nodes, run, p);
      StaysAlive(nodes, run, path, p + 1, j);
    }
    if path in At(nodes, run, j) {
      var p := RevivedSince(nodes, run, path, i, j);
    }
  }

  // ----- Accounting -----

  function Count(nodes: Nodes, path: string): nat {
    if path in nodes then nodes[path].sets else 0
  }

  /**
   The number of sets applied to path since its last creation, from the number at the start and from requests
   and results alone.
   */
  function SetsSinceBirth(nodes: Nodes, run: seq<Op>, path: string, n: nat, first: nat): nat
    requires n <= |run|
  {
    if n == 0 then first
    else if !Applied(nodes, run, path, n - 1) then SetsSinceBirth(nodes, run, path, n - 1, first)
    else if run[n - 1].req.SetData? then SetsSinceBirth(nodes, run, path, n - 1, first) + 1
    else 0
  }

  lemma {:induction false} SetsAreCounted(nodes: Nodes, run: seq<Op>, path: string, n: nat)
    requires n <= |run|
    ensures SetsSinceBirth(nodes, run, path, n, Count(nodes, path)) == Count(At(nodes, run, n), path)
  {
    hide Matches;
    if n == 0 {
      assert run[..0] == [];
    } else {
      SetsAreCounted(nodes, run, path, n - 1);
      AtNext(nodes, run, n - 1);
    }
  }

  /** At every instant the version is that number, as 32 bits; it equals the wildcard only after 2^32 - 1 sets. */
  lemma VersionAccounting(nodes: Nodes, run: seq<Op>, path: string, n: nat)
    requires n <= |run|
    ensures var count := SetsSinceBirth(nodes, run, path, n, Count(nodes, path));
      if path in At(nodes, run, n) then
        && VersionOf(At(nodes, run, n)[path]) == Wrap32(count)
        && (VersionOf(At(nodes, run, n)[path]) == ANY_VERSION <==> (count + 1) % TWO_TO_THE_32 == 0)
      else count == 0
  {
    hide At, SetsSinceBirth, Wrap32;
    SetsAreCounted(nodes, run, path, n);
    WildcardCount(SetsSinceBirth(nodes, run, path, n, Count(nodes, path)));
  }

  lemma WildcardCount(sets: nat)
    ensures Wrap32(sets) == ANY_VERSION <==> (sets + 1) % TWO_TO_THE_32 == 0
  {
  }
}
