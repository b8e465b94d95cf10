/**
 state/cassandra/cassandra.go: which consistency levels Get and Set ask for, and what they guarantee over
 a replicated key. Replication is SimpleStrategy, one data centre, so the local and the each-quorum levels
 count like the plain ones. Each replica keeps the write with the highest timestamp it has received.
 */
module Cassandra {
  import opened Common
  import opened Requests

  datatype Level = Any | One | Two | Three | Quorum | All | LocalQuorum | EachQuorum | LocalOne

  /** getConsistency. */
  function GetConsistency(name: string): Option<Level> {
    match name
    case "All" => Some(All)
    case "One" => Some(One)
    case "Two" => Some(Two)
    case "Three" => Some(Three)
    case "Quorum" => Some(Quorum)
    case "LocalQuorum" => Some(LocalQuorum)
    case "EachQuorum" => Some(EachQuorum)
    case "LocalOne" => Some(LocalOne)
    case "Any" => Some(Any)
    case "" => Some(All)
    case _ => None
  }

  function LevelName(level: Level): string {
    match level
    case Any => "Any"
    case One => "One"
    case Two => "Two"
    case Three => "Three"
    case Quorum => "Quorum"
    case All => "All"
    case LocalQuorum => "LocalQuorum"
    case EachQuorum => "EachQuorum"
    case LocalOne => "LocalOne"
  }

  /** The configuration names every level once; the empty name is the default All, other names are errors. */
  lemma ConsistencyNames(name: string, level: Level)
    ensures GetConsistency(name) == Some(level) <==> name == LevelName(level) || (name == "" && level == All)
  {
  }

  /** The level of the session Get uses: its own for a known option, else the configured one. */
  function GetLevel(configured: Level, consistency: string): Level {
    if consistency == STRONG then All else if consistency == EVENTUAL then One else configured
  }

  /** The level of the session Set uses. */
  function SetLevel(configured: Level, consistency: string): Level {
    if consistency == STRONG then Quorum else if consistency == EVENTUAL then Any else configured
  }

  /** How many of n replicas must have stored a write before it is acknowledged; Any settles for a hint. */
  function WriteNeed(level: Level, n: nat): nat {
    match level
    case Any => 0
    case One => 1
    case Two => 2
    case Three => 3
    case Quorum => n / 2 + 1
    case All => n
    case LocalQuorum => n / 2 + 1
    case EachQuorum => n / 2 + 1
    case LocalOne => 1
  }

  /** How many of n replicas must answer a read; there are no reads at Any. */
  function ReadNeed(level: Level, n: nat): Option<nat> {
    if level == Any then None else Some(WriteNeed(level, n))
  }

  // ----- Replicas -----

  datatype Write = Write(stamp: nat, value: string)

  /** A write reaches a replica: at once, late, or in repair; any write may reach any replica at any time. */
  datatype Event = Deliver(write: Write, replica: nat)

  type Cell = Option<Write>

  function Merge(cell: Cell, w: Write): Cell {
    if cell.None? || w.stamp > cell.value.stamp then Some(w) else cell
  }

  /** What replica r holds after a history. */
  function Holds(history: seq<Event>, r: nat): Cell {
    if history == [] then None
    else
      var before, last := Holds(history[..|history| - 1], r), history[|history| - 1];
      if last.replica == r then Merge(before, last.write) else before
  }

  function Replicas(n: nat): (s: set<nat>)
    ensures |s| == n && forall r: nat :: r in s <==> r < n
  {
    if n == 0 then {} else Replicas(n - 1) + {n - 1}
  }

  predicate Received(history: seq<Event>, w: Write, r: nat) {
    exists i :: 0 <= i < |history| && history[i] == Deliver(w, r)
  }

  /** The write was acknowledged at the level: enough replicas have received it. */
  predicate Acknowledged(n: nat, level: Level, history: seq<Event>, w: Write) {
    |set r | r in Replicas(n) && Received(history, w, r)| >= WriteNeed(level, n)
  }

  /** A successful read: enough replicas were asked, and the newest of their answers is returned. */
  ghost predicate ReadReturns(n: nat, level: Level, history: seq<Event>, asked: set<nat>, result: Cell) {
    && ReadNeed(level, n).Some? && |asked| >= ReadNeed(level, n).value
    && (forall r :: r in asked ==> r < n)
    && (result.Some? ==> exists r :: r in asked && Holds(history, r) == result)
    && (forall r :: r in asked && Holds(history, r).Some? ==>
         result.Some? && result.value.stamp >= Holds(history, r).value.stamp)
  }

  lemma {:induction false} HoldsConcat(history: seq<Event>, later: seq<Event>, r: nat)
    requires Holds(history, r).Some?
    ensures Holds(history + later, r).Some?
    ensures Holds(history + later, r).value.stamp >= Holds(history, r).value.stamp
  {
    if later == [] {
      assert history + later == history;
    } else {
      HoldsConcat(history, later[..|later| - 1], r);
      assert (history + later)[..|history + later| - 1] == history + later[..|later| - 1];
    }
  }

  /** A replica never goes back behind a write it has received. */
  lemma ReceivedIsKept(history: seq<Event>, w: Write, r: nat)
    requires Received(history, w, r)
    ensures Holds(history, r).Some? && Holds(history, r).value.stamp >= w.stamp
  {
    var i :| 0 <= i < |history| && history[i] == Deliver(w, r);
    assert history[..i + 1][..i] == history[..i];
    assert history == history[..i + 1] + history[i + 1..];
    HoldsConcat(history[..i + 1], history[i + 1..], r);
  }

  /** A replica holds only writes that somebody made. */
  lemma {:induction false} HeldWasReceived(history: seq<Event>, r: nat)
    requires Holds(history, r).Some?
    ensures Received(history, Holds(history, r).value, r)
  {
    var init, last := history[..|history| - 1], history[|history| - 1];
    if last.replica == r && Holds(history, r) == Some(last.write) {
      assert history[|history| - 1] == Deliver(last.write, r);
    } else {
      HeldWasReceived(init, r);
      var i :| 0 <= i < |init| && init[i] == Deliver(Holds(history, r).value, r);
      assert history[i] == Deliver(Holds(history, r).value, r);
    }
  }

  /** Two sets of replicas that together count more than n share one. */
  lemma QuorumsMeet(n: nat, a: set<nat>, b: set<nat>) returns (r: nat)
    requires a <= Replicas(n) && b <= Replicas(n) && |a| + |b| > n
    ensures r in a && r in b
  {
    if a * b == {} {
      assert |a + b| == |a| + |b|;
      Subset(a + b, Replicas(n));
    }
    r :| r in a * b;
  }

  lemma {:induction false} Subset(a: set<nat>, b: set<nat>)
    requires a <= b
    ensures |a| <= |b|
  {
    if a != {} {
      var x :| x in a;
      Subset(a - {x}, b - {x});
    }
  }

  /** A read at rl that answers although an older acknowledged write at wl is missing from its answer. */
  ghost predicate Stale(n: nat, wl: Level, rl: Level, history: seq<Event>, w: Write, later: seq<Event>,
                        asked: set<nat>, result: Cell)
  {
    && Acknowledged(n, wl, history, w)
    && ReadReturns(n, rl, history + later, asked, result)
    && (result.None? || result.value.stamp < w.stamp)
  }

  ghost predicate NeverStale(n: nat, wl: Level, rl: Level) {
    forall history, w, later, asked, result :: !Stale(n, wl, rl, history, w, later, asked, result)
  }

  lemma OverlapIsFresh(n: nat, wl: Level, rl: Level, history: seq<Event>, w: Write, later: seq<Event>,
                       asked: set<nat>, result: Cell)
    requires ReadNeed(rl, n).Some? && WriteNeed(wl, n) + ReadNeed(rl, n).value > n
    requires Acknowledged(n, wl, history, w) && ReadReturns(n, rl, history + later, asked, result)
    ensures result.Some? && result.value.stamp >= w.stamp
    ensures exists r :: r in asked && Received(history + later, result.value, r)
  {
    var stored := set r | r in Replicas(n) && Received(history, w, r);
    var r := QuorumsMeet(n, stored, asked);
    ReceivedIsKept(history, w, r);
    HoldsConcat(history, later, r);
    var s :| s in asked && Holds(history + later, s) == result;
    HeldWasReceived(history + later, s);
  }

  /** w delivered to the first k replicas. */
  function DeliverTo(w: Write, k: nat): seq<Event> {
    if k == 0 then [] else DeliverTo(w, k - 1) + [Deliver(w, k - 1)]
  }

  lemma {:induction false} DeliveredTo(w: Write, k: nat, r: nat)
    ensures if r < k then Received(DeliverTo(w, k), w, r) else Holds(DeliverTo(w, k), r).None?
  {
    if k > 0 {
      var h, all := DeliverTo(w, k - 1), DeliverTo(w, k);
      DeliveredTo(w, k - 1, r);
      assert all[..|h|] == h && all[|h|] == Deliver(w, k - 1);
      if r < k - 1 {
        var i :| 0 <= i < |h| && h[i] == Deliver(w, r);
        assert all[i] == Deliver(w, r);
      }
    }
  }

  /** Without overlap there is a stale read: the write on some replicas, the read on others. */
  lemma NoOverlapIsStale(n: nat, wl: Level, rl: Level, w: Write)
    requires ReadNeed(rl, n).Some? && WriteNeed(wl, n) + ReadNeed(rl, n).value <= n
    ensures exists history, asked :: Stale(n, wl, rl, history, w, [], asked, None)
  {
    var k := WriteNeed(wl, n);
    var history := DeliverTo(w, k);
    forall r: nat ensures if r < k then Received(history, w, r) else Holds(history, r).None? {
      DeliveredTo(w, k, r);
    }
    var asked := Replicas(n) - Replicas(k);
    assert Replicas(k) <= Replicas(n);
    assert |asked| == n - k;
    var stored := set r | r in Replicas(n) && Received(history, w, r);
    Subset(Replicas(k), stored);
    assert history + [] == history;
    assert Stale(n, wl, rl, history, w, [], asked, None);
  }

  /**
   Reads at rl always return the latest write acknowledged at wl, or a newer one, in every history, exactly
   when the two levels together need more than all replicas.
   */
  lemma FreshIffOverlap(n: nat, wl: Level, rl: Level)
    requires ReadNeed(rl, n).Some?
    ensures NeverStale(n, wl, rl) <==> WriteNeed(wl, n) + ReadNeed(rl, n).value > n
  {
    if WriteNeed(wl, n) + ReadNeed(rl, n).value > n {
      forall history, w, later, asked, result ensures !Stale(n, wl, rl, history, w, later, asked, result) {
        if Acknowledged(n, wl, history, w) && ReadReturns(n, rl, history + later, asked, result) {
          OverlapIsFresh(n, wl, rl, history, w, later, asked, result);
        }
      }
    } else {
      NoOverlapIsStale(n, wl, rl, Write(0, ""));
    }
  }

  /**
   The levels the store picks. A strong read is never stale after a write at any level but Any, so strong reads
   see strong writes at every replication factor; an eventual write may escape even a strong read, and an
   eventual read sees every strong write only up to two replicas. The default and a quorum configuration are
   safe by themselves.
   */
  lemma StrongSeesStrong(n: nat, configured: Level, consistency: string)
    requires n >= 1
    ensures forall wl: Level :: NeverStale(n, wl, GetLevel(configured, "strong")) <==> wl != Any
    ensures NeverStale(n, SetLevel(configured, "strong"), GetLevel(configured, "strong"))
    ensures !NeverStale(n, SetLevel(configured, "eventual"), GetLevel(configured, "strong"))
    ensures !NeverStale(n, SetLevel(configured, "eventual"), GetLevel(configured, "eventual"))
    ensures NeverStale(n, SetLevel(configured, "strong"), GetLevel(configured, "eventual")) <==> n <= 2
    ensures consistency !in {"strong", "eventual"} ==>
      && SetLevel(configured, consistency) == GetLevel(configured, consistency) == configured
      && (configured in {Quorum, LocalQuorum, EachQuorum, All} ==>
           NeverStale(n, SetLevel(configured, consistency), GetLevel(configured, consistency)))
  {
    forall wl: Level ensures NeverStale(n, wl, All) <==> wl != Any {
      FreshIffOverlap(n, wl, All);
    }
    FreshIffOverlap(n, Any, One);
    FreshIffOverlap(n, Quorum, One);
    if configured != Any {
      FreshIffOverlap(n, configured, configured);
    }
  }
}
