/**
 pubsub/redis/redis.go: a topic as a Redis stream read through one consumer group. Every session uses the
 same consumer name, so they share one pending list. The state machine interleaves any number of
 publishers and sessions; sessions may crash anywhere, and acknowledgements and read replies may be lost.
 */
module Streams {
  import opened Common

  /** Where a session reads next: its first read asks for the pending entries, all later ones for new ones. */
  datatype Start = FromPending | FromNew

  /** queue: entries read and not yet handled; acking: handled with success, acknowledgement not yet sent. */
  datatype Session = Session(start: Start, queue: seq<nat>, acking: Option<nat>)

  /** A handler call: who made it, for which entry, with which data, and whether it returned nil. */
  datatype Call = Call(session: nat, id: nat, data: string, ok: bool)

  /** Entry ids are positions in the log. calls is every handler call so far, with its outcome. */
  datatype Topic = Topic(
    log: seq<string>,
    cursor: nat,
    pending: set<nat>,
    acked: set<nat>,
    sessions: map<nat, Session>,
    used: set<nat>,
    calls: seq<Call>)

  datatype Step =
    | Publish(data: string)
    | Subscribe(session: nat)
    | Read(session: nat)
    | ReadLost(session: nat)
    | Handle(session: nat, ok: bool)
    | Ack(session: nat, delivered: bool)
    | Crash(session: nat)

  const EMPTY := Topic([], 0, {}, {}, map[], {}, [])

  /** The members of s below n, ascending: the order in which XREADGROUP lists entries. */
  function Ascending(s: set<nat>, n: nat): (r: seq<nat>)
    ensures forall x :: x in r <==> x in s && x < n
    ensures Increasing(r)
  {
    if n == 0 then []
    else
      var below := Ascending(s, n - 1);
      assert forall i :: 0 <= i < |below| ==> below[i] in below;
      below + if n - 1 in s then [n - 1] else []
  }

  predicate Increasing(r: seq<nat>) {
    forall i, j :: 0 <= i < j < |r| ==> r[i] < r[j]
  }

  /** The ids from lo up to, not including, hi. */
  function Ids(lo: nat, hi: nat): (r: set<nat>)
    ensures forall x :: x in r <==> lo <= x < hi
    decreases hi
  {
    if hi <= lo then {} else Ids(lo, hi - 1) + {hi - 1}
  }

  /** The entries never delivered to the group. */
  function Undelivered(t: Topic): set<nat> {
    Ids(t.cursor, |t.log|)
  }

  /** XREADGROUP ">" on the server: everything undelivered becomes pending. */
  function DeliverNew(t: Topic): Topic {
    t.(pending := t.pending + Undelivered(t), cursor := if t.cursor <= |t.log| then |t.log| else t.cursor)
  }

  /** One atomic step; a step that is not enabled changes nothing. */
  function Next(t: Topic, step: Step): Topic {
    match step
    case Publish(data) => t.(log := t.log + [data])
    case Subscribe(s) =>
      if s in t.used then t
      else t.(sessions := t.sessions[s := Session(FromPending, [], None)], used := t.used + {s})
    case Read(s) =>
      if s !in t.sessions || t.sessions[s].queue != [] || t.sessions[s].acking.Some? then t
      else if t.sessions[s].start.FromPending? then
        t.(sessions := t.sessions[s := Session(FromNew, Ascending(t.pending, t.cursor), None)])
      else
        DeliverNew(t).(sessions := t.sessions[s := Session(FromNew, Ascending(Undelivered(t), |t.log|), None)])
    case ReadLost(s) =>
      if s !in t.sessions || t.sessions[s].queue != [] || t.sessions[s].acking.Some? then t
      else if t.sessions[s].start.FromPending? then t
      else DeliverNew(t)
    case Handle(s, ok) =>
      if s !in t.sessions || t.sessions[s].queue == [] || t.sessions[s].acking.Some? then t
      else
        var session := t.sessions[s];
        var id := session.queue[0];
        t.(sessions := t.sessions[s := session.(queue := session.queue[1..], acking := if ok then Some(id) else None)],
           calls := t.calls + [Call(s, id, if id < |t.log| then t.log[id] else "", ok)])
    case Ack(s, delivered) =>
      if s !in t.sessions || t.sessions[s].acking.None? then t
      else
        var id := t.sessions[s].acking.value;
        var done := t.(sessions := t.sessions[s := t.sessions[s].(acking := None)]);
        if delivered && id in t.pending then done.(pending := t.pending - {id}, acked := t.acked + {id}) else done
    case Crash(s) => t.(sessions := t.sessions - {s})
  }

  function Run(t: Topic, steps: seq<Step>): Topic {
    if steps == [] then t else Next(Run(t, steps[..|steps| - 1]), steps[|steps| - 1])
  }

  // ----- What every step keeps -----

  /** Some handler call on the entry returned nil. */
  ghost predicate HandledOk(calls: seq<Call>, id: nat) {
    exists i :: 0 <= i < |calls| && calls[i].id == id && calls[i].ok
  }

  /** Every published entry is undelivered, pending or acknowledged, and only one of these. */
  ghost predicate Conserved(t: Topic) {
    && t.cursor <= |t.log|
    && t.pending !! t.acked
    && (forall i :: i in t.pending || i in t.acked <==> 0 <= i < t.cursor)
  }

  ghost predicate AckedWereHandled(t: Topic) {
    && (forall id :: id in t.acked ==> HandledOk(t.calls, id))
    && (forall s :: s in t.sessions && t.sessions[s].acking.Some? ==> HandledOk(t.calls, t.sessions[s].acking.value))
  }

  /** The entries a session handed to its handler, in order. */
  function SeenBy(calls: seq<Call>, s: nat): seq<nat> {
    if calls == [] then []
    else
      var last := calls[|calls| - 1];
      SeenBy(calls[..|calls| - 1], s) + if last.session == s then [last.id] else []
  }

  ghost predicate InOrder(t: Topic, s: nat) {
    && Increasing(SeenBy(t.calls, s))
    && (s !in t.used ==> SeenBy(t.calls, s) == [])
    && (forall x :: x in SeenBy(t.calls, s) ==> x < t.cursor)
    && (s in t.sessions ==>
      && s in t.used
      && Increasing(SeenBy(t.calls, s) + t.sessions[s].queue)
      && (forall x :: x in t.sessions[s].queue ==> x < t.cursor)
      && (t.sessions[s].acking.Some? ==> t.sessions[s].acking.value in SeenBy(t.calls, s))
      && (t.sessions[s].start.FromPending? ==> SeenBy(t.calls, s) == [] && t.sessions[s].queue == []))
  }

  lemma ConservedNext(t: Topic, step: Step)
    requires Conserved(t)
    ensures Conserved(Next(t, step))
  {
  }

  lemma HandledOkGrows(calls: seq<Call>, call: Call, id: nat)
    requires HandledOk(calls, id) || (call.id == id && call.ok)
    ensures HandledOk(calls + [call], id)
  {
    if HandledOk(calls, id) {
      var i :| 0 <= i < |calls| && calls[i].id == id && calls[i].ok;
      assert (calls + [call])[i] == calls[i];
    } else {
      assert (calls + [call])[|calls|] == call;
    }
  }

  lemma AckedWereHandledNext(t: Topic, step: Step)
    requires AckedWereHandled(t)
    ensures AckedWereHandled(Next(t, step))
  {
    var t' := Next(t, step);
    if t'.calls != t.calls {
      var call := t'.calls[|t.calls|];
      assert t'.calls == t.calls + [call];
      forall id | HandledOk(t.calls, id) || (call.id == id && call.ok) ensures HandledOk(t'.calls, id) {
        HandledOkGrows(t.calls, call, id);
      }
    }
  }

  lemma SeenBySnoc(calls: seq<Call>, call: Call, s: nat)
    ensures SeenBy(calls + [call], s) == SeenBy(calls, s) + if call.session == s then [call.id] else []
  {
    assert (calls + [call])[..|calls|] == calls;
  }

  lemma IncreasingConcat(a: seq<nat>, b: seq<nat>, n: nat)
    requires Increasing(a) && Increasing(b)
    requires forall x :: x in a ==> x < n
    requires forall x :: x in b ==> n <= x
    ensures Increasing(a + b)
  {
    var c := a + b;
    forall i, j | 0 <= i < j < |c| ensures c[i] < c[j] {
      if i < |a| {
        assert c[i] in a;
        if j >= |a| {
          assert c[j] in b;
        }
      }
    }
  }

  lemma InOrderRead(t: Topic, s: nat)
    requires Conserved(t) && InOrder(t, s)
    ensures InOrder(Next(t, Read(s)), s)
  {
    var t' := Next(t, Read(s));
    if s in t.sessions && t.sessions[s].queue == [] && t.sessions[s].acking.None? {
      var seen := SeenBy(t.calls, s);
      if t.sessions[s].start.FromPending? {
        assert seen + t'.sessions[s].queue == t'.sessions[s].queue;
      } else {
        IncreasingConcat(seen, t'.sessions[s].queue, t.cursor);
      }
    }
  }

  lemma InOrderHandle(t: Topic, s: nat, ok: bool)
    requires InOrder(t, s)
    ensures InOrder(Next(t, Handle(s, ok)), s)
  {
    hide Increasing, SeenBy;
    if s in t.sessions && t.sessions[s].queue != [] && t.sessions[s].acking.None? {
      var seen, queue := SeenBy(t.calls, s), t.sessions[s].queue;
      SeenBySnoc(t.calls, Next(t, Handle(s, ok)).calls[|t.calls|], s);
      MoveHead(seen, queue, t.cursor);
    }
  }

  /** Handing over the head of the queue keeps the order of what was and will be seen. */
  lemma MoveHead(seen: seq<nat>, queue: seq<nat>, n: nat)
    requires queue != [] && Increasing(seen + queue)
    requires forall x :: x in seen || x in queue ==> x < n
    ensures Increasing(seen + [queue[0]]) && Increasing((seen + [queue[0]]) + queue[1..])
    ensures forall x :: x in seen + [queue[0]] || x in queue[1..] ==> x < n
  {
    assert (seen + [queue[0]]) + queue[1..] == seen + queue;
    assert queue[0] in queue && forall x :: x in queue[1..] ==> x in queue;
    IncreasingPrefix(seen + [queue[0]], queue[1..]);
  }

  lemma IncreasingPrefix(a: seq<nat>, b: seq<nat>)
    requires Increasing(a + b)
    ensures Increasing(a)
  {
    forall i, j | 0 <= i < j < |a| ensures a[i] < a[j] {
      assert (a + b)[i] == a[i] && (a + b)[j] == a[j];
    }
  }

  /** Steps that do not move the session keep its order. */
  lemma InOrderFrame(t: Topic, t': Topic, s: nat)
    requires InOrder(t, s)
    requires SeenBy(t'.calls, s) == SeenBy(t.calls, s)
    requires t.cursor <= t'.cursor && t.used <= t'.used
    requires s in t'.sessions ==> s in t'.used
    requires s in t'.sessions && s in t.sessions ==>
      && t'.sessions[s].queue == t.sessions[s].queue && t'.sessions[s].start == t.sessions[s].start
      && t'.sessions[s].acking in {t.sessions[s].acking, None}
    requires s in t'.sessions && s !in t.sessions ==>
      s !in t.used && t'.sessions[s].queue == [] && t'.sessions[s].acking.None?
    ensures InOrder(t', s)
  {
    var seen := SeenBy(t.calls, s);
    assert seen + [] == seen;
  }

  lemma InOrderNext(t: Topic, step: Step, s: nat)
    requires Conserved(t) && InOrder(t, s)
    ensures InOrder(Next(t, step), s)
  {
    hide Next, Increasing, SeenBy;
    if step == Read(s) {
      InOrderRead(t, s);
    } else if step.Handle? && step.session == s {
      InOrderHandle(t, s, step.ok);
    } else {
      SeenByFrame(t, step, s);
      SessionFrame(t, step, s);
      InOrderFrame(t, Next(t, step), s);
    }
  }

  lemma SessionFrame(t: Topic, step: Step, s: nat)
    requires Conserved(t) && (s in t.sessions ==> s in t.used)
    requires step != Read(s) && !(step.Handle? && step.session == s)
    ensures var t' := Next(t, step);
      && t.cursor <= t'.cursor && t.used <= t'.used
      && (s in t'.sessions ==> s in t'.used)
      && (s in t'.sessions && s in t.sessions ==>
        && t'.sessions[s].queue == t.sessions[s].queue && t'.sessions[s].start == t.sessions[s].start
        && t'.sessions[s].acking in {t.sessions[s].acking, None})
      && (s in t'.sessions && s !in t.sessions ==>
        s !in t.used && t'.sessions[s].queue == [] && t'.sessions[s].acking.None?)
  {
    hide Ascending, Undelivered;
  }

  lemma SeenByFrame(t: Topic, step: Step, s: nat)
    requires step.Handle? ==> step.session != s
    ensures SeenBy(Next(t, step).calls, s) == SeenBy(t.calls, s)
  {
    hide SeenBy;
    if step.Handle? && Next(t, step) != t {
      SeenBySnoc(t.calls, Next(t, step).calls[|t.calls|], s);
    }
  }

  // ----- Theorems about every run -----

  /**
   Conservation over crashes: in every run every published entry is in exactly one of undelivered, pending
   and acknowledged, and an entry is acknowledged only if a handler call on it returned nil.
   */
  lemma {:induction false} Conservation(steps: seq<Step>)
    ensures var t := Run(EMPTY, steps);
      && Conserved(t) && AckedWereHandled(t)
      && Ids(0, |t.log|) == Undelivered(t) + t.pending + t.acked
      && Undelivered(t) !! t.pending && Undelivered(t) !! t.acked
  {
    if steps != [] {
      var before := Run(EMPTY, steps[..|steps| - 1]);
      Conservation(steps[..|steps| - 1]);
      ConservedNext(before, steps[|steps| - 1]);
      AckedWereHandledNext(before, steps[|steps| - 1]);
    }
  }

  /**
   Session order: whatever other sessions do on the same group, the entries one session hands to its
   handler have strictly increasing ids: each at most once, pending ones before new ones, both in order.
   */
  lemma {:induction false} SessionOrder(steps: seq<Step>, s: nat)
    ensures InOrder(Run(EMPTY, steps), s)
    ensures Increasing(SeenBy(Run(EMPTY, steps).calls, s))
  {
    if steps != [] {
      var init := steps[..|steps| - 1];
      SessionOrder(init, s);
      Conservation(init);
      InOrderNext(Run(EMPTY, init), steps[|steps| - 1], s);
    }
  }

  /** What was published, in order. */
  function Published(steps: seq<Step>): seq<string> {
    if steps == [] then []
    else Published(steps[..|steps| - 1]) + if steps[|steps| - 1].Publish? then [steps[|steps| - 1].data] else []
  }

  ghost predicate CallsCarryData(t: Topic) {
    forall i :: 0 <= i < |t.calls| ==> t.calls[i].id < |t.log| && t.calls[i].data == t.log[t.calls[i].id]
  }

  lemma CallsCarryDataNext(t: Topic, step: Step)
    requires CallsCarryData(t) && Conserved(t)
    requires step.Handle? && step.session in t.sessions ==>
      forall x :: x in t.sessions[step.session].queue ==> x < t.cursor
    ensures CallsCarryData(Next(t, step))
  {
    hide Ascending, Undelivered;
    if step.Handle? && step.session in t.sessions && t.sessions[step.session].queue != [] {
      assert t.sessions[step.session].queue[0] in t.sessions[step.session].queue;
    }
  }

  /** The log is what was published, and a handler is always called with the data published under its entry. */
  lemma {:induction false} HandlersGetWhatWasPublished(steps: seq<Step>)
    ensures Run(EMPTY, steps).log == Published(steps)
    ensures CallsCarryData(Run(EMPTY, steps))
  {
    if steps != [] {
      var init, last := steps[..|steps| - 1], steps[|steps| - 1];
      var before := Run(EMPTY, init);
      HandlersGetWhatWasPublished(init);
      Conservation(init);
      if last.Handle? {
        SessionOrder(init, last.session);
      }
      CallsCarryDataNext(before, last);
    }
  }

  /** The session is running and has nothing in hand. */
  ghost predicate Idle(t: Topic, s: nat) {
    s in t.used && s in t.sessions && t.sessions[s].queue == [] && t.sessions[s].acking.None?
  }

  /** Until its next read or its end an idle session stays as it is, and nothing that was delivered is forgotten. */
  lemma {:induction false} WaitsIdle(t: Topic, steps: seq<Step>, s: nat)
    requires Conserved(t) && Idle(t, s)
    requires forall i :: 0 <= i < |steps| ==> steps[i] != Read(s) && steps[i] != Crash(s)
    ensures var t' := Run(t, steps);
      Conserved(t') && t.cursor <= t'.cursor && Idle(t', s) && t'.sessions[s] == t.sessions[s]
  {
    if steps != [] {
      var init, last := steps[..|steps| - 1], steps[|steps| - 1];
      WaitsIdle(t, init, s);
      ConservedNext(Run(t, init), last);
      StillWaits(Run(t, init), last, s);
    }
  }

  lemma StillWaits(t: Topic, step: Step, s: nat)
    requires Conserved(t) && Idle(t, s) && step != Read(s) && step != Crash(s)
    ensures var t' := Next(t, step);
      t.cursor <= t'.cursor && Idle(t', s) && t'.sessions[s] == t.sessions[s]
  {
    hide Ascending, Undelivered;
  }

  /**
   The first batch after a restart, whatever happens between the subscription and the read, is exactly what
   is pending at the read, in order. Every entry pending at the restart is in it, or was acknowledged since.
   */
  lemma FirstBatchIsPending(t: Topic, steps: seq<Step>, s: nat)
    requires Conserved(t) && s !in t.used
    requires forall i :: 0 <= i < |steps| ==> steps[i] != Read(s) && steps[i] != Crash(s)
    ensures var at := Run(Next(t, Subscribe(s)), steps);
      var t' := Next(at, Read(s));
      && s in t'.sessions && Increasing(t'.sessions[s].queue)
      && (forall x :: x in t'.sessions[s].queue <==> x in at.pending)
      && (forall x :: x in t.pending ==> x in t'.sessions[s].queue || x in at.acked)
      && t'.pending == at.pending && t'.acked == at.acked && t'.log == at.log
  {
    ConservedNext(t, Subscribe(s));
    WaitsIdle(Next(t, Subscribe(s)), steps, s);
  }

  /** A batch of new entries: exactly those not delivered when it is read, in order. */
  ghost predicate NewBatch(at: Topic, batch: seq<nat>) {
    Increasing(batch) && forall x :: x in batch <==> at.cursor <= x < |at.log|
  }

  /** A later read of a session hands it everything not yet delivered, and nothing stays undelivered. */
  lemma LaterBatchIsNew(t: Topic, steps: seq<Step>, s: nat)
    requires Conserved(t) && Idle(t, s) && t.sessions[s].start.FromNew?
    requires forall i :: 0 <= i < |steps| ==> steps[i] != Read(s) && steps[i] != Crash(s)
    ensures var at := Run(t, steps);
      var t' := Next(at, Read(s));
      && s in t'.sessions && NewBatch(at, t'.sessions[s].queue)
      && t'.cursor == |at.log| == |t'.log| && t'.acked == at.acked
      && t'.pending == at.pending + set x | x in t'.sessions[s].queue
  {
    WaitsIdle(t, steps, s);
  }

  /** Nothing published or delivered is taken back. */
  lemma {:induction false} LogGrows(t: Topic, steps: seq<Step>)
    requires Conserved(t)
    ensures var t' := Run(t, steps);
      Conserved(t') && |t.log| <= |t'.log| && t.cursor <= t'.cursor
  {
    if steps != [] {
      var init, last := steps[..|steps| - 1], steps[|steps| - 1];
      LogGrows(t, init);
      ConservedNext(Run(t, init), last);
      LogGrowsNext(Run(t, init), last);
    }
  }

  lemma LogGrowsNext(t: Topic, step: Step)
    ensures |t.log| <= |Next(t, step).log| && t.cursor <= Next(t, step).cursor
  {
    hide Ascending, Undelivered;
  }

  // ----- Drain -----

  /** Steps of a world with publishers and one session whose handler and acknowledgements always succeed. */
  predicate Healthy(step: Step, s: nat) {
    match step
    case Publish(_) => true
    case Read(r) => r == s
    case Handle(r, ok) => r == s && ok
    case Ack(r, delivered) => r == s && delivered
    case _ => false
  }

  /** The pending entries are those the session still has in hand. */
  ghost predicate InHand(t: Topic, s: nat) {
    && Conserved(t) && s in t.sessions
    && Increasing(t.sessions[s].queue)
    && (t.sessions[s].start.FromPending? ==> t.sessions[s].queue == [] && t.sessions[s].acking.None?)
    && (t.sessions[s].acking.Some? ==> t.sessions[s].acking.value !in t.sessions[s].queue)
    && (t.sessions[s].start.FromNew? ==>
      forall x :: x in t.pending <==> x in t.sessions[s].queue || t.sessions[s].acking == Some(x))
  }

  /** A restart puts a session into that position, whatever is pending. */
  lemma RestartIsInHand(t: Topic, s: nat)
    requires Conserved(t) && s !in t.used
    ensures InHand(Next(t, Subscribe(s)), s)
  {
  }

  lemma InHandNext(t: Topic, step: Step, s: nat)
    requires InHand(t, s) && Healthy(step, s)
    ensures InHand(Next(t, step), s)
  {
    ConservedNext(t, step);
    hide Conserved;
    if step.Handle? && t.sessions[s].queue != [] {
      var queue := t.sessions[s].queue;
      IncreasingTail(queue);
      assert queue == [queue[0]] + queue[1..];
    }
  }

  /**
   Drain: from a restart on, while the only session is healthy, the pending list is empty after every
   batch, that is whenever the session has read once and has nothing in hand.
   */
  lemma {:induction false} Drains(t: Topic, steps: seq<Step>, s: nat)
    requires InHand(t, s) && forall i :: 0 <= i < |steps| ==> Healthy(steps[i], s)
    ensures var t' := Run(t, steps);
      && InHand(t', s)
      && (t'.sessions[s].start.FromNew? && t'.sessions[s].queue == [] && t'.sessions[s].acking.None? ==>
           t'.pending == {} && forall x :: 0 <= x < t'.cursor ==> x in t'.acked)
  {
    if steps != [] {
      Drains(t, steps[..|steps| - 1], s);
      InHandNext(Run(t, steps[..|steps| - 1]), steps[|steps| - 1], s);
    }
  }

  // ----- An entry that failed -----

  /** The session is past the pending list and does not have the entry in hand. */
  predicate IsPast(session: Session, id: nat) {
    session.start.FromNew? && id !in session.queue && session.acking != Some(id)
  }

  /** The entry is pending and no running session has it in hand or is still to read the pending list. */
  ghost predicate Stranded(t: Topic, id: nat) {
    id in t.pending && id < t.cursor && forall s :: s in t.sessions ==> IsPast(t.sessions[s], id)
  }

  /**
   The step gives up an entry: its handler fails, its acknowledgement or its delivery is lost, or the session
   that has it in hand crashes.
   */
  ghost predicate Drops(t: Topic, step: Step, id: nat) {
    match step
    case Handle(s, ok) =>
      !ok && s in t.sessions && t.sessions[s].acking.None? && t.sessions[s].queue != [] && t.sessions[s].queue[0] == id
    case Ack(s, delivered) => !delivered && s in t.sessions && t.sessions[s].acking == Some(id)
    case ReadLost(s) => s in t.sessions && t.sessions[s] == Session(FromNew, [], None) && id in Undelivered(t)
    case Crash(s) => s in t.sessions && (id in t.sessions[s].queue || t.sessions[s].acking == Some(id))
    case _ => false
  }

  ghost predicate OthersArePast(t: Topic, s: nat, id: nat) {
    forall r :: r in t.sessions && r != s ==> IsPast(t.sessions[r], id)
  }

  lemma IncreasingSplit(a: seq<nat>, b: seq<nat>)
    requires Increasing(a + b)
    ensures forall x :: x in a ==> x !in b
    ensures b != [] ==> b[0] !in b[1..]
  {
    var all := a + b;
    forall i, j | 0 <= i < |a| && 0 <= j < |b| ensures a[i] < b[j] {
      assert all[i] < all[|a| + j];
    }
    forall j | 0 < j < |b| ensures b[0] < b[j] {
      assert all[|a|] < all[|a| + j];
    }
  }

  /**
   In every run, with any number of sessions: an entry that a step gives up is stranded if and only if it is
   still pending and every other session is past it.
   */
  lemma DroppedIsStranded(steps: seq<Step>, step: Step, id: nat)
    requires Drops(Run(EMPTY, steps), step, id)
    ensures var t := Run(EMPTY, steps);
      Stranded(Next(t, step), id) <==> id in Next(t, step).pending && OthersArePast(t, step.session, id)
  {
    hide Run, Increasing, SeenBy;
    var t, s := Run(EMPTY, steps), step.session;
    Conservation(steps);
    SessionOrder(steps, s);
    ConservedNext(t, step);
    var session := t.sessions[s];
    IncreasingSplit(SeenBy(t.calls, s), session.queue);
    GivesUp(t, step, id);
  }

  lemma GivesUp(t: Topic, step: Step, id: nat)
    requires Conserved(t) && Conserved(Next(t, step)) && Drops(t, step, id)
    requires var session := t.sessions[step.session];
      && (session.queue != [] ==> session.start.FromNew? && session.queue[0] !in session.queue[1..])
      && (session.acking.Some? ==> session.start.FromNew? && session.acking.value !in session.queue)
    ensures Stranded(Next(t, step), id) <==> id in Next(t, step).pending && OthersArePast(t, step.session, id)
  {
    var t', s := Next(t, step), step.session;
    assert forall r :: r in t.sessions && r != s ==> r in t'.sessions && t'.sessions[r] == t.sessions[r];
    assert forall r :: r in t'.sessions && r != s ==> r in t.sessions;
    assert s in t'.sessions ==> IsPast(t'.sessions[s], id);
  }

  /** One session at a time: nobody subscribes while a session is running. */
  ghost predicate NoOverlap(steps: seq<Step>) {
    forall i :: 0 <= i < |steps| && steps[i].Subscribe? ==> Run(EMPTY, steps[..i]).sessions == map[]
  }

  /** The session has nothing in hand that is not pending, and nothing twice. */
  ghost predicate Holds(pending: set<nat>, session: Session) {
    && Increasing(session.queue)
    && (forall x :: x in session.queue ==> x in pending)
    && (session.acking.Some? ==> session.acking.value in pending && session.acking.value !in session.queue)
  }

  /** Then that is so of the only session. */
  ghost predicate SoleHolder(t: Topic) {
    && (forall r, s :: r in t.sessions && s in t.sessions ==> r == s)
    && (forall s :: s in t.sessions ==> Holds(t.pending, t.sessions[s]))
  }

  lemma HoldsHandle(pending: set<nat>, session: Session, ok: bool)
    requires Holds(pending, session) && session.queue != []
    ensures Holds(pending, session.(queue := session.queue[1..], acking := if ok then Some(session.queue[0]) else None))
  {
    hide Increasing;
    IncreasingTail(session.queue);
  }

  lemma IncreasingTail(queue: seq<nat>)
    requires queue != [] && Increasing(queue)
    ensures Increasing(queue[1..]) && queue[0] !in queue[1..]
    ensures forall x :: x in queue[1..] ==> x in queue
  {
    var rest := queue[1..];
    forall i, j | 0 <= i < j < |rest| ensures rest[i] < rest[j] {
      assert rest[i] == queue[i + 1] && rest[j] == queue[j + 1];
    }
    forall i | 0 <= i < |rest| ensures rest[i] > queue[0] && rest[i] in queue {
      assert rest[i] == queue[i + 1];
    }
  }

  lemma SoleHolderNext(t: Topic, step: Step)
    requires Conserved(t) && SoleHolder(t) && (step.Subscribe? ==> t.sessions == map[])
    ensures SoleHolder(Next(t, step))
  {
    if step.Handle? && step.session in t.sessions && t.sessions[step.session].queue != [] {
      hide Holds;
      HoldsHandle(t.pending, t.sessions[step.session], step.ok);
    } else {
      hide Increasing;
      NothingHeld();
    }
  }

  lemma NothingHeld()
    ensures Increasing([])
  {
  }

  lemma {:induction false} OneAtATime(steps: seq<Step>)
    requires NoOverlap(steps)
    ensures SoleHolder(Run(EMPTY, steps))
  {
    hide Next, SoleHolder;
    if steps == [] {
      NobodyHolds();
    } else {
      var init := steps[..|steps| - 1];
      assert forall i :: 0 <= i < |init| ==> steps[..i] == init[..i] && steps[i] == init[i];
      OneAtATime(init);
      Conservation(init);
      SoleHolderNext(Run(EMPTY, init), steps[|steps| - 1]);
    }
  }

  lemma NobodyHolds()
    ensures SoleHolder(EMPTY)
  {
  }

  lemma StrandedNext(t: Topic, step: Step, id: nat)
    requires Stranded(t, id) && Conserved(t) && !step.Subscribe?
    ensures Stranded(Next(t, step), id)
    ensures |t.calls| <= |Next(t, step).calls| <= |t.calls| + 1
    ensures Next(t, step).calls[..|t.calls|] == t.calls
    ensures forall i :: |t.calls| <= i < |Next(t, step).calls| ==> Next(t, step).calls[i].id != id
  {
  }

  lemma {:induction false} StrandedUntilResubscribe(t: Topic, steps: seq<Step>, id: nat)
    requires Stranded(t, id) && Conserved(t)
    requires forall i :: 0 <= i < |steps| ==> !steps[i].Subscribe?
    ensures Conserved(Run(t, steps)) && Stranded(Run(t, steps), id)
    ensures var calls := Run(t, steps).calls;
      |t.calls| <= |calls| && forall i :: |t.calls| <= i < |calls| ==> calls[i].id != id
  {
    if steps != [] {
      var init := steps[..|steps| - 1];
      StrandedUntilResubscribe(t, init, id);
      StrandedNext(Run(t, init), steps[|steps| - 1], id);
      ConservedNext(Run(t, init), steps[|steps| - 1]);
    }
  }

  /**
   No redelivery without a restart: with one session at a time, an entry whose handler failed, whose
   acknowledgement or delivery was lost, or that a crash caught in hand stays pending and is not handled
   again, whatever follows, until somebody subscribes.
   */
  lemma NoRedeliveryWithoutRestart(steps: seq<Step>, step: Step, more: seq<Step>, id: nat)
    requires NoOverlap(steps) && Drops(Run(EMPTY, steps), step, id)
    requires forall i :: 0 <= i < |more| ==> !more[i].Subscribe?
    ensures var t := Next(Run(EMPTY, steps), step);
      var t' := Run(t, more);
      && id in t.pending && id in t'.pending && |t.calls| <= |t'.calls|
      && forall i :: |t.calls| <= i < |t'.calls| ==> t'.calls[i].id != id
  {
    var before := Run(EMPTY, steps);
    OneAtATime(steps);
    Conservation(steps);
    hide Run;
    ConservedNext(before, step);
    DroppedStaysPending(before, step, id);
    DroppedIsStranded(steps, step, id);
    StrandedUntilResubscribe(Next(before, step), more, id);
  }

  lemma DroppedStaysPending(t: Topic, step: Step, id: nat)
    requires Conserved(t) && SoleHolder(t) && Drops(t, step, id)
    ensures id in Next(t, step).pending && OthersArePast(t, step.session, id)
  {
  }

  // ----- The surroundings of a session -----

  /** The client sends a command again after a network error: MaxRetries of the connection, and the first try. */
  const MAX_TRIES: nat := 4

  /** The environment of one session, by the tick of its clock. */
  datatype Env = Env(
    others: nat -> seq<Step>,
    handler: nat -> bool,
    ackDelivered: nat -> bool,
    read: nat -> Fate)

  predicate StepOf(step: Step, s: nat) {
    !step.Publish? && step.session == s
  }

  ghost predicate Foreign(env: Env, s: nat) {
    forall tick: nat, i :: 0 <= i < |env.others(tick)| ==> !StepOf(env.others(tick)[i], s)
  }

  lemma {:induction false} RunConcat(t: Topic, a: seq<Step>, b: seq<Step>)
    ensures Run(t, a + b) == Run(Run(t, a), b)
  {
    hide Next;
    if b == [] {
      assert a + b == a;
    } else {
      RunConcat(t, a, b[..|b| - 1]);
      assert (a + b)[..|a + b| - 1] == a + b[..|b| - 1];
    }
  }

  lemma RunNone(t: Topic)
    ensures Run(t, []) == t
  {
  }

  lemma RunOne(t: Topic, trace: seq<Step>, step: Step)
    ensures Run(t, trace + [step]) == Next(Run(t, trace), step)
  {
    assert (trace + [step])[..|trace|] == trace;
  }

  /** Nobody else touches a session or calls its handler. */
  lemma {:induction false} OthersKeepSession(t: Topic, steps: seq<Step>, s: nat)
    requires s in t.sessions && s in t.used && forall i :: 0 <= i < |steps| ==> !StepOf(steps[i], s)
    ensures var t' := Run(t, steps);
      && s in t'.sessions && t'.sessions[s] == t.sessions[s] && s in t'.used
      && SeenBy(t'.calls, s) == SeenBy(t.calls, s)
  {
    if steps != [] {
      var init, last := steps[..|steps| - 1], steps[|steps| - 1];
      OthersKeepSession(t, init, s);
      var mid := Run(t, init);
      OtherKeepsSession(mid, last, s);
      SeenByFrame(mid, last, s);
    }
  }

  lemma OtherKeepsSession(t: Topic, step: Step, s: nat)
    requires s in t.sessions && s in t.used && !StepOf(step, s)
    ensures var t' := Next(t, step);
      s in t'.sessions && t'.sessions[s] == t.sessions[s] && s in t'.used
  {
    hide Ascending, Undelivered;
  }

  lemma {:induction false} RunKeepsOrder(t: Topic, steps: seq<Step>, s: nat)
    requires Conserved(t) && InOrder(t, s) && AckedWereHandled(t)
    ensures Conserved(Run(t, steps)) && InOrder(Run(t, steps), s) && AckedWereHandled(Run(t, steps))
  {
    hide Next, InOrder, Conserved, AckedWereHandled;
    if steps != [] {
      var mid := Run(t, steps[..|steps| - 1]);
      RunKeepsOrder(t, steps[..|steps| - 1], s);
      ConservedNext(mid, steps[|steps| - 1]);
      InOrderNext(mid, steps[|steps| - 1], s);
      AckedWereHandledNext(mid, steps[|steps| - 1]);
    }
  }

  /** Nothing but publishing happens around the session, and everything it tries succeeds. */
  ghost predicate HealthyEnv(env: Env, s: nat) {
    forall tick: nat ::
      && env.handler(tick) && env.ackDelivered(tick) && env.read(tick).Delivered?
      && forall i :: 0 <= i < |env.others(tick)| ==> Healthy(env.others(tick)[i], s)
  }

  lemma InOrderIncreasing(t: Topic, s: nat)
    requires InOrder(t, s)
    ensures Increasing(SeenBy(t.calls, s))
  {
  }

  // ----- What the code does, step by step -----

  function QueueOf(t: Topic, s: nat): seq<nat> {
    if s in t.sessions then t.sessions[s].queue else []
  }

  /** One message from clock c on: the handler and, if it returned nil, an acknowledgement. With the clock then. */
  function Handling(s: nat, env: Env, c: nat): (seq<Step>, nat) {
    if env.handler(c + 1) then
      (env.others(c) + [Handle(s, true)] + (env.others(c + 1) + [Ack(s, env.ackDelivered(c + 2))]), c + 2)
    else
      (env.others(c) + [Handle(s, false)], c + 1)
  }

  /** n messages one after the other. */
  function Batch(s: nat, env: Env, c: nat, n: nat): (seq<Step>, nat) {
    if n == 0 then ([], c)
    else
      var (steps, c') := Batch(s, env, c, n - 1);
      (steps + Handling(s, env, c').0, Handling(s, env, c').1)
  }

  /** A read with so many tries: each lost reply is a read that happened. The flag says that a reply arrived. */
  function Reading(s: nat, env: Env, c: nat, tries: nat): (seq<Step>, nat, bool)
    decreases tries
  {
    if tries == 0 then ([], c, false)
    else if env.read(c + 1).Delivered? then (env.others(c) + [Read(s)], c + 1, true)
    else
      var (rest, c', ok) := Reading(s, env, c + 1, tries - 1);
      (env.others(c) + (if env.read(c + 1).ReplyLost? then [ReadLost(s)] else []) + rest, c', ok)
  }

  /** The reading loop on a topic, up to limit reads: its steps and the batches it hands to the handler. */
  function Serving(t: Topic, s: nat, env: Env, c: nat, limit: nat): (seq<Step>, seq<seq<nat>>)
    decreases limit
  {
    if limit == 0 then ([], [])
    else
      var (reading, c1, ok) := Reading(s, env, c, MAX_TRIES);
      if !ok then (reading + [Crash(s)], [])
      else
        var t1 := Run(t, reading);
        var queue := QueueOf(t1, s);
        var (handling, c2) := Batch(s, env, c1, |queue|);
        var (rest, batches) := Serving(Run(t1, handling), s, env, c2, limit - 1);
        (reading + handling + rest, [queue] + batches)
  }

  /** The session is running and between two messages. */
  ghost predicate Running(t: Topic, s: nat) {
    s in t.sessions && s in t.used && t.sessions[s].acking.None?
  }

  lemma OthersRun(t: Topic, s: nat, env: Env, c: nat)
    requires Foreign(env, s) && s in t.sessions && s in t.used
    ensures var t' := Run(t, env.others(c));
      && s in t'.sessions && t'.sessions[s] == t.sessions[s] && s in t'.used
      && SeenBy(t'.calls, s) == SeenBy(t.calls, s)
  {
    hide Run, SeenBy;
    OthersKeepSession(t, env.others(c), s);
  }

  /** The steps of Handling, one at a time. */
  lemma HandlingRuns(t: Topic, s: nat, env: Env, c: nat)
    ensures var handled := Next(Run(t, env.others(c)), Handle(s, env.handler(c + 1)));
      Run(t, Handling(s, env, c).0) ==
        if env.handler(c + 1) then Next(Run(handled, env.others(c + 1)), Ack(s, env.ackDelivered(c + 2)))
        else handled
  {
    hide Run, Next;
    RunOne(t, env.others(c), Handle(s, env.handler(c + 1)));
    if env.handler(c + 1) {
      var head := env.others(c) + [Handle(s, true)];
      RunOne(Run(t, head), env.others(c + 1), Ack(s, env.ackDelivered(c + 2)));
      RunConcat(t, head, env.others(c + 1) + [Ack(s, env.ackDelivered(c + 2))]);
    }
  }

  lemma HandlingMovesOn(t: Topic, s: nat, env: Env, c: nat)
    requires Foreign(env, s) && Running(t, s) && t.sessions[s].queue != []
    ensures var t' := Run(t, Handling(s, env, c).0);
      && Running(t', s) && t'.sessions[s] == t.sessions[s].(queue := t.sessions[s].queue[1..])
      && SeenBy(t'.calls, s) == SeenBy(t.calls, s) + [t.sessions[s].queue[0]]
  {
    hide Run, SeenBy, Foreign;
    HandlingRuns(t, s, env, c);
    OthersRun(t, s, env, c);
    var before := Run(t, env.others(c));
    var handled := Next(before, Handle(s, env.handler(c + 1)));
    SeenBySnoc(before.calls, handled.calls[|before.calls|], s);
    if env.handler(c + 1) {
      OthersRun(handled, s, env, c + 1);
    }
  }

  lemma {:induction false} BatchMovesOn(t: Topic, s: nat, env: Env, c: nat, n: nat)
    requires Foreign(env, s) && Running(t, s) && n <= |t.sessions[s].queue|
    ensures var t' := Run(t, Batch(s, env, c, n).0);
      && Running(t', s) && t'.sessions[s] == t.sessions[s].(queue := t.sessions[s].queue[n..])
      && SeenBy(t'.calls, s) == SeenBy(t.calls, s) + t.sessions[s].queue[..n]
  {
    hide SeenBy, Foreign, Handling, Next;
    if n > 0 {
      BatchMovesOn(t, s, env, c, n - 1);
      var (steps, c') := Batch(s, env, c, n - 1);
      RunConcat(t, steps, Handling(s, env, c').0);
      HandlingMovesOn(Run(t, steps), s, env, c');
      var queue := t.sessions[s].queue;
      assert queue[n - 1..][1..] == queue[n..] && queue[..n - 1] + [queue[n - 1]] == queue[..n];
    }
  }

  // ----- Which messages are acknowledged -----

  /** Message number k of a batch that starts at clock c: its handler returns nil and its acknowledgement arrives. */
  predicate Succeeds(s: nat, env: Env, c: nat, k: nat) {
    var c' := Batch(s, env, c, k).1;
    env.handler(c' + 1) && env.ackDelivered(c' + 2)
  }

  function Succeeded(queue: seq<nat>, s: nat, env: Env, c: nat, n: nat): set<nat>
    requires n <= |queue|
  {
    set k | 0 <= k < n && Succeeds(s, env, c, k) :: queue[k]
  }

  ghost predicate OthersDoNotAck(env: Env) {
    forall tick: nat, i :: 0 <= i < |env.others(tick)| ==> !env.others(tick)[i].Ack?
  }

  /** Acknowledged entries stay so, and only acknowledgements make them. */
  lemma {:induction false} AckedGrows(t: Topic, steps: seq<Step>)
    ensures t.acked <= Run(t, steps).acked
    ensures (forall i :: 0 <= i < |steps| ==> !steps[i].Ack?) ==> Run(t, steps).acked == t.acked
  {
    if steps != [] {
      var init, last := steps[..|steps| - 1], steps[|steps| - 1];
      AckedGrows(t, init);
      AckedGrowsNext(Run(t, init), last);
    }
  }

  lemma AckedGrowsNext(t: Topic, step: Step)
    ensures t.acked <= Next(t, step).acked
    ensures !step.Ack? ==> Next(t, step).acked == t.acked
  {
    hide Ascending, Undelivered;
  }

  /** Sending one acknowledgement, if it arrives, makes its entry acknowledged and no other. */
  lemma AckAcks(t: Topic, s: nat, id: nat, delivered: bool)
    requires Conserved(t) && s in t.sessions && t.sessions[s].acking == Some(id) && id < t.cursor
    ensures Next(t, Ack(s, delivered)).acked == t.acked + if delivered then {id} else {}
  {
  }

  lemma HandlingAcks(t: Topic, s: nat, env: Env, c: nat)
    requires Foreign(env, s) && Running(t, s) && t.sessions[s].queue != []
    requires Conserved(t) && InOrder(t, s) && AckedWereHandled(t)
    ensures var t' := Run(t, Handling(s, env, c).0);
      var gained := if env.handler(c + 1) && env.ackDelivered(c + 2) then {t.sessions[s].queue[0]} else {};
      && t.acked + gained <= t'.acked
      && (OthersDoNotAck(env) ==> t'.acked == t.acked + gained)
  {
    hide Run, SeenBy, Foreign, InOrder, Conserved, AckedWereHandled;
    var id := t.sessions[s].queue[0];
    HandlingRuns(t, s, env, c);
    OthersRun(t, s, env, c);
    AckedGrows(t, env.others(c));
    RunKeepsOrder(t, env.others(c), s);
    var before := Run(t, env.others(c));
    var handled := Next(before, Handle(s, env.handler(c + 1)));
    RunOne(before, [], Handle(s, env.handler(c + 1)));
    AckedGrowsNext(before, Handle(s, env.handler(c + 1)));
    if env.handler(c + 1) {
      InOrderNext(before, Handle(s, true), s);
      ConservedNext(before, Handle(s, true));
      AckedWereHandledNext(before, Handle(s, true));
      OthersRun(handled, s, env, c + 1);
      AckedGrows(handled, env.others(c + 1));
      RunKeepsOrder(handled, env.others(c + 1), s);
      AckingIsDelivered(Run(handled, env.others(c + 1)), s, id);
      AckAcks(Run(handled, env.others(c + 1)), s, id, env.ackDelivered(c + 2));
    }
  }

  lemma AckingIsDelivered(t: Topic, s: nat, id: nat)
    requires InOrder(t, s) && s in t.sessions && t.sessions[s].acking == Some(id)
    ensures id < t.cursor
  {
  }

  /**
   Acknowledged is what succeeded: after n messages of a batch, those whose handler returned nil and whose
   acknowledgement arrived are acknowledged, and if no other session acknowledges anything, only those.
   */
  lemma {:induction false} BatchAcks(t: Topic, s: nat, env: Env, c: nat, n: nat)
    requires Foreign(env, s) && Running(t, s) && n <= |t.sessions[s].queue|
    requires Conserved(t) && InOrder(t, s) && AckedWereHandled(t)
    ensures var t' := Run(t, Batch(s, env, c, n).0);
      var gained := Succeeded(t.sessions[s].queue, s, env, c, n);
      && t.acked + gained <= t'.acked
      && (OthersDoNotAck(env) ==> t'.acked == t.acked + gained)
  {
    hide Next, SeenBy, Foreign, Handling, InOrder, Conserved, AckedWereHandled, OthersDoNotAck;
    var queue := t.sessions[s].queue;
    if n > 0 {
      BatchAcks(t, s, env, c, n - 1);
      BatchMovesOn(t, s, env, c, n - 1);
      var (steps, c') := Batch(s, env, c, n - 1);
      RunKeepsOrder(t, steps, s);
      RunConcat(t, steps, Handling(s, env, c').0);
      HandlingAcks(Run(t, steps), s, env, c');
      assert Succeeded(queue, s, env, c, n) ==
        Succeeded(queue, s, env, c, n - 1) + if Succeeds(s, env, c, n - 1) then {queue[n - 1]} else {};
    }
  }

  // ----- Reads and whole sessions -----

  /** A read succeeds exactly if one of its tries does. */
  lemma {:induction false} ReadingSucceeds(s: nat, env: Env, c: nat, tries: nat)
    ensures Reading(s, env, c, tries).2 <==> exists tick: nat :: c < tick <= c + tries && env.read(tick).Delivered?
    decreases tries
  {
    if tries > 0 && !env.read(c + 1).Delivered? {
      ReadingSucceeds(s, env, c + 1, tries - 1);
    }
  }

  /** The session reads at most once, at the end, and does not crash. */
  lemma {:induction false} ReadingReadsLast(s: nat, env: Env, c: nat, tries: nat)
    requires Foreign(env, s)
    ensures var (steps, _, ok) := Reading(s, env, c, tries);
      && (ok ==> steps != [] && steps[|steps| - 1] == Read(s))
      && forall i :: 0 <= i < (if ok then |steps| - 1 else |steps|) ==> steps[i] != Read(s) && steps[i] != Crash(s)
    decreases tries
  {
    if tries > 0 && !env.read(c + 1).Delivered? {
      ReadingReadsLast(s, env, c + 1, tries - 1);
    }
  }

  lemma {:induction false} ReadingKeepsSession(t: Topic, s: nat, env: Env, c: nat, tries: nat)
    requires Foreign(env, s) && Running(t, s) && t.sessions[s].queue == []
    ensures var (steps, _, ok) := Reading(s, env, c, tries);
      var t' := Run(t, steps);
      && Running(t', s) && SeenBy(t'.calls, s) == SeenBy(t.calls, s)
      && (if ok then t'.sessions[s].start.FromNew? else t'.sessions[s] == t.sessions[s])
    decreases tries
  {
    hide Run, Next, SeenBy, Foreign;
    RunNone(t);
    if tries > 0 {
      OthersRun(t, s, env, c);
      var mid := Run(t, env.others(c));
      ReadMovesSession(mid, s);
      if env.read(c + 1).Delivered? {
        RunOne(t, env.others(c), Read(s));
      } else {
        ReadingStep(t, s, env, c, tries);
        ReadingKeepsSession(
          if env.read(c + 1).ReplyLost? then Next(mid, ReadLost(s)) else mid, s, env, c + 1, tries - 1);
      }
    }
  }

  lemma ReadMovesSession(t: Topic, s: nat)
    requires Running(t, s) && t.sessions[s].queue == []
    ensures var t' := Next(t, Read(s));
      Running(t', s) && t'.calls == t.calls && t'.sessions[s].start.FromNew?
    ensures var t' := Next(t, ReadLost(s));
      Running(t', s) && t'.calls == t.calls && t'.sessions[s] == t.sessions[s]
  {
    hide Ascending, Undelivered;
  }

  /** The first try of a read that does not bring a reply, and the rest. */
  lemma ReadingStep(t: Topic, s: nat, env: Env, c: nat, tries: nat)
    requires tries > 0 && !env.read(c + 1).Delivered?
    ensures var mid := Run(t, env.others(c));
      Run(t, Reading(s, env, c, tries).0) ==
        Run(if env.read(c + 1).ReplyLost? then Next(mid, ReadLost(s)) else mid, Reading(s, env, c + 1, tries - 1).0)
    ensures Reading(s, env, c, tries).1 == Reading(s, env, c + 1, tries - 1).1
    ensures Reading(s, env, c, tries).2 == Reading(s, env, c + 1, tries - 1).2
  {
    hide Run, Next;
    var rest := Reading(s, env, c + 1, tries - 1).0;
    RunOne(t, env.others(c), ReadLost(s));
    assert env.others(c) + [] == env.others(c);
    RunConcat(t, env.others(c) + (if env.read(c + 1).ReplyLost? then [ReadLost(s)] else []), rest);
  }

  /** The two ends of a read: a reply, or no tries left. */
  lemma ReadingStops(t: Topic, s: nat, env: Env, c: nat, tries: nat)
    ensures tries > 0 && env.read(c + 1).Delivered? ==>
      && Run(t, Reading(s, env, c, tries).0) == Next(Run(t, env.others(c)), Read(s))
      && Reading(s, env, c, tries).1 == c + 1 && Reading(s, env, c, tries).2
    ensures tries == 0 ==> Run(t, Reading(s, env, c, tries).0) == t && Reading(s, env, c, tries) == ([], c, false)
  {
    hide Next;
    RunOne(t, env.others(c), Read(s));
  }

  /** One turn of the reading loop whose read succeeds, and the rest. */
  lemma ServingStep(t: Topic, s: nat, env: Env, c: nat, limit: nat)
    requires Foreign(env, s) && Running(t, s) && t.sessions[s].queue == []
    requires limit > 0 && Reading(s, env, c, MAX_TRIES).2
    ensures var (reading, c1, _) := Reading(s, env, c, MAX_TRIES);
      var t1 := Run(t, reading);
      var queue := QueueOf(t1, s);
      var (handling, c2) := Batch(s, env, c1, |queue|);
      var t2 := Run(t1, handling);
      && Running(t1, s) && Running(t2, s) && t2.sessions[s] == Session(FromNew, [], None)
      && SeenBy(t2.calls, s) == SeenBy(t.calls, s) + queue
      && Run(t, Serving(t, s, env, c, limit).0) == Run(t2, Serving(t2, s, env, c2, limit - 1).0)
      && Serving(t, s, env, c, limit).0 == reading + handling + Serving(t2, s, env, c2, limit - 1).0
      && Serving(t, s, env, c, limit).1 == [queue] + Serving(t2, s, env, c2, limit - 1).1
  {
    hide Run, SeenBy, Foreign, Reading, Batch;
    var (reading, c1, _) := Reading(s, env, c, MAX_TRIES);
    ReadingKeepsSession(t, s, env, c, MAX_TRIES);
    var t1 := Run(t, reading);
    var queue := QueueOf(t1, s);
    var (handling, c2) := Batch(s, env, c1, |queue|);
    BatchMovesOn(t1, s, env, c1, |queue|);
    assert queue[..|queue|] == queue && queue[|queue|..] == [];
    RunConcat(t, reading, handling);
    RunConcat(t, reading + handling, Serving(Run(t1, handling), s, env, c2, limit - 1).0);
  }

  lemma ConcatFront(batch: seq<nat>, batches: seq<seq<nat>>)
    ensures Concat([batch] + batches) == batch + Concat(batches)
  {
    assert ([batch] + batches)[1..] == batches;
  }

  /** What a session hands to its handler is the batches it read, each whole and in order. */
  lemma {:induction false} ServingHandsOver(t: Topic, s: nat, env: Env, c: nat, limit: nat)
    requires Foreign(env, s) && Running(t, s) && t.sessions[s].queue == []
    ensures var (steps, batches) := Serving(t, s, env, c, limit);
      SeenBy(Run(t, steps).calls, s) == SeenBy(t.calls, s) + Concat(batches)
    decreases limit
  {
    hide Run, Next, SeenBy, Serving, Foreign, Reading, Batch;
    ServingNothing(t, s, env, c);
    if limit > 0 {
      var (reading, c1, ok) := Reading(s, env, c, MAX_TRIES);
      if ok {
        ServingStep(t, s, env, c, limit);
        var t1 := Run(t, reading);
        var queue := QueueOf(t1, s);
        var (handling, c2) := Batch(s, env, c1, |queue|);
        ServingHandsOver(Run(t1, handling), s, env, c2, limit - 1);
        ConcatFront(queue, Serving(Run(t1, handling), s, env, c2, limit - 1).1);
      } else {
        ReadingKeepsSession(t, s, env, c, MAX_TRIES);
        ServingEnds(t, s, env, c, limit);
        SeenByFrame(Run(t, reading), Crash(s), s);
      }
    }
  }

  /** With a healthy environment every step is healthy, so the session always has in hand what is pending. */
  lemma {:induction false} ServingDrains(t: Topic, s: nat, env: Env, c: nat, limit: nat)
    requires Foreign(env, s) && Running(t, s) && t.sessions[s].queue == []
    requires HealthyEnv(env, s) && InHand(t, s)
    ensures var t' := Run(t, Serving(t, s, env, c, limit).0);
      && Running(t', s) && InHand(t', s) && t'.sessions[s].queue == []
      && |Serving(t, s, env, c, limit).1| == limit
      && (limit > 0 || t.sessions[s].start.FromNew? ==> t'.sessions[s].start.FromNew?)
    decreases limit
  {
    hide Run, Next, SeenBy, Serving, Foreign, Reading, Batch, HealthyEnv, Healthy, Increasing;
    ServingNothing(t, s, env, c);
    if limit > 0 {
      var (reading, c1, _) := Reading(s, env, c, MAX_TRIES);
      HealthySteps(s, env, c, 0);
      ServingStep(t, s, env, c, limit);
      Drains(t, reading, s);
      var t1 := Run(t, reading);
      var queue := QueueOf(t1, s);
      var (handling, c2) := Batch(s, env, c1, |queue|);
      HealthySteps(s, env, c1, |queue|);
      Drains(t1, handling, s);
      ServingDrains(Run(t1, handling), s, env, c2, limit - 1);
    }
  }

  lemma {:induction false} HealthySteps(s: nat, env: Env, c: nat, n: nat)
    requires HealthyEnv(env, s)
    ensures Reading(s, env, c, MAX_TRIES).2
    ensures forall i :: 0 <= i < |Reading(s, env, c, MAX_TRIES).0| ==> Healthy(Reading(s, env, c, MAX_TRIES).0[i], s)
    ensures forall i :: 0 <= i < |Batch(s, env, c, n).0| ==> Healthy(Batch(s, env, c, n).0[i], s)
  {
    if n > 0 {
      HealthySteps(s, env, c, n - 1);
    }
  }

  lemma Subscribed(t: Topic, s: nat)
    requires s !in t.used
    ensures var t0 := Next(t, Subscribe(s));
      Running(t0, s) && t0.sessions[s] == Session(FromPending, [], None)
  {
  }

  lemma ServesOnlyIfRead(t: Topic, s: nat, env: Env, c: nat, limit: nat)
    requires Serving(t, s, env, c, limit).1 != []
    ensures limit > 0 && Reading(s, env, c, MAX_TRIES).2
  {
    hide Reading, Batch, Run;
  }

  /**
   The first batch a session hands to its handler is what was pending when it was read, in order; every entry
   pending at the subscription is in it, or was acknowledged by then.
   */
  lemma FirstServed(t: Topic, s: nat, env: Env, c: nat, limit: nat) returns (k: nat)
    requires Foreign(env, s) && Conserved(t) && s !in t.used
    requires Serving(Next(t, Subscribe(s)), s, env, c, limit).1 != []
    ensures var (steps, batches) := Serving(Next(t, Subscribe(s)), s, env, c, limit);
      && k < |steps| && steps[k] == Read(s)
      && FirstBatch(t, Run(Next(t, Subscribe(s)), steps[..k]), batches[0])
  {
    hide Run, Next, SeenBy, Serving, Foreign, Reading, Batch, Conserved;
    var t0 := Next(t, Subscribe(s));
    Subscribed(t, s);
    ServesOnlyIfRead(t0, s, env, c, limit);
    var (reading, c1, ok) := Reading(s, env, c, MAX_TRIES);
    ServingStep(t0, s, env, c, limit);
    ReadingReadsLast(s, env, c, MAX_TRIES);
    k := |reading| - 1;
    var wait := reading[..k];
    assert reading == wait + [Read(s)];
    RunOne(t0, wait, Read(s));
    FirstBatchIsPending(t, wait, s);
    assert Serving(t0, s, env, c, limit).0[..k] == wait;
  }

  /** A first batch, relative to the topic at the restart and at the read. */
  ghost predicate FirstBatch(t: Topic, at: Topic, batch: seq<nat>) {
    && Increasing(batch)
    && (forall x :: x in batch <==> x in at.pending)
    && (forall x :: x in t.pending ==> x in batch || x in at.acked)
  }

  /** The read of one turn of the reading loop: what happens before it, and that the session waits for it. */
  lemma ReadOfTurn(t: Topic, s: nat, env: Env, c: nat) returns (wait: seq<Step>)
    requires Foreign(env, s) && Conserved(t) && Idle(t, s) && Reading(s, env, c, MAX_TRIES).2
    ensures Reading(s, env, c, MAX_TRIES).0 == wait + [Read(s)]
    ensures forall i :: 0 <= i < |wait| ==> wait[i] != Read(s) && wait[i] != Crash(s)
    ensures Run(t, wait + [Read(s)]) == Next(Run(t, wait), Read(s))
  {
    hide Run, Next, Foreign, Reading;
    var reading := Reading(s, env, c, MAX_TRIES).0;
    ReadingReadsLast(s, env, c, MAX_TRIES);
    wait := reading[..|reading| - 1];
    RunOne(t, wait, Read(s));
  }

  /** Every batch but a first one of pending entries is all that was new when it was read. */
  lemma {:induction false} LaterServed(t: Topic, s: nat, env: Env, c: nat, limit: nat, b: nat) returns (k: nat)
    requires Foreign(env, s) && Conserved(t) && Idle(t, s)
    requires b < |Serving(t, s, env, c, limit).1| && (b > 0 || t.sessions[s].start.FromNew?)
    ensures var (steps, batches) := Serving(t, s, env, c, limit);
      && k < |steps| && steps[k] == Read(s)
      && NewBatch(Run(t, steps[..k]), batches[b])
      && |t.log| <= Run(t, steps).cursor
    decreases limit
  {
    hide Run, Next, SeenBy, Serving, Foreign, Reading, Batch, Conserved, NewBatch;
    var steps := Serving(t, s, env, c, limit).0;
    ServesOnlyIfRead(t, s, env, c, limit);
    ServingStep(t, s, env, c, limit);
    var (reading, c1, _) := Reading(s, env, c, MAX_TRIES);
    var t1 := Run(t, reading);
    var queue := QueueOf(t1, s);
    var (handling, c2) := Batch(s, env, c1, |queue|);
    var t2 := Run(t1, handling);
    var rest := Serving(t2, s, env, c2, limit - 1).0;
    if b == 0 {
      var wait := ReadOfTurn(t, s, env, c);
      k := |wait|;
      assert steps[..k] == wait;
      LaterBatchIsNew(t, wait, s);
      LogGrows(t, wait);
      LogGrows(t, reading);
      LogGrows(t1, handling);
      LogGrows(t2, rest);
    } else {
      LogGrows(t, reading);
      LogGrows(t1, handling);
      var k' := LaterServed(t2, s, env, c2, limit - 1, b - 1);
      k := |reading + handling| + k';
      assert steps[..k] == reading + handling + rest[..k'];
      RunConcat(t, reading, handling);
      RunConcat(t, reading + handling, rest[..k']);
    }
  }

  /**
   A lost reply loses messages for good: what was undelivered when a later read began, one of whose tries was
   executed and its reply lost, is delivered and not among what the session is then given.
   */
  lemma {:induction false} LostReplySkips(t: Topic, s: nat, env: Env, c: nat, tries: nat, tick: nat)
    requires Foreign(env, s) && Conserved(t) && Idle(t, s) && t.sessions[s].start.FromNew?
    requires c < tick <= c + tries && env.read(tick).ReplyLost?
    requires forall i: nat :: c < i < tick ==> !env.read(i).Delivered?
    ensures var t' := Run(t, Reading(s, env, c, tries).0);
      && |t.log| <= t'.cursor && s in t'.sessions
      && forall x :: x in t'.sessions[s].queue ==> |t.log| <= x
    decreases tries
  {
    hide Run, SeenBy, Foreign, Reading, Conserved;
    ReadingStep(t, s, env, c, tries);
    OthersRun(t, s, env, c);
    LogGrows(t, env.others(c));
    var mid := Run(t, env.others(c));
    var next := if env.read(c + 1).ReplyLost? then Next(mid, ReadLost(s)) else mid;
    ReadMovesSession(mid, s);
    ConservedNext(mid, ReadLost(s));
    if env.read(c + 1).ReplyLost? {
      LostReadDelivers(mid, s);
      ReadsBeyond(next, s, env, c + 1, tries - 1);
    } else {
      LostReplySkips(next, s, env, c + 1, tries - 1, tick);
    }
  }

  ghost predicate OthersOnlyPublish(env: Env) {
    forall tick: nat, i :: 0 <= i < |env.others(tick)| ==> env.others(tick)[i].Publish?
  }

  lemma {:induction false} PublishingKeepsCursor(t: Topic, steps: seq<Step>)
    requires forall i :: 0 <= i < |steps| ==> steps[i].Publish?
    ensures Run(t, steps).cursor == t.cursor
  {
    if steps != [] {
      PublishingKeepsCursor(t, steps[..|steps| - 1]);
    }
  }

  /** Only a lost reply does that: a lost request changes nothing, and a read that then succeeds skips nothing. */
  lemma {:induction false} NothingSkipped(t: Topic, s: nat, env: Env, c: nat, tries: nat)
    requires Foreign(env, s) && Conserved(t) && Idle(t, s) && t.sessions[s].start.FromNew?
    requires OthersOnlyPublish(env) && Reading(s, env, c, tries).2
    requires forall tick: nat :: c < tick <= c + tries ==> !env.read(tick).ReplyLost?
    ensures var t' := Run(t, Reading(s, env, c, tries).0);
      s in t'.sessions && forall x :: t.cursor <= x < |t.log| ==> x in t'.sessions[s].queue
    decreases tries
  {
    hide Run, SeenBy, Foreign, Reading, Conserved, Next;
    ReadingStops(t, s, env, c, tries);
    OthersRun(t, s, env, c);
    LogGrows(t, env.others(c));
    PublishingKeepsCursor(t, env.others(c));
    var mid := Run(t, env.others(c));
    if env.read(c + 1).Delivered? {
      RunNone(mid);
      LaterBatchIsNew(mid, [], s);
    } else {
      ReadingStep(t, s, env, c, tries);
      NothingSkipped(mid, s, env, c + 1, tries - 1);
    }
  }

  lemma LostReadDelivers(t: Topic, s: nat)
    requires Conserved(t) && Idle(t, s) && t.sessions[s].start.FromNew?
    ensures Next(t, ReadLost(s)).cursor == |t.log|
  {
  }

  /** A read of new entries gives nothing that was delivered before. */
  lemma {:induction false} ReadsBeyond(t: Topic, s: nat, env: Env, c: nat, tries: nat)
    requires Foreign(env, s) && Conserved(t) && Idle(t, s) && t.sessions[s].start.FromNew?
    ensures var t' := Run(t, Reading(s, env, c, tries).0);
      && t.cursor <= t'.cursor && s in t'.sessions
      && forall x :: x in t'.sessions[s].queue ==> t.cursor <= x
  {
    hide Run, Next, Foreign, Reading, Conserved;
    var (reading, _, ok) := Reading(s, env, c, tries);
    LogGrows(t, reading);
    ReadingReadsLast(s, env, c, tries);
    if ok {
      var wait := reading[..|reading| - 1];
      assert reading == wait + [Read(s)];
      RunOne(t, wait, Read(s));
      LaterBatchIsNew(t, wait, s);
      LogGrows(t, wait);
    } else {
      WaitsIdle(t, reading, s);
    }
  }

  lemma Begins(t: Topic, s: nat)
    requires Conserved(t) && InOrder(t, s) && s !in t.used
    ensures var t0 := Next(t, Subscribe(s));
      && Running(t0, s) && t0.sessions[s] == Session(FromPending, [], None)
      && InHand(t0, s) && SeenBy(t0.calls, s) == []
  {
    RestartIsInHand(t, s);
  }

  /** The end of the reading loop: a read that fails for good. */
  lemma ServingEnds(t: Topic, s: nat, env: Env, c: nat, limit: nat)
    requires limit > 0 && !Reading(s, env, c, MAX_TRIES).2
    ensures Run(t, Serving(t, s, env, c, limit).0) == Next(Run(t, Reading(s, env, c, MAX_TRIES).0), Crash(s))
    ensures Serving(t, s, env, c, limit).1 == []
  {
    hide Reading, Next;
    RunOne(t, Reading(s, env, c, MAX_TRIES).0, Crash(s));
  }

  lemma ServingNothing(t: Topic, s: nat, env: Env, c: nat)
    ensures Serving(t, s, env, c, 0) == ([], []) && Run(t, []) == t
  {
  }

  /** The session ends exactly when a read fails for good, that is when it was given fewer batches than allowed. */
  lemma {:induction false} ServingEndsSession(t: Topic, s: nat, env: Env, c: nat, limit: nat)
    requires Foreign(env, s) && Idle(t, s)
    ensures var (steps, batches) := Serving(t, s, env, c, limit);
      && |batches| <= limit
      && (s in Run(t, steps).sessions <==> |batches| == limit)
    decreases limit
  {
    hide Run, Next, SeenBy, Serving, Foreign, Reading, Batch;
    ServingNothing(t, s, env, c);
    if limit > 0 {
      var (reading, c1, ok) := Reading(s, env, c, MAX_TRIES);
      if ok {
        ServingStep(t, s, env, c, limit);
        var t1 := Run(t, reading);
        var (handling, c2) := Batch(s, env, c1, |QueueOf(t1, s)|);
        ServingEndsSession(Run(t1, handling), s, env, c2, limit - 1);
      } else {
        ServingEnds(t, s, env, c, limit);
        CrashEnds(Run(t, reading), s);
      }
    }
  }

  lemma CrashEnds(t: Topic, s: nat)
    ensures s !in Next(t, Crash(s)).sessions
  {
  }

  /** What a session amounts to, from its subscription on. */
  lemma SessionEnds(t: Topic, s: nat, env: Env, c: nat, limit: nat)
    requires Foreign(env, s) && s !in t.used && Conserved(t) && InOrder(t, s) && AckedWereHandled(t)
    ensures var t0 := Next(t, Subscribe(s));
      var (steps, batches) := Serving(t0, s, env, c, limit);
      var t' := Run(t0, steps);
      && t' == Run(t, [Subscribe(s)] + steps)
      && Conserved(t') && AckedWereHandled(t')
      && SeenBy(t'.calls, s) == Concat(batches) && Increasing(Concat(batches))
      && (HealthyEnv(env, s) && limit > 0 ==>
           t'.pending == {} && forall x :: 0 <= x < t'.cursor ==> x in t'.acked)
      && |batches| <= limit && (s in t'.sessions <==> |batches| == limit)
      && (|batches| >= 2 ==> |t.log| <= t'.cursor)
      && (HealthyEnv(env, s) && limit >= 2 ==> |batches| == limit && forall x :: 0 <= x < |t.log| ==> x in t'.acked)
  {
    hide Run, SeenBy, Foreign, Next, Serving, Increasing, HealthyEnv;
    var t0 := Next(t, Subscribe(s));
    var (steps, batches) := Serving(t0, s, env, c, limit);
    Begins(t, s);
    RunNone(t);
    RunOne(t, [], Subscribe(s));
    assert [] + [Subscribe(s)] == [Subscribe(s)];
    RunConcat(t, [Subscribe(s)], steps);
    RunKeepsOrder(t, [Subscribe(s)] + steps, s);
    InOrderIncreasing(Run(t0, steps), s);
    ServingHandsOver(t0, s, env, c, limit);
    ServingEndsSession(t0, s, env, c, limit);
    assert [] + Concat(batches) == Concat(batches);
    if HealthyEnv(env, s) && limit > 0 {
      ServingDrains(t0, s, env, c, limit);
    }
    if |batches| >= 2 {
      ConservedNext(t, Subscribe(s));
      LogGrowsNext(t, Subscribe(s));
      var k := LaterServed(t0, s, env, c, limit, 1);
    }
  }

  /** The batch was read by one of the steps, and was then all that was pending; t is the topic at the restart. */
  ghost predicate ReadPending(t: Topic, begin: Topic, steps: seq<Step>, s: nat, batch: seq<nat>) {
    exists k: nat :: k < |steps| && steps[k] == Read(s) && FirstBatch(t, Run(begin, steps[..k]), batch)
  }

  /** The batch was read by one of the steps, and was then all that was new. */
  ghost predicate ReadNew(begin: Topic, steps: seq<Step>, s: nat, batch: seq<nat>) {
    exists k: nat :: k < |steps| && steps[k] == Read(s) && NewBatch(Run(begin, steps[..k]), batch)
  }

  /** What each batch of a session is. */
  lemma BatchesServed(t: Topic, s: nat, env: Env, c: nat, limit: nat)
    requires Foreign(env, s) && s !in t.used && Conserved(t)
    ensures var begin := Next(t, Subscribe(s));
      var (steps, batches) := Serving(begin, s, env, c, limit);
      && (batches != [] ==> ReadPending(t, begin, steps, s, batches[0]))
      && (forall b :: 0 < b < |batches| ==> ReadNew(begin, steps, s, batches[b]))
  {
    hide Run, Next, Serving, Foreign, Conserved, NewBatch, FirstBatch;
    var begin := Next(t, Subscribe(s));
    Subscribed(t, s);
    ConservedNext(t, Subscribe(s));
    var (steps, batches) := Serving(begin, s, env, c, limit);
    if batches != [] {
      var k := FirstServed(t, s, env, c, limit);
    }
    forall b | 0 < b < |batches| ensures ReadNew(begin, steps, s, batches[b]) {
      var k := LaterServed(begin, s, env, c, limit, b);
    }
  }

  // ----- The code -----

  /** The messages of several streams, in the order in which they are processed. */
  function Concat(streams: seq<seq<nat>>): seq<nat> {
    if streams == [] then [] else streams[0] + Concat(streams[1..])
  }

  lemma ConcatFrom(streams: seq<seq<nat>>, k: nat)
    requires k < |streams|
    ensures Concat(streams[k..]) == streams[k] + Concat(streams[k + 1..])
  {
    assert streams[k..][1..] == streams[k + 1..];
  }

  lemma ConcatNone()
    ensures Concat([]) == []
  {
  }

  class Subscriber {
    var topic: Topic
    var clock: nat

    constructor (topic: Topic)
      ensures this.topic == topic && this.clock == 0
    {
      this.topic := topic;
      this.clock := 0;
    }

    /** Everyone else runs for a while. */
    method Yield(env: Env)
      modifies this
      ensures topic == Run(old(topic), env.others(old(clock))) && clock == old(clock) + 1
    {
      topic, clock := Run(topic, env.others(clock)), clock + 1;
    }

    /** One message: the handler, and an acknowledgement, whose own failure is ignored, if it succeeded. */
    method Process(s: nat, id: nat, env: Env)
      requires Foreign(env, s) && Running(topic, s)
      requires topic.sessions[s].queue != [] && topic.sessions[s].queue[0] == id
      modifies this
      ensures topic == Run(old(topic), Handling(s, env, old(clock)).0) && clock == Handling(s, env, old(clock)).1
      // The message is handled once, and the session moves on whatever came of it.
      ensures Running(topic, s)
      ensures topic.sessions[s] == old(topic.sessions[s]).(queue := old(topic.sessions[s].queue)[1..])
      ensures SeenBy(topic.calls, s) == old(SeenBy(topic.calls, s)) + [id]
    {
      hide Run, SeenBy, Next, Foreign;
      HandlingRuns(topic, s, env, clock);
      HandlingMovesOn(topic, s, env, clock);
      Yield(env);
      var ok := env.handler(clock);
      topic := Next(topic, Handle(s, ok));
      if ok {
        Yield(env);
        topic := Next(topic, Ack(s, env.ackDelivered(clock)));
      }
    }

    /** readFromStream, with the tries the client makes on its own. */
    method ReadFromStream(s: nat, env: Env) returns (ok: bool)
      modifies this
      ensures var (steps, c, success) := Reading(s, env, old(clock), MAX_TRIES);
        topic == Run(old(topic), steps) && clock == c && ok == success
      // The first try and three retries.
      ensures ok <==> exists tick: nat :: old(clock) < tick <= old(clock) + 4 && env.read(tick).Delivered?
    {
      hide Run, Next, Reading;
      ReadingSucceeds(s, env, clock, MAX_TRIES);
      for n := 0 to MAX_TRIES
        invariant var (steps, c, success) := Reading(s, env, old(clock), MAX_TRIES);
          var (rest, c', success') := Reading(s, env, clock, MAX_TRIES - n);
          Run(old(topic), steps) == Run(topic, rest) && c == c' && success == success'
      {
        ghost var before, c := topic, clock;
        Yield(env);
        var fate := env.read(clock);
        if fate.Delivered? {
          ReadingStops(before, s, env, c, MAX_TRIES - n);
          topic := Next(topic, Read(s));
          return true;
        }
        ReadingStep(before, s, env, c, MAX_TRIES - n);
        if fate.ReplyLost? {
          topic := Next(topic, ReadLost(s));
        }
      }
      ReadingStops(topic, s, env, clock, 0);
      ok := false;
    }

    /** processStreams: each message of each stream in turn. */
    method ProcessStreams(s: nat, streams: seq<seq<nat>>, env: Env)
      requires Foreign(env, s) && Running(topic, s) && topic.sessions[s].queue == Concat(streams)
      modifies this
      // Exactly these messages are handled, in order, each acknowledged as its handler and the network decide.
      ensures var (steps, c) := Batch(s, env, old(clock), |Concat(streams)|);
        topic == Run(old(topic), steps) && clock == c
      ensures Running(topic, s) && topic.sessions[s] == old(topic.sessions[s]).(queue := [])
      ensures SeenBy(topic.calls, s) == old(SeenBy(topic.calls, s)) + Concat(streams)
      ensures Conserved(old(topic)) && InOrder(old(topic), s) && AckedWereHandled(old(topic)) ==>
                var gained := Succeeded(Concat(streams), s, env, old(clock), |Concat(streams)|);
                && old(topic.acked) + gained <= topic.acked
                && (OthersDoNotAck(env) ==> topic.acked == old(topic.acked) + gained)
    {
      hide Run, SeenBy, Foreign, Concat, Handling, Succeeded, InOrder, Conserved, AckedWereHandled, OthersDoNotAck;
      ghost var first, c, all := topic, clock, Concat(streams);
      ghost var done := 0;
      RunNone(topic);
      assert streams[0..] == streams && all[0..] == all;
      for k := 0 to |streams|
        invariant 0 <= done <= |all| && Concat(streams[k..]) == all[done..]
        invariant Running(topic, s) && topic.sessions[s] == first.sessions[s].(queue := all[done..])
        invariant topic == Run(first, Batch(s, env, c, done).0) && clock == Batch(s, env, c, done).1
      {
        var messages := streams[k];
        ghost var begin := done;
        ConcatFrom(streams, k);
        for i := 0 to |messages|
          invariant done == begin + i && all[begin..] == messages + Concat(streams[k + 1..])
          invariant Running(topic, s) && topic.sessions[s] == first.sessions[s].(queue := all[done..])
          invariant topic == Run(first, Batch(s, env, c, done).0) && clock == Batch(s, env, c, done).1
        {
          assert all[done] == all[begin..][i] == messages[i];
          RunConcat(first, Batch(s, env, c, done).0, Handling(s, env, clock).0);
          Process(s, messages[i], env);
          done := done + 1;
        }
        assert all[done..] == all[begin..][|messages|..];
      }
      ConcatNone();
      assert streams[|streams|..] == [];
      assert done == |all| && all[..|all|] == all;
      BatchMovesOn(first, s, env, c, |all|);
      if Conserved(first) && InOrder(first, s) && AckedWereHandled(first) {
        BatchAcks(first, s, env, c, |all|);
      }
    }

    /**
     beginReadingFromStream, stopped after any number of reads: a first read of the pending entries, then reads
     of new ones, until a read fails for good and the session ends.
     */
    method BeginReadingFromStream(s: nat, env: Env, limit: nat)
      requires Foreign(env, s) && Idle(topic, s)
      modifies this
      ensures topic == Run(old(topic), Serving(old(topic), s, env, old(clock), limit).0)
    {
      hide Run, SeenBy, Foreign, Reading, Batch, Next, Serving;
      ghost var begin, c := topic, clock;
      ghost var steps := Serving(begin, s, env, c, limit).0;
      if limit == 0 {
        ServingNothing(topic, s, env, clock);
      }
      var n := 0;
      while n < limit
        invariant Idle(topic, s)
        invariant n <= limit && Run(topic, Serving(topic, s, env, clock, limit - n).0) == Run(begin, steps)
        invariant n == limit ==> topic == Run(begin, steps)
      {
        ghost var before, c' := topic, clock;
        var ok := ReadFromStream(s, env);
        if !ok {
          ServingEnds(before, s, env, c', limit - n);
          topic := Next(topic, Crash(s));
          break;
        }
        ServingStep(before, s, env, c', limit - n);
        var queue := topic.sessions[s].queue;
        ConcatFront(queue, []);
        ConcatNone();
        ProcessStreams(s, [queue], env);
        n := n + 1;
        if n == limit {
          ServingNothing(topic, s, env, clock);
        }
      }
    }

    /**
     Subscribe. Everything the session does, with all that happens around it, is a run of the protocol, so the
     theorems about runs hold of it.
     */
    method Subscribe(s: nat, env: Env, limit: nat) returns (ghost batches: seq<seq<nat>>)
      requires Foreign(env, s) && s !in topic.used
      requires Conserved(topic) && InOrder(topic, s) && AckedWereHandled(topic)
      modifies this
      ensures var (steps, served) := Serving(Next(old(topic), Step.Subscribe(s)), s, env, old(clock), limit);
        topic == Run(old(topic), [Step.Subscribe(s)] + steps) && batches == served
      ensures Conserved(topic) && AckedWereHandled(topic)
      // What is handled is the batches read, each id at most once and in order.
      ensures SeenBy(topic.calls, s) == Concat(batches) && Increasing(Concat(batches))
      // The first batch is what was pending when it was read, every later one all that was new.
      ensures var begin := Next(old(topic), Step.Subscribe(s));
        var steps := Serving(begin, s, env, old(clock), limit).0;
        && (batches != [] ==> ReadPending(old(topic), begin, steps, s, batches[0]))
        && (forall b :: 0 < b < |batches| ==> ReadNew(begin, steps, s, batches[b]))
      // The session ends exactly when a read fails for good.
      ensures |batches| <= limit && (s in topic.sessions <==> |batches| == limit)
      // After two reads nothing published before is undelivered, and without failures all of it is acknowledged.
      ensures |batches| >= 2 ==> |old(topic).log| <= topic.cursor
      ensures HealthyEnv(env, s) && limit >= 2 ==> forall x :: 0 <= x < |old(topic).log| ==> x in topic.acked
      // Without failures the pending list is drained, entries left by earlier sessions included.
      ensures HealthyEnv(env, s) && limit > 0 ==>
                topic.pending == {} && forall x :: 0 <= x < topic.cursor ==> x in topic.acked
    {
      hide Run, SeenBy, Foreign, Next, Serving, Increasing, HealthyEnv, Conserved, InOrder, AckedWereHandled;
      hide ReadPending, ReadNew;
      Subscribed(topic, s);
      SessionEnds(topic, s, env, clock, limit);
      BatchesServed(topic, s, env, clock, limit);
      topic := Next(topic, Step.Subscribe(s));
      batches := Serving(topic, s, env, clock, limit).1;
      BeginReadingFromStream(s, env, limit);
    }
  }
}
