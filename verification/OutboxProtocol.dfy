/** Any number of synchronisers on one outbox and one graph: they take batches, deliver events at
    least once, mark rows, fail and crash between any two of their steps. */
module OutboxProtocol {
  import opened Basics
  import opened GraphOutbox

  /** A synchroniser works at an event of its batch; `reported` tells how the delivery of that
      event was reported, once it was tried. */
  datatype Syncer = Idle | Working(batch: seq<Read>, at: nat, reported: Option<bool>)

  /** `delivered` is history: the rows whose event was committed to the graph, in the order of the
      commits, once for each. */
  datatype State = State(rows: seq<Row>, graph: Graph, syncers: map<nat, Syncer>, delivered: seq<nat>)

  const INITIAL: State := State([], EMPTY, map[], [])

  datatype Step =
    | Enqueue(payload: Option<Payload>, now: int)
    | Start(w: nat, limit: int, now: int)
    | Sync(w: nat, ending: Ending)
    | Mark(w: nat, marks: bool, now: int)
    | Crash(w: nat)

  function SyncerOf(s: State, w: nat): Syncer {
    if w in s.syncers then s.syncers[w] else Idle
  }

  predicate Enabled(s: State, step: Step) {
    match step
    case Enqueue(_, _) => true
    case Start(w, _, _) => SyncerOf(s, w).Idle?
    case Sync(w, _) => var y := SyncerOf(s, w); y.Working? && y.at < |y.batch| && y.reported.None?
    case Mark(w, _, _) => var y := SyncerOf(s, w); y.Working? && y.at < |y.batch| && y.reported.Some? && y.batch[y.at].id < |s.rows|
    case Crash(w) => true
  }

  function Apply(s: State, step: Step): State
    requires Enabled(s, step)
  {
    match step
    case Enqueue(payload, now) => s.(rows := s.rows + [Row(payload, false, 0, now)])
    case Start(w, limit, now) => s.(syncers := s.syncers[w := Working(Batch(s.rows, now, limit), 0, None)])
    case Sync(w, ending) =>
      var y := SyncerOf(s, w);
      var event := y.batch[y.at];
      s.(graph := Synced(s.graph, event.payload, ending),
         delivered := if Writes(event.payload, ending) then s.delivered + [event.id] else s.delivered,
         syncers := s.syncers[w := y.(reported := Some(Reported(event.payload, ending)))])
    case Mark(w, marks, now) =>
      var y := SyncerOf(s, w);
      var event := y.batch[y.at];
      s.(rows := if !marks then s.rows
                 else if y.reported.value then MarkedProcessed(s.rows, event.id)
                 else MarkedFailed(s.rows, event.id, event.attempts, now),
         syncers := s.syncers[w := y.(at := y.at + 1, reported := None)])
    case Crash(w) => s.(syncers := s.syncers[w := Idle])
  }

  /** The state after the steps of a schedule, if each can be taken when its turn comes. */
  function Run(s: State, schedule: seq<Step>): Option<State>
    decreases |schedule|
  {
    if schedule == [] then Some(s)
    else if Enabled(s, schedule[0]) then Run(Apply(s, schedule[0]), schedule[1..])
    else None
  }

  // ---------------------------------------------------------------- the invariant

  /** An event among the given rows stands for the element. */
  ghost predicate Covered(rows: seq<Row>, ids: seq<nat>, e: Element) {
    exists i :: i in ids && i < |rows| && rows[i].payload.Some? && e in Footprint(rows[i].payload.value)
  }

  ghost predicate GraphIsUnion(s: State) {
    forall e :: e in s.graph.elements <==> Covered(s.rows, s.delivered, e)
  }

  /** What the events committed in this order leave as attributes. */
  function AttributesBy(rows: seq<Row>, order: seq<nat>): Attributes {
    if order == [] then map[]
    else
      var last := order[|order| - 1];
      AttributesBy(rows, order[..|order| - 1]) + (if last < |rows| then WrittenBy(rows[last]) else map[])
  }

  function WrittenBy(row: Row): Attributes {
    if row.payload.Some? then Written(row.payload.value) else map[]
  }

  ghost predicate AttributesFollow(s: State) {
    s.graph.attributes == AttributesBy(s.rows, s.delivered)
  }

  ghost predicate ProcessedAreDelivered(s: State) {
    forall i :: 0 <= i < |s.rows| && s.rows[i].processed ==> i in s.delivered
  }

  ghost predicate DeliveredAreRows(s: State) {
    forall i :: i in s.delivered ==> i < |s.rows| && s.rows[i].payload.Some?
  }

  ghost predicate Follows(s: State, y: Syncer) {
    y.Working? ==>
      && (forall k :: 0 <= k < |y.batch| ==> y.batch[k].id < |s.rows| && y.batch[k].payload == s.rows[y.batch[k].id].payload)
      && (y.at < |y.batch| && y.reported == Some(true) ==> y.batch[y.at].id in s.delivered)
  }

  ghost predicate SyncersFollow(s: State) {
    forall w :: w in s.syncers ==> Follows(s, s.syncers[w])
  }

  ghost predicate Valid(s: State) {
    GraphIsUnion(s) && AttributesFollow(s) && ProcessedAreDelivered(s) && DeliveredAreRows(s) && SyncersFollow(s)
  }

  /** Rows are added at the end and keep their payload. */
  ghost predicate Extends(before: seq<Row>, after: seq<Row>) {
    |before| <= |after| && forall i :: 0 <= i < |before| ==> after[i].payload == before[i].payload
  }

  lemma StepExtends(s: State, step: Step)
    requires Enabled(s, step)
    ensures Extends(s.rows, Apply(s, step).rows)
    ensures s.graph.elements <= Apply(s, step).graph.elements && s.delivered <= Apply(s, step).delivered
  {
  }

  lemma CoveredLater(before: seq<Row>, after: seq<Row>, ids: seq<nat>, e: Element)
    requires Extends(before, after) && forall i :: i in ids ==> i < |before|
    ensures Covered(before, ids, e) <==> Covered(after, ids, e)
  {
  }

  lemma CoveredMore(rows: seq<Row>, ids: seq<nat>, id: nat, e: Element)
    requires id < |rows| && rows[id].payload.Some?
    ensures Covered(rows, ids + [id], e) <==> Covered(rows, ids, e) || e in Footprint(rows[id].payload.value)
  {
    assert forall i :: i in ids + [id] <==> i in ids || i == id;
  }

  lemma MergeKeepsUnion(rows: seq<Row>, graph: Graph, delivered: seq<nat>, id: nat, p: Payload)
    requires forall e :: e in graph.elements <==> Covered(rows, delivered, e)
    requires id < |rows| && rows[id].payload == Some(p)
    ensures forall e :: e in Merged(graph, p).elements <==> Covered(rows, delivered + [id], e)
  {
    forall e ensures e in Merged(graph, p).elements <==> Covered(rows, delivered + [id], e) {
      CoveredMore(rows, delivered, id, e);
    }
  }

  lemma SyncKeepsUnion(s: State, w: nat, ending: Ending)
    requires Valid(s) && Enabled(s, Sync(w, ending))
    ensures GraphIsUnion(Apply(s, Sync(w, ending))) && DeliveredAreRows(Apply(s, Sync(w, ending)))
  {
    var y, after := SyncerOf(s, w), Apply(s, Sync(w, ending));
    var event := y.batch[y.at];
    assert Follows(s, y);
    if Writes(event.payload, ending) {
      MergeKeepsUnion(s.rows, s.graph, s.delivered, event.id, event.payload.value);
      assert after.graph == Merged(s.graph, event.payload.value) && after.delivered == s.delivered + [event.id];
      DeliveredOneMore(s, after, event.id);
    } else {
      assert after.graph == s.graph && after.delivered == s.delivered;
    }
  }

  lemma DeliveredOneMore(s: State, after: State, id: nat)
    requires DeliveredAreRows(s) && after.rows == s.rows && after.delivered == s.delivered + [id]
    requires id < |s.rows| && s.rows[id].payload.Some?
    ensures DeliveredAreRows(after)
  {
  }

  lemma StepKeepsUnion(s: State, step: Step)
    requires Valid(s) && Enabled(s, step)
    ensures GraphIsUnion(Apply(s, step)) && DeliveredAreRows(Apply(s, step))
  {
    if step.Sync? {
      SyncKeepsUnion(s, step.w, step.ending);
    } else {
      var after := Apply(s, step);
      StepExtends(s, step);
      forall e ensures e in after.graph.elements <==> Covered(after.rows, after.delivered, e) {
        CoveredLater(s.rows, after.rows, s.delivered, e);
      }
    }
  }

  lemma {:induction false} AttributesLater(before: seq<Row>, after: seq<Row>, order: seq<nat>)
    requires Extends(before, after) && forall k :: 0 <= k < |order| ==> order[k] < |before|
    ensures AttributesBy(before, order) == AttributesBy(after, order)
  {
    if order != [] {
      AttributesLater(before, after, order[..|order| - 1]);
    }
  }

  lemma StepKeepsAttributes(s: State, step: Step)
    requires Valid(s) && Enabled(s, step)
    ensures AttributesFollow(Apply(s, step))
  {
    var after := Apply(s, step);
    StepExtends(s, step);
    assert forall k :: 0 <= k < |s.delivered| ==> s.delivered[k] in s.delivered;
    AttributesLater(s.rows, after.rows, s.delivered);
    if step.Sync? {
      var y := SyncerOf(s, step.w);
      assert Follows(s, y);
      assert (s.delivered + [y.batch[y.at].id])[..|s.delivered|] == s.delivered;
    }
  }

  lemma FollowsLater(s: State, after: State, y: Syncer)
    requires Follows(s, y) && Extends(s.rows, after.rows) && forall i :: i in s.delivered ==> i in after.delivered
    ensures Follows(after, y)
  {
  }

  lemma StepKeepsSyncers(s: State, step: Step)
    requires Valid(s) && Enabled(s, step)
    ensures SyncersFollow(Apply(s, step)) && ProcessedAreDelivered(Apply(s, step))
  {
    var after := Apply(s, step);
    StepExtends(s, step);
    assert forall i :: i in s.delivered ==> i in after.delivered;
    forall w | w in after.syncers ensures Follows(after, after.syncers[w]) {
      if w in s.syncers {
        FollowsLater(s, after, s.syncers[w]);
      }
    }
  }

  lemma StepKeepsValid(s: State, step: Step)
    requires Valid(s) && Enabled(s, step)
    ensures Valid(Apply(s, step))
  {
    StepKeepsUnion(s, step);
    StepKeepsAttributes(s, step);
    StepKeepsSyncers(s, step);
  }

  /** After every run the graph is exactly what the delivered events stand for, and every
      processed event was delivered; the graph never loses anything. */
  lemma {:induction false} RunKeepsValid(s: State, schedule: seq<Step>)
    requires Valid(s) && Run(s, schedule).Some?
    ensures Valid(Run(s, schedule).value)
    ensures s.graph.elements <= Run(s, schedule).value.graph.elements && Extends(s.rows, Run(s, schedule).value.rows)
    decreases |schedule|
  {
    if schedule != [] {
      StepKeepsValid(s, schedule[0]);
      StepExtends(s, schedule[0]);
      RunKeepsValid(Apply(s, schedule[0]), schedule[1..]);
    }
  }

  lemma InitialValid()
    ensures Valid(INITIAL)
  {
  }

  ghost predicate Reachable(s: State) {
    exists schedule :: Run(INITIAL, schedule) == Some(s)
  }

  lemma ReachableValid(s: State)
    requires Reachable(s)
    ensures Valid(s)
  {
    var schedule :| Run(INITIAL, schedule) == Some(s);
    InitialValid();
    RunKeepsValid(INITIAL, schedule);
  }

  // ---------------------------------------------------------------- what follows

  /** No relationship in the graph is ever without its nodes. */
  lemma GraphIsClosed(s: State)
    requires Reachable(s)
    ensures Closed(s.graph.elements)
  {
    ReachableValid(s);
    forall e | e in s.graph.elements
      ensures exists i: nat :: i < |s.rows| && s.rows[i].payload.Some? && e in Footprint(s.rows[i].payload.value)
                               && Footprint(s.rows[i].payload.value) <= s.graph.elements && Closed(Footprint(s.rows[i].payload.value))
    {
      assert Covered(s.rows, s.delivered, e);
      var i :| i in s.delivered && i < |s.rows| && s.rows[i].payload.Some? && e in Footprint(s.rows[i].payload.value);
      forall f | f in Footprint(s.rows[i].payload.value) ensures f in s.graph.elements {
        assert Covered(s.rows, s.delivered, f);
      }
      FootprintClosed(s.rows[i].payload.value);
    }
  }

  /** Every delivered event is in the graph as a whole, with all its relationships. */
  lemma DeliveredIsInGraph(s: State, i: nat, e: Element)
    requires Reachable(s) && i in s.delivered
    ensures i < |s.rows| && s.rows[i].payload.Some?
    ensures HasCapture(SourceID(s.rows[i].payload.value), s.rows[i].payload.value.captureID) in s.graph.elements
    ensures StandsFor(s.rows[i].payload.value, e) ==> e in s.graph.elements
  {
    ReachableValid(s);
    var p := s.rows[i].payload.value;
    FootprintExact(p, HasCapture(SourceID(p), p.captureID));
    assert Covered(s.rows, s.delivered, HasCapture(SourceID(p), p.captureID));
    FootprintExact(p, e);
    assert StandsFor(p, e) ==> Covered(s.rows, s.delivered, e);
  }

  /** In every reachable graph each capture has its source, each insight and action item its capture. */
  lemma GraphIsConnected(s: State)
    requires Reachable(s)
    ensures Connected(s.graph.elements)
  {
    ReachableValid(s);
    forall e | e in s.graph.elements
      ensures exists i: nat :: i < |s.rows| && s.rows[i].payload.Some? && e in Footprint(s.rows[i].payload.value)
                               && Footprint(s.rows[i].payload.value) <= s.graph.elements && Connected(Footprint(s.rows[i].payload.value))
    {
      assert Covered(s.rows, s.delivered, e);
      var i :| i in s.delivered && i < |s.rows| && s.rows[i].payload.Some? && e in Footprint(s.rows[i].payload.value);
      forall f | f in Footprint(s.rows[i].payload.value) ensures f in s.graph.elements {
        assert Covered(s.rows, s.delivered, f);
      }
      FootprintConnected(s.rows[i].payload.value);
    }
  }

  /** All events that can be decoded are processed. */
  ghost predicate Settled(rows: seq<Row>) {
    forall i :: 0 <= i < |rows| && rows[i].payload.Some? ==> rows[i].processed
  }

  ghost predicate Enqueued(rows: seq<Row>, p: Payload) {
    exists i :: 0 <= i < |rows| && rows[i].payload == Some(p)
  }

  /** When all is processed, the graph is what all events together stand for. */
  lemma SettledGraph(s: State)
    requires Reachable(s) && Settled(s.rows)
    ensures forall e :: e in s.graph.elements <==> exists p :: Enqueued(s.rows, p) && StandsFor(p, e)
  {
    ReachableValid(s);
    forall e ensures e in s.graph.elements <==> exists p :: Enqueued(s.rows, p) && StandsFor(p, e) {
      if e in s.graph.elements {
        assert Covered(s.rows, s.delivered, e);
        var i :| i in s.delivered && i < |s.rows| && s.rows[i].payload.Some? && e in Footprint(s.rows[i].payload.value);
        FootprintExact(s.rows[i].payload.value, e);
        assert Enqueued(s.rows, s.rows[i].payload.value);
      }
      if p :| Enqueued(s.rows, p) && StandsFor(p, e) {
        var i :| 0 <= i < |s.rows| && s.rows[i].payload == Some(p);
        FootprintExact(p, e);
        assert i in s.delivered;
        assert Covered(s.rows, s.delivered, e);
      }
    }
  }

  /** Two runs in which the same events are enqueued, in any order and as often as may be, and
      all processed, end with the same graph. */
  lemma ScheduleDoesNotMatter(s: State, t: State)
    requires Reachable(s) && Reachable(t) && Settled(s.rows) && Settled(t.rows)
    requires forall p :: Enqueued(s.rows, p) <==> Enqueued(t.rows, p)
    ensures s.graph.elements == t.graph.elements
  {
    SettledGraph(s);
    SettledGraph(t);
    forall e ensures e in s.graph.elements <==> e in t.graph.elements {
      assert (exists p :: Enqueued(s.rows, p) && StandsFor(p, e)) <==> (exists p :: Enqueued(t.rows, p) && StandsFor(p, e));
    }
  }

  /** An event that cannot be decoded is never processed, so it is tried again for ever. */
  lemma MalformedStayPending(s: State, i: nat)
    requires Reachable(s) && i < |s.rows| && s.rows[i].payload.None?
    ensures !s.rows[i].processed
  {
    ReachableValid(s);
  }

  // ---------------------------------------------------------------- attributes

  /** The `k`-th commit set attributes of the node. */
  ghost predicate SetsAt(rows: seq<Row>, order: seq<nat>, k: nat, e: Element) {
    k < |order| && order[k] < |rows| && e in WrittenBy(rows[order[k]])
  }

  ghost predicate SetsLast(rows: seq<Row>, order: seq<nat>, k: nat, e: Element) {
    SetsAt(rows, order, k, e) && forall j: nat :: k < j ==> !SetsAt(rows, order, j, e)
  }

  lemma SetsAtOneMore(rows: seq<Row>, order: seq<nat>, n: nat, e: Element)
    requires |order| == n + 1
    ensures forall j: nat :: SetsAt(rows, order, j, e) <==> SetsAt(rows, order[..n], j, e) || (j == n && SetsAt(rows, order, n, e))
  {
  }

  lemma {:induction false} LastSetter(rows: seq<Row>, order: seq<nat>, e: Element) returns (k: nat)
    ensures e in AttributesBy(rows, order) <==> SetsLast(rows, order, k, e)
    ensures e in AttributesBy(rows, order) ==> AttributesBy(rows, order)[e] == WrittenBy(rows[order[k]])[e]
    ensures e !in AttributesBy(rows, order) ==> forall j: nat :: !SetsAt(rows, order, j, e)
  {
    if order == [] {
      k := 0;
    } else {
      var n := |order| - 1;
      SetsAtOneMore(rows, order, n, e);
      if SetsAt(rows, order, n, e) {
        k := n;
      } else {
        k := LastSetter(rows, order[..n], e);
      }
    }
  }

  lemma SetterCovers(s: State, e: Element, k: nat)
    requires Valid(s) && SetsAt(s.rows, s.delivered, k, e)
    ensures e in s.graph.elements && IsNode(e)
  {
    WrittenExact(s.rows[s.delivered[k]].payload.value);
    assert s.delivered[k] in s.delivered;
    assert Covered(s.rows, s.delivered, e);
  }

  lemma CoveredIsSet(s: State, e: Element) returns (k: nat)
    requires Valid(s) && e in s.graph.elements && IsNode(e)
    ensures SetsAt(s.rows, s.delivered, k, e)
  {
    assert Covered(s.rows, s.delivered, e);
    var i :| i in s.delivered && i < |s.rows| && s.rows[i].payload.Some? && e in Footprint(s.rows[i].payload.value);
    WrittenExact(s.rows[i].payload.value);
    k :| 0 <= k < |s.delivered| && s.delivered[k] == i;
  }

  /** The nodes of the graph, and nothing else, have attributes: those of the last commit of an event
      that sets them. */
  lemma LastCommitDecides(s: State, e: Element, k: nat)
    requires Reachable(s)
    ensures e in s.graph.attributes <==> e in s.graph.elements && IsNode(e)
    ensures SetsLast(s.rows, s.delivered, k, e) ==>
      e in s.graph.attributes && s.graph.attributes[e] == WrittenBy(s.rows[s.delivered[k]])[e]
  {
    ReachableValid(s);
    var last := LastSetter(s.rows, s.delivered, e);
    if e in s.graph.attributes {
      SetterCovers(s, e, last);
      assert SetsLast(s.rows, s.delivered, k, e) ==> k == last;
    } else if e in s.graph.elements && IsNode(e) {
      var j := CoveredIsSet(s, e);
      assert false;
    }
  }

  /** A node shows the attributes of one of its events, where they differ from those of all others,
      if and only if that event was committed again after every other one: the newest event is not
      shown for ever when an older one is delivered late. */
  lemma ShownExactly(s: State, e: Element, i: nat)
    requires Reachable(s) && i in s.delivered && i < |s.rows| && e in WrittenBy(s.rows[i])
    requires forall k :: 0 <= k < |s.rows| && k != i && e in WrittenBy(s.rows[k]) ==> WrittenBy(s.rows[k])[e] != WrittenBy(s.rows[i])[e]
    ensures e in s.graph.attributes
    ensures s.graph.attributes[e] == WrittenBy(s.rows[i])[e] <==>
      forall j: nat :: SetsAt(s.rows, s.delivered, j, e) && s.delivered[j] != i ==> exists k :: j < k < |s.delivered| && s.delivered[k] == i
  {
    ReachableValid(s);
    var last := LastSetter(s.rows, s.delivered, e);
    var at :| 0 <= at < |s.delivered| && s.delivered[at] == i;
    assert SetsAt(s.rows, s.delivered, at, e);
    LastIsDelivered(s.rows, s.delivered, e, i, last);
  }

  lemma LastIsDelivered(rows: seq<Row>, delivered: seq<nat>, e: Element, i: nat, last: nat)
    requires SetsLast(rows, delivered, last, e) && i < |rows| && e in WrittenBy(rows[i])
    ensures delivered[last] == i <==>
      forall j: nat :: SetsAt(rows, delivered, j, e) && delivered[j] != i ==> exists k :: j < k < |delivered| && delivered[k] == i
  {
    if delivered[last] == i {
      forall j: nat | SetsAt(rows, delivered, j, e) && delivered[j] != i ensures exists k :: j < k < |delivered| && delivered[k] == i {
        assert j < last;
      }
    } else {
      forall k | last < k < |delivered| ensures delivered[k] != i {
        assert !SetsAt(rows, delivered, k, e);
      }
    }
  }

  lemma Next(s: State, step: Step)
    requires Reachable(s) && Enabled(s, step)
    ensures Reachable(Apply(s, step))
  {
    var schedule :| Run(INITIAL, schedule) == Some(s);
    RunAppend(INITIAL, schedule, [step]);
    assert [step][1..] == [];
    assert Run(s, [step]) == Some(Apply(s, step));
  }

  /** Two pending events, in a batch of one synchroniser. */
  ghost predicate AtWork(s: State, p: Payload, q: Payload) {
    && Reachable(s) && s.rows == [Row(Some(p), false, 0, 0), Row(Some(q), false, 0, 0)] && s.delivered == []
    && SyncerOf(s, 0) == Working([Read(0, Some(p), 0), Read(1, Some(q), 0)], 0, None)
  }

  lemma TwoEvents(p: Payload, q: Payload) returns (s: State)
    ensures AtWork(s, p, q)
  {
    assert Run(INITIAL, []) == Some(INITIAL);
    Next(INITIAL, Enqueue(Some(p), 0));
    var one := Apply(INITIAL, Enqueue(Some(p), 0));
    Next(one, Enqueue(Some(q), 0));
    var two := Apply(one, Enqueue(Some(q), 0));
    Next(two, Start(0, 2, 0));
    s := Apply(two, Start(0, 2, 0));
    TwoDue(two.rows, p, q);
  }

  lemma TwoDue(rows: seq<Row>, p: Payload, q: Payload)
    requires rows == [Row(Some(p), false, 0, 0), Row(Some(q), false, 0, 0)]
    ensures Batch(rows, 0, 2) == [Read(0, Some(p), 0), Read(1, Some(q), 0)]
  {
    assert rows[..1] == [Row(Some(p), false, 0, 0)] && rows[..1][..0] == [];
    assert Due(rows[..1][..0], 0) == [];
    assert Due(rows[..1], 0) == [Read(0, Some(p), 0)];
  }

  lemma LastIsSource(s: State, p: Payload, k: nat)
    requires Reachable(s) && 0 < |s.delivered| == k + 1 && s.delivered[k] < |s.rows| && s.rows[s.delivered[k]].payload == Some(p)
    ensures Source(SourceID(p)) in s.graph.attributes && s.graph.attributes[Source(SourceID(p))] == p.attributes
  {
    SourceIsWritten(p);
    assert SetsLast(s.rows, s.delivered, k, Source(SourceID(p)));
    LastCommitDecides(s, Source(SourceID(p)), k);
  }

  lemma SourceIsWritten(p: Payload)
    ensures Source(SourceID(p)) in Written(p) && Written(p)[Source(SourceID(p))] == p.attributes
  {
    InsightAttributesExact(p.captureID, p.insights);
    ActionAttributesExact(p.captureID, p.actions);
    InsightPartExact(p.captureID, p.insights, Source(SourceID(p)));
    ActionPartExact(p.captureID, p.actions, Source(SourceID(p)));
  }

  /** What happens to one event of the batch. */
  lemma OneEvent(s: State, ending: Ending, t: State)
    requires Reachable(s) && Enabled(s, Sync(0, ending)) && SyncerOf(s, 0).batch[SyncerOf(s, 0).at].id < |s.rows|
    requires t == Apply(Apply(s, Sync(0, ending)), Mark(0, true, 0))
    ensures Reachable(t)
  {
    Next(s, Sync(0, ending));
    Next(Apply(s, Sync(0, ending)), Mark(0, true, 0));
  }

  /** If both are delivered in order, the source has the attributes of the newer event. */
  lemma NewestIsShown(p: Payload, q: Payload) returns (s: State)
    ensures Reachable(s) && Settled(s.rows) && |s.rows| == 2 && s.rows[0].payload == Some(p) && s.rows[1].payload == Some(q)
    ensures Source(SourceID(q)) in s.graph.attributes && s.graph.attributes[Source(SourceID(q))] == q.attributes
  {
    var start := TwoEvents(p, q);
    var one := Apply(Apply(start, Sync(0, Commits)), Mark(0, true, 0));
    OneEvent(start, Commits, one);
    s := Apply(Apply(one, Sync(0, Commits)), Mark(0, true, 0));
    OneEvent(one, Commits, s);
    LastIsSource(s, q, 1);
  }

  /** The older one fails, the newer one is delivered. */
  lemma OlderFails(p: Payload, q: Payload) returns (s: State)
    ensures Reachable(s) && s.rows == [Row(Some(p), false, 1, 1), Row(Some(q), true, 0, 0)] && s.delivered == [1]
  {
    var start := TwoEvents(p, q);
    var one := Apply(Apply(start, Sync(0, FailsAt(0))), Mark(0, true, 0));
    OneEvent(start, FailsAt(0), one);
    s := Apply(Apply(one, Sync(0, Commits)), Mark(0, true, 0));
    OneEvent(one, Commits, s);
  }

  /** If the older one fails and is delivered when it is due again, the source has the old attributes,
      with nothing left to be delivered. */
  lemma RetryOverwrites(p: Payload, q: Payload) returns (s: State)
    ensures Reachable(s) && Settled(s.rows) && |s.rows| == 2 && s.rows[0].payload == Some(p) && s.rows[1].payload == Some(q)
    ensures Source(SourceID(p)) in s.graph.attributes && s.graph.attributes[Source(SourceID(p))] == p.attributes
  {
    var two := OlderFails(p, q);
    var crashed := Apply(two, Crash(0));
    Next(two, Crash(0));
    var again := Apply(crashed, Start(0, 2, 1));
    Next(crashed, Start(0, 2, 1));
    RetryDue(again.rows, p, q);
    s := Apply(Apply(again, Sync(0, Commits)), Mark(0, true, 0));
    OneEvent(again, Commits, s);
    LastIsSource(s, p, 1);
  }

  /** So two settled runs with the same events can differ in attributes, although never in elements. */
  lemma AttributesDependOnSchedule(p: Payload, q: Payload) returns (s: State, t: State)
    requires SourceID(p) == SourceID(q) && p.attributes != q.attributes
    ensures Reachable(s) && Reachable(t) && Settled(s.rows) && Settled(t.rows)
    ensures |s.rows| == |t.rows| && forall i :: 0 <= i < |s.rows| ==> s.rows[i].payload == t.rows[i].payload
    ensures s.graph.elements == t.graph.elements && s.graph.attributes != t.graph.attributes
  {
    s := NewestIsShown(p, q);
    t := RetryOverwrites(p, q);
    forall r ensures Enqueued(s.rows, r) <==> Enqueued(t.rows, r) {
      assert forall i :: 0 <= i < 2 ==> s.rows[i].payload == t.rows[i].payload;
    }
    ScheduleDoesNotMatter(s, t);
  }

  lemma RetryDue(rows: seq<Row>, p: Payload, q: Payload)
    requires rows == [Row(Some(p), false, 1, 1), Row(Some(q), true, 0, 0)]
    ensures Batch(rows, 1, 2) == [Read(0, Some(p), 1)]
  {
    assert rows[..1] == [Row(Some(p), false, 1, 1)] && rows[..1][..0] == [];
    assert Due(rows[..1][..0], 1) == [];
    assert Due(rows[..1], 1) == [Read(0, Some(p), 1)];
  }

  // ---------------------------------------------------------------- one synchroniser alone

  lemma RunTwo(s: State, a: Step, b: Step, rest: seq<Step>)
    requires Enabled(s, a) && Enabled(Apply(s, a), b)
    ensures Run(s, [a, b] + rest) == Run(Apply(Apply(s, a), b), rest)
  {
    assert ([a, b] + rest)[1..] == [b] + rest && ([b] + rest)[1..] == rest;
  }

  lemma {:induction false} RunAppend(s: State, a: seq<Step>, b: seq<Step>)
    requires Run(s, a).Some?
    ensures Run(s, a + b) == Run(Run(s, a).value, b)
    decreases |a|
  {
    if a == [] {
      assert a + b == b;
    } else {
      assert (a + b)[1..] == a[1..] + b;
      RunAppend(Apply(s, a[0]), a[1..], b);
    }
  }

  /** The steps in which a synchroniser works through its batch. */
  function BatchSteps(w: nat, outcomes: seq<Outcome>): seq<Step> {
    if outcomes == [] then []
    else
      var last := outcomes[|outcomes| - 1];
      BatchSteps(w, outcomes[..|outcomes| - 1]) + [Sync(w, last.ending), Mark(w, last.marks, last.now)]
  }

  lemma EventIsTwoSteps(s: State, w: nat, batch: seq<Read>, at: nat, outcome: Outcome)
    requires SyncerOf(s, w) == Working(batch, at, None) && at < |batch| && batch[at].id < |s.rows|
    ensures Run(s, [Sync(w, outcome.ending), Mark(w, outcome.marks, outcome.now)]).Some?
    ensures var after := Run(s, [Sync(w, outcome.ending), Mark(w, outcome.marks, outcome.now)]).value;
      && after.rows == Marked(s.rows, batch[at], outcome) && after.graph == Synced(s.graph, batch[at].payload, outcome.ending)
      && SyncerOf(after, w) == Working(batch, at + 1, None)
  {
    var sync, mark := Sync(w, outcome.ending), Mark(w, outcome.marks, outcome.now);
    RunTwo(s, sync, mark, []);
    assert [sync, mark] + [] == [sync, mark];
  }

  /** The program's loop over a batch is one run of the protocol: what `GraphOutbox.SyncBatch`
      leaves behind is what these steps leave behind. */
  lemma {:induction false} BatchIsRun(s: State, w: nat, batch: seq<Read>, outcomes: seq<Outcome>)
    requires SyncerOf(s, w) == Working(batch, 0, None) && |outcomes| <= |batch|
    requires forall k :: 0 <= k < |batch| ==> batch[k].id < |s.rows|
    ensures Run(s, BatchSteps(w, outcomes)).Some?
    ensures var after, done := Run(s, BatchSteps(w, outcomes)).value, batch[..|outcomes|];
      && after.rows == RowsAfter(s.rows, done, outcomes) && after.graph == GraphAfter(s.graph, done, outcomes)
      && SyncerOf(after, w) == Working(batch, |outcomes|, None)
  {
    if outcomes != [] {
      var n := |outcomes| - 1;
      var before, last, done := outcomes[..n], outcomes[n], batch[..n + 1];
      BatchIsRun(s, w, batch, before);
      var middle := Run(s, BatchSteps(w, before)).value;
      EventIsTwoSteps(middle, w, batch, n, last);
      RunAppend(s, BatchSteps(w, before), [Sync(w, last.ending), Mark(w, last.marks, last.now)]);
      assert done[..n] == batch[..n] && done[n] == batch[n];
    }
  }

  // ---------------------------------------------------------------- nothing is out of reach

  lemma {:induction false} DueIsShort(rows: seq<Row>, now: int)
    ensures |Due(rows, now)| <= |rows|
  {
    if rows != [] {
      DueIsShort(rows[..|rows| - 1], now);
    }
  }

  function Latest(rows: seq<Row>): int {
    if rows == [] then 0
    else
      var rest, last := Latest(rows[..|rows| - 1]), rows[|rows| - 1].availableAt;
      if rest > last then rest else last
  }

  lemma {:induction false} LatestExact(rows: seq<Row>)
    ensures forall i :: 0 <= i < |rows| ==> rows[i].availableAt <= Latest(rows)
  {
    if rows != [] {
      LatestExact(rows[..|rows| - 1]);
    }
  }

  /** Every decodable row is processed or still ahead of the synchroniser. */
  ghost predicate Ahead(rows: seq<Row>, batch: seq<Read>, at: nat) {
    forall i :: 0 <= i < |rows| && rows[i].payload.Some? && !rows[i].processed ==>
      exists k :: at <= k < |batch| && batch[k].id == i
  }

  lemma MarkedAhead(rows: seq<Row>, batch: seq<Read>, at: nat, after: seq<Row>)
    requires Ahead(rows, batch, at) && at < |batch| && batch[at].id < |rows|
    requires after == if batch[at].payload.Some? then MarkedProcessed(rows, batch[at].id) else MarkedFailed(rows, batch[at].id, batch[at].attempts, 0)
    requires batch[at].payload == rows[batch[at].id].payload
    ensures Ahead(after, batch, at + 1)
  {
    forall i | 0 <= i < |after| && after[i].payload.Some? && !after[i].processed
      ensures exists k :: at + 1 <= k < |batch| && batch[k].id == i
    {
      assert rows[i].payload.Some? && !rows[i].processed;
      var k :| at <= k < |batch| && batch[k].id == i;
      assert k != at;
    }
  }

  lemma {:induction false} Drain(s: State, w: nat) returns (schedule: seq<Step>)
    requires Valid(s) && SyncerOf(s, w).Working? && SyncerOf(s, w).reported.None?
    requires Ahead(s.rows, SyncerOf(s, w).batch, SyncerOf(s, w).at)
    ensures Run(s, schedule).Some? && Settled(Run(s, schedule).value.rows)
    decreases |SyncerOf(s, w).batch| - SyncerOf(s, w).at
  {
    var y := SyncerOf(s, w);
    if y.at >= |y.batch| {
      schedule := [];
    } else {
      assert Follows(s, y);
      var sync, mark := Sync(w, Commits), Mark(w, true, 0);
      var synced := Apply(s, sync);
      var marked := Apply(synced, mark);
      StepKeepsValid(s, sync);
      StepKeepsValid(synced, mark);
      MarkedAhead(s.rows, y.batch, y.at, marked.rows);
      var rest := Drain(marked, w);
      RunTwo(s, sync, mark, rest);
      schedule := [sync, mark] + rest;
    }
  }

  /** From every state a run without further faults settles all events: none is out of reach. */
  lemma CanSettle(s: State) returns (schedule: seq<Step>)
    requires Reachable(s)
    ensures Run(s, schedule).Some? && Settled(Run(s, schedule).value.rows)
  {
    ReachableValid(s);
    var crash, start := Crash(0), Start(0, |s.rows| + 1, Latest(s.rows));
    var crashed := Apply(s, crash);
    var started := Apply(crashed, start);
    StepKeepsValid(s, crash);
    StepKeepsValid(crashed, start);
    LatestExact(s.rows);
    DueIsShort(s.rows, Latest(s.rows));
    var batch := SyncerOf(started, 0).batch;
    assert batch == Due(s.rows, Latest(s.rows));
    forall i | 0 <= i < |s.rows| && s.rows[i].payload.Some? && !s.rows[i].processed
      ensures exists k :: 0 <= k < |batch| && batch[k].id == i
    {
      DueExactly(s.rows, Latest(s.rows));
      assert IsDue(s.rows, i, Latest(s.rows));
    }
    var rest := Drain(started, 0);
    RunTwo(s, crash, start, rest);
    schedule := [crash, start] + rest;
  }

  // ---------------------------------------------------------------- attempts

  /** The step marks the row as failed. */
  predicate MarksFailed(s: State, step: Step, id: nat)
    requires Enabled(s, step)
  {
    step.Mark? && step.marks && var y := SyncerOf(s, step.w); y.reported == Some(false) && y.batch[y.at].id == id
  }

  /** How often a schedule does. */
  function FailedMarks(s: State, schedule: seq<Step>, id: nat): nat
    requires Run(s, schedule).Some?
    decreases |schedule|
  {
    if schedule == [] then 0
    else (if MarksFailed(s, schedule[0], id) then 1 else 0) + FailedMarks(Apply(s, schedule[0]), schedule[1..], id)
  }

  function AttemptsOf(s: State, id: nat): int {
    if id < |s.rows| then s.rows[id].attempts else 0
  }

  lemma OneAttempt(s: State, step: Step, id: nat)
    requires Enabled(s, step)
    ensures AttemptsOf(Apply(s, step), id) == AttemptsOf(s, id) + if MarksFailed(s, step, id) then 1 else 0
  {
  }

  /** The attempts of a row count how often it was marked as failed, so that its waits grow. */
  lemma {:induction false} AttemptsAreFailures(s: State, schedule: seq<Step>, id: nat)
    requires Run(s, schedule).Some?
    ensures AttemptsOf(Run(s, schedule).value, id) == AttemptsOf(s, id) + FailedMarks(s, schedule, id)
    decreases |schedule|
  {
    if schedule != [] {
      OneAttempt(s, schedule[0], id);
      AttemptsAreFailures(Apply(s, schedule[0]), schedule[1..], id);
    }
  }
}
