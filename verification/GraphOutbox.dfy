/** Delivery of outbox events to the graph: the write of one event, the rows of the outbox and
    one batch of the synchroniser. */
module GraphOutbox {
  import opened Basics

  /** An insight or an action item of an event, with the attributes that are set. */
  datatype Fact = Fact(id: string, attributes: string)

  /** What an event says: the source and its attributes, the capture and its attributes, and what
      came of it. */
  datatype Payload = Payload(
    sourceType: string, externalID: string, attributes: string, captureID: string, synthesis: string,
    insights: seq<Fact>, actions: seq<Fact>)

  function SourceID(p: Payload): string {
    p.sourceType + ":" + p.externalID
  }

  /** The nodes and relationships of the graph. */
  datatype Element =
    | Source(id: string)
    | Capture(id: string)
    | Insight(id: string)
    | Action(id: string)
    | HasCapture(source: string, capture: string)
    | Yielded(capture: string, insight: string)
    | Suggests(capture: string, action: string)

  predicate IsNode(e: Element) {
    e.Source? || e.Capture? || e.Insight? || e.Action?
  }

  type Attributes = map<Element, string>

  datatype Graph = Graph(elements: set<Element>, attributes: Attributes)

  const EMPTY := Graph({}, map[])

  function InsightPart(captureID: string, insights: seq<Fact>): set<Element> {
    if insights == [] then {}
    else InsightPart(captureID, insights[..|insights| - 1])
         + {Insight(insights[|insights| - 1].id), Yielded(captureID, insights[|insights| - 1].id)}
  }

  function ActionPart(captureID: string, actions: seq<Fact>): set<Element> {
    if actions == [] then {}
    else ActionPart(captureID, actions[..|actions| - 1])
         + {Action(actions[|actions| - 1].id), Suggests(captureID, actions[|actions| - 1].id)}
  }

  function SourcePart(p: Payload): set<Element> {
    {Source(SourceID(p)), Capture(p.captureID), HasCapture(SourceID(p), p.captureID)}
  }

  /** Everything an event stands for. */
  function Footprint(p: Payload): set<Element> {
    SourcePart(p) + InsightPart(p.captureID, p.insights) + ActionPart(p.captureID, p.actions)
  }

  function InsightAttributes(insights: seq<Fact>): Attributes {
    if insights == [] then map[]
    else InsightAttributes(insights[..|insights| - 1])[Insight(insights[|insights| - 1].id) := insights[|insights| - 1].attributes]
  }

  function ActionAttributes(actions: seq<Fact>): Attributes {
    if actions == [] then map[]
    else ActionAttributes(actions[..|actions| - 1])[Action(actions[|actions| - 1].id) := actions[|actions| - 1].attributes]
  }

  function SourceAttributes(p: Payload): Attributes {
    map[Source(SourceID(p)) := p.attributes, Capture(p.captureID) := p.synthesis]
  }

  /** The attributes an event sets; of two insights with one ID the later one counts. */
  function Written(p: Payload): Attributes {
    SourceAttributes(p) + InsightAttributes(p.insights) + ActionAttributes(p.actions)
  }

  // ---------------------------------------------------------------- one event

  /** How the transaction of an event ends: it commits, or statement `at` fails and it is rolled
      back, or it commits but an error is reported. */
  datatype Ending = Commits | FailsAt(at: nat) | CommitsUnheard

  /** The number of statements of the transaction. */
  function Statements(p: Payload): nat {
    1 + |p.insights| + |p.actions|
  }

  predicate Writes(payload: Option<Payload>, ending: Ending) {
    payload.Some? && (ending.FailsAt? ==> ending.at >= Statements(payload.value))
  }

  predicate Reported(payload: Option<Payload>, ending: Ending) {
    Writes(payload, ending) && ending != CommitsUnheard
  }

  function Merged(graph: Graph, p: Payload): Graph {
    Graph(graph.elements + Footprint(p), graph.attributes + Written(p))
  }

  function Synced(graph: Graph, payload: Option<Payload>, ending: Ending): Graph {
    if Writes(payload, ending) then Merged(graph, payload.value) else graph
  }

  class GraphStore {
    var elements: set<Element>
    var attributes: Attributes

    ghost function Value(): Graph
      reads this
    {
      Graph(elements, attributes)
    }

    /** The event is merged in one transaction. */
    method SyncEvent(payload: Option<Payload>, ending: Ending) returns (ok: bool)
      modifies this
      ensures Value() == Synced(old(Value()), payload, ending)
      ensures ok == Reported(payload, ending)
    {
      if payload.None? {
        return false;
      }
      var p := payload.value;
      if ending == FailsAt(0) {
        return false;
      }
      var tx, values := MergeSource(p, elements, attributes);
      var failed: bool;
      tx, values, failed := MergeInsights(p, ending, tx, values);
      if failed {
        return false;
      }
      tx, values, failed := MergeActions(p, ending, tx, values);
      if failed {
        return false;
      }
      Associates(attributes, SourceAttributes(p), InsightAttributes(p.insights), ActionAttributes(p.actions), values);
      elements, attributes := tx, values;
      return ending != CommitsUnheard;
    }
  }

  lemma Associates(a: Attributes, b: Attributes, c: Attributes, d: Attributes, all: Attributes)
    requires all == a + b + c + d
    ensures all == a + (b + c + d)
  {
  }

  /** The first statement. */
  method MergeSource(p: Payload, tx0: set<Element>, values0: Attributes) returns (tx: set<Element>, values: Attributes)
    ensures tx == tx0 + SourcePart(p) && values == values0 + SourceAttributes(p)
  {
    tx := tx0 + {Source(SourceID(p))};
    values := values0[Source(SourceID(p)) := p.attributes];
    tx := tx + {Capture(p.captureID)};
    values := values[Capture(p.captureID) := p.synthesis];
    tx := tx + {HasCapture(SourceID(p), p.captureID)};
  }

  /** The statements of the insights. */
  method MergeInsights(p: Payload, ending: Ending, tx0: set<Element>, values0: Attributes)
    returns (tx: set<Element>, values: Attributes, failed: bool)
    requires Capture(p.captureID) in tx0 && ending != FailsAt(0)
    ensures failed == (ending.FailsAt? && ending.at <= |p.insights|) && tx0 <= tx
    ensures !failed ==> tx == tx0 + InsightPart(p.captureID, p.insights) && values == values0 + InsightAttributes(p.insights)
  {
    tx, values, failed := tx0, values0, false;
    for i := 0 to |p.insights|
      invariant tx == tx0 + InsightPart(p.captureID, p.insights[..i]) && values == values0 + InsightAttributes(p.insights[..i])
      invariant ending.FailsAt? ==> ending.at > i
    {
      if ending == FailsAt(1 + i) {
        return tx, values, true;
      }
      assert p.insights[..i + 1][..i] == p.insights[..i];
      if Capture(p.captureID) in tx {
        tx := tx + {Insight(p.insights[i].id), Yielded(p.captureID, p.insights[i].id)};
        values := values[Insight(p.insights[i].id) := p.insights[i].attributes];
      }
    }
    assert p.insights[..|p.insights|] == p.insights;
  }

  /** The statements of the action items. */
  method MergeActions(p: Payload, ending: Ending, tx0: set<Element>, values0: Attributes)
    returns (tx: set<Element>, values: Attributes, failed: bool)
    requires Capture(p.captureID) in tx0 && (ending.FailsAt? ==> ending.at > |p.insights|)
    ensures failed == (ending.FailsAt? && ending.at < Statements(p))
    ensures !failed ==> tx == tx0 + ActionPart(p.captureID, p.actions) && values == values0 + ActionAttributes(p.actions)
  {
    tx, values, failed := tx0, values0, false;
    for i := 0 to |p.actions|
      invariant tx == tx0 + ActionPart(p.captureID, p.actions[..i]) && values == values0 + ActionAttributes(p.actions[..i])
      invariant ending.FailsAt? ==> ending.at > |p.insights| + i
    {
      if ending == FailsAt(1 + |p.insights| + i) {
        return tx, values, true;
      }
      assert p.actions[..i + 1][..i] == p.actions[..i];
      if Capture(p.captureID) in tx {
        tx := tx + {Action(p.actions[i].id), Suggests(p.captureID, p.actions[i].id)};
        values := values[Action(p.actions[i].id) := p.actions[i].attributes];
      }
    }
    assert p.actions[..|p.actions|] == p.actions;
  }

  /** No relationship is without its nodes. */
  ghost predicate Closed(graph: set<Element>) {
    && (forall s, c :: HasCapture(s, c) in graph ==> Source(s) in graph && Capture(c) in graph)
    && (forall c, i :: Yielded(c, i) in graph ==> Capture(c) in graph && Insight(i) in graph)
    && (forall c, a :: Suggests(c, a) in graph ==> Capture(c) in graph && Action(a) in graph)
  }

  lemma {:induction false} InsightPartExact(captureID: string, insights: seq<Fact>, e: Element)
    ensures e in InsightPart(captureID, insights) <==>
      exists i :: i in insights && (e == Insight(i.id) || e == Yielded(captureID, i.id))
  {
    if insights != [] {
      var init, last := insights[..|insights| - 1], insights[|insights| - 1];
      InsightPartExact(captureID, init, e);
      assert insights == init + [last];
    }
  }

  lemma {:induction false} ActionPartExact(captureID: string, actions: seq<Fact>, e: Element)
    ensures e in ActionPart(captureID, actions) <==>
      exists a :: a in actions && (e == Action(a.id) || e == Suggests(captureID, a.id))
  {
    if actions != [] {
      var init, last := actions[..|actions| - 1], actions[|actions| - 1];
      ActionPartExact(captureID, init, e);
      assert actions == init + [last];
    }
  }

  /** The elements an event stands for: the source and its capture, related, and each insight and action
      item, related to the capture. */
  ghost predicate StandsFor(p: Payload, e: Element) {
    || e == Source(p.sourceType + ":" + p.externalID) || e == Capture(p.captureID)
    || e == HasCapture(p.sourceType + ":" + p.externalID, p.captureID)
    || (exists i :: i in p.insights && (e == Insight(i.id) || e == Yielded(p.captureID, i.id)))
    || (exists a :: a in p.actions && (e == Action(a.id) || e == Suggests(p.captureID, a.id)))
  }

  lemma FootprintExact(p: Payload, e: Element)
    ensures e in Footprint(p) <==> StandsFor(p, e)
  {
    InsightPartExact(p.captureID, p.insights, e);
    ActionPartExact(p.captureID, p.actions, e);
  }

  /** No node but a source stands alone: a capture has a source, an insight and an action item a capture. */
  ghost predicate Connected(graph: set<Element>) {
    && (forall c :: Capture(c) in graph ==> exists s :: HasCapture(s, c) in graph)
    && (forall i :: Insight(i) in graph ==> exists c :: Yielded(c, i) in graph)
    && (forall a :: Action(a) in graph ==> exists c :: Suggests(c, a) in graph)
  }

  lemma FootprintConnected(p: Payload)
    ensures Connected(Footprint(p))
  {
    forall c | Capture(c) in Footprint(p) ensures exists s :: HasCapture(s, c) in Footprint(p) {
      FootprintExact(p, Capture(c));
      FootprintExact(p, HasCapture(SourceID(p), c));
    }
    forall i | Insight(i) in Footprint(p) ensures exists c :: Yielded(c, i) in Footprint(p) {
      FootprintExact(p, Insight(i));
      FootprintExact(p, Yielded(p.captureID, i));
    }
    forall a | Action(a) in Footprint(p) ensures exists c :: Suggests(c, a) in Footprint(p) {
      FootprintExact(p, Action(a));
      FootprintExact(p, Suggests(p.captureID, a));
    }
  }

  lemma FootprintClosed(p: Payload)
    ensures Closed(Footprint(p))
  {
    forall c, i | Yielded(c, i) in Footprint(p) ensures Capture(c) in Footprint(p) && Insight(i) in Footprint(p) {
      InsightPartExact(p.captureID, p.insights, Yielded(c, i));
      ActionPartExact(p.captureID, p.actions, Yielded(c, i));
      InsightPartExact(p.captureID, p.insights, Insight(i));
    }
    forall c, a | Suggests(c, a) in Footprint(p) ensures Capture(c) in Footprint(p) && Action(a) in Footprint(p) {
      InsightPartExact(p.captureID, p.insights, Suggests(c, a));
      ActionPartExact(p.captureID, p.actions, Suggests(c, a));
      ActionPartExact(p.captureID, p.actions, Action(a));
    }
    forall s, c | HasCapture(s, c) in Footprint(p) ensures Source(s) in Footprint(p) && Capture(c) in Footprint(p) {
      InsightPartExact(p.captureID, p.insights, HasCapture(s, c));
      ActionPartExact(p.captureID, p.actions, HasCapture(s, c));
    }
  }

  lemma {:induction false} InsightAttributesExact(captureID: string, insights: seq<Fact>)
    ensures forall e :: e in InsightAttributes(insights) <==> e in InsightPart(captureID, insights) && IsNode(e)
  {
    if insights != [] {
      InsightAttributesExact(captureID, insights[..|insights| - 1]);
    }
  }

  lemma {:induction false} ActionAttributesExact(captureID: string, actions: seq<Fact>)
    ensures forall e :: e in ActionAttributes(actions) <==> e in ActionPart(captureID, actions) && IsNode(e)
  {
    if actions != [] {
      ActionAttributesExact(captureID, actions[..|actions| - 1]);
    }
  }

  /** The facts from `k` on have other IDs than the one before them. */
  ghost predicate LastOfID(facts: seq<Fact>, k: nat) {
    k < |facts| && forall j :: k < j < |facts| ==> facts[j].id != facts[k].id
  }

  lemma {:induction false} InsightValue(insights: seq<Fact>, k: nat)
    requires LastOfID(insights, k)
    ensures Insight(insights[k].id) in InsightAttributes(insights)
    ensures InsightAttributes(insights)[Insight(insights[k].id)] == insights[k].attributes
  {
    if k < |insights| - 1 {
      InsightValue(insights[..|insights| - 1], k);
    }
  }

  lemma {:induction false} ActionValue(actions: seq<Fact>, k: nat)
    requires LastOfID(actions, k)
    ensures Action(actions[k].id) in ActionAttributes(actions)
    ensures ActionAttributes(actions)[Action(actions[k].id)] == actions[k].attributes
  {
    if k < |actions| - 1 {
      ActionValue(actions[..|actions| - 1], k);
    }
  }

  lemma OnlyOwnNodes(p: Payload, e: Element)
    ensures e in InsightAttributes(p.insights) ==> e.Insight?
    ensures e in ActionAttributes(p.actions) ==> e.Action?
  {
    InsightAttributesExact(p.captureID, p.insights);
    ActionAttributesExact(p.captureID, p.actions);
    InsightPartExact(p.captureID, p.insights, e);
    ActionPartExact(p.captureID, p.actions, e);
  }

  /** Which attributes an event sets: each node its own, and an ID that comes twice the later ones. */
  lemma WrittenValues(p: Payload, k: nat)
    ensures Written(p)[Source(p.sourceType + ":" + p.externalID)] == p.attributes && Written(p)[Capture(p.captureID)] == p.synthesis
    ensures LastOfID(p.insights, k) ==> Insight(p.insights[k].id) in Written(p) && Written(p)[Insight(p.insights[k].id)] == p.insights[k].attributes
    ensures LastOfID(p.actions, k) ==> Action(p.actions[k].id) in Written(p) && Written(p)[Action(p.actions[k].id)] == p.actions[k].attributes
  {
    OnlyOwnNodes(p, Source(SourceID(p)));
    OnlyOwnNodes(p, Capture(p.captureID));
    if LastOfID(p.insights, k) {
      InsightValue(p.insights, k);
      OnlyOwnNodes(p, Insight(p.insights[k].id));
    }
    if LastOfID(p.actions, k) {
      ActionValue(p.actions, k);
    }
  }

  /** An event sets attributes of its nodes, of all of them and of nothing else. */
  lemma WrittenExact(p: Payload)
    ensures forall e :: e in Written(p) <==> e in Footprint(p) && IsNode(e)
  {
    InsightAttributesExact(p.captureID, p.insights);
    ActionAttributesExact(p.captureID, p.actions);
  }

  // ---------------------------------------------------------------- the outbox

  /** A row; its identity is its position in the order of creation. `payload` is None when it
      cannot be decoded. */
  datatype Row = Row(payload: Option<Payload>, processed: bool, attempts: int, availableAt: int)

  /** A row as it was read. */
  datatype Read = Read(id: nat, payload: Option<Payload>, attempts: int)

  /** The wait before the given attempt, in minutes. */
  function Backoff(attempt: int): int {
    if attempt <= 1 then 1
    else if attempt > 6 then 60
    else attempt * attempt
  }

  /** The wait never shrinks from one attempt to the next, and is at most one hour. */
  lemma BackoffGrows(a: int, b: int)
    requires a <= b
    ensures 1 <= Backoff(a) <= Backoff(b) <= 60
    ensures 2 <= b <= 6 && a < b ==> Backoff(a) < Backoff(b)
  {
    if 2 <= a && b <= 6 {
      assert a * a <= b * b;
    }
  }

  predicate Pending(row: Row, now: int) {
    !row.processed && row.availableAt <= now
  }

  /** The rows that are due, oldest first. */
  function Due(rows: seq<Row>, now: int): (batch: seq<Read>)
    ensures forall k :: 0 <= k < |batch| ==>
      && batch[k].id < |rows| && Pending(rows[batch[k].id], now)
      && batch[k].payload == rows[batch[k].id].payload && batch[k].attempts == rows[batch[k].id].attempts
  {
    if rows == [] then []
    else
      var last := |rows| - 1;
      var rest := Due(rows[..last], now);
      if Pending(rows[last], now) then rest + [Read(last, rows[last].payload, rows[last].attempts)] else rest
  }

  function Batch(rows: seq<Row>, now: int, limit: int): (batch: seq<Read>)
    ensures batch <= Due(rows, now) && |batch| <= if limit <= 0 then 50 else limit
  {
    Take(Due(rows, now), if limit <= 0 then 50 else limit)
  }

  function MarkedProcessed(rows: seq<Row>, id: nat): seq<Row>
    requires id < |rows|
  {
    rows[id := rows[id].(processed := true)]
  }

  function MarkedFailed(rows: seq<Row>, id: nat, attempts: int, now: int): seq<Row>
    requires id < |rows|
  {
    rows[id := rows[id].(attempts := rows[id].attempts + 1, availableAt := now + Backoff(attempts + 1))]
  }

  /** What happens to one event of a batch outside of the program: how its transaction ends,
      whether the row can then be updated, and when. */
  datatype Outcome = Outcome(ending: Ending, marks: bool, now: int)

  /** The rows after one event. */
  function Marked(rows: seq<Row>, event: Read, outcome: Outcome): (after: seq<Row>)
    requires event.id < |rows|
    ensures |after| == |rows|
  {
    if !outcome.marks then rows
    else if Reported(event.payload, outcome.ending) then MarkedProcessed(rows, event.id)
    else MarkedFailed(rows, event.id, event.attempts, outcome.now)
  }

  function RowsAfter(rows: seq<Row>, batch: seq<Read>, outcomes: seq<Outcome>): (after: seq<Row>)
    requires |batch| == |outcomes| && forall k :: 0 <= k < |batch| ==> batch[k].id < |rows|
    ensures |after| == |rows|
  {
    if batch == [] then rows
    else
      var last := |batch| - 1;
      Marked(RowsAfter(rows, batch[..last], outcomes[..last]), batch[last], outcomes[last])
  }

  function GraphAfter(graph: Graph, batch: seq<Read>, outcomes: seq<Outcome>): Graph
    requires |batch| == |outcomes|
  {
    if batch == [] then graph
    else
      var last := |batch| - 1;
      Synced(GraphAfter(graph, batch[..last], outcomes[..last]), batch[last].payload, outcomes[last].ending)
  }

  /** How many events of the batch end up processed. */
  function Successes(batch: seq<Read>, outcomes: seq<Outcome>): (n: nat)
    requires |batch| == |outcomes|
    ensures n <= |batch|
  {
    if batch == [] then 0
    else
      var last := |batch| - 1;
      Successes(batch[..last], outcomes[..last])
      + if Reported(batch[last].payload, outcomes[last].ending) && outcomes[last].marks then 1 else 0
  }

  // ---------------------------------------------------------------- what marking a row means

  /** Row `id` would be in a batch without limit. */
  ghost predicate IsDue(rows: seq<Row>, id: nat, t: int) {
    exists k :: 0 <= k < |Due(rows, t)| && Due(rows, t)[k].id == id
  }

  lemma DueMore(rows: seq<Row>, t: int, rest: seq<Read>, last: nat)
    requires |rows| == last + 1 && rest == Due(rows[..last], t)
    ensures forall id: nat :: IsDue(rows, id, t) <==> IsDue(rows[..last], id, t) || (id == last && Pending(rows[last], t))
  {
    var due := Due(rows, t);
    forall id: nat | IsDue(rows[..last], id, t) ensures IsDue(rows, id, t) {
      var k :| 0 <= k < |rest| && rest[k].id == id;
      assert due[k].id == id;
    }
    assert Pending(rows[last], t) ==> due[|rest|].id == last;
  }

  /** The rows that are due are exactly the pending ones, in order of creation. */
  lemma {:induction false} DueExactly(rows: seq<Row>, t: int)
    ensures forall i, k :: 0 <= i < k < |Due(rows, t)| ==> Due(rows, t)[i].id < Due(rows, t)[k].id
    ensures forall id: nat :: IsDue(rows, id, t) <==> id < |rows| && Pending(rows[id], t)
  {
    if rows != [] {
      var last := |rows| - 1;
      DueExactly(rows[..last], t);
      DueMore(rows, t, Due(rows[..last], t), last);
    }
  }

  lemma {:induction false} ProcessedStays(rows: seq<Row>, id: nat, batch: seq<Read>, outcomes: seq<Outcome>)
    requires id < |rows| && rows[id].processed
    requires |batch| == |outcomes| && forall k :: 0 <= k < |batch| ==> batch[k].id < |rows|
    ensures RowsAfter(rows, batch, outcomes)[id].processed
  {
    if batch != [] {
      var last := |batch| - 1;
      ProcessedStays(rows, id, batch[..last], outcomes[..last]);
    }
  }

  /** A row that was marked as processed is never due again, whatever other synchronisers that
      read it before still do to it; and no other row is touched. */
  lemma ProcessedIsNeverDue(rows: seq<Row>, id: nat, batch: seq<Read>, outcomes: seq<Outcome>, t: int)
    requires id < |rows| && |batch| == |outcomes| && forall k :: 0 <= k < |batch| ==> batch[k].id < |rows|
    ensures !IsDue(RowsAfter(MarkedProcessed(rows, id), batch, outcomes), id, t)
    ensures forall other: nat :: other != id ==> (IsDue(MarkedProcessed(rows, id), other, t) <==> IsDue(rows, other, t))
  {
    ProcessedStays(MarkedProcessed(rows, id), id, batch, outcomes);
    DueExactly(RowsAfter(MarkedProcessed(rows, id), batch, outcomes), t);
    DueExactly(MarkedProcessed(rows, id), t);
    DueExactly(rows, t);
  }

  /** A row that was marked as failed after so many attempts is due again exactly when the wait is over:
      one minute at first, then the square of the number of the attempt in minutes, and one hour from
      the seventh on. No other row is touched. */
  lemma FailedIsDueAgain(rows: seq<Row>, id: nat, attempts: int, now: int, t: int)
    requires id < |rows|
    ensures var wait := if attempts <= 0 then 1 else if attempts > 5 then 60 else (attempts + 1) * (attempts + 1);
      IsDue(MarkedFailed(rows, id, attempts, now), id, t) <==> !rows[id].processed && now + wait <= t
    ensures t < now + 1 ==> !IsDue(MarkedFailed(rows, id, attempts, now), id, t)
    ensures !rows[id].processed && t >= now + 60 ==> IsDue(MarkedFailed(rows, id, attempts, now), id, t)
    ensures forall other: nat :: other != id ==> (IsDue(MarkedFailed(rows, id, attempts, now), other, t) <==> IsDue(rows, other, t))
  {
    BackoffGrows(attempts + 1, attempts + 1);
    DueExactly(MarkedFailed(rows, id, attempts, now), t);
    DueExactly(rows, t);
  }

  class Outbox {
    var rows: seq<Row>

    method MarkGraphEventProcessed(id: nat, marks: bool) returns (ok: bool)
      requires id < |rows|
      modifies this
      ensures rows == (if marks then MarkedProcessed(old(rows), id) else old(rows)) && ok == marks
    {
      if marks {
        rows := rows[id := rows[id].(processed := true)];
      }
      return marks;
    }

    method MarkGraphEventFailed(id: nat, attempts: int, now: int, marks: bool) returns (ok: bool)
      requires id < |rows|
      modifies this
      ensures rows == (if marks then MarkedFailed(old(rows), id, attempts, now) else old(rows)) && ok == marks
    {
      var nextAttempt := now + Backoff(attempts + 1);
      if marks {
        rows := rows[id := rows[id].(attempts := rows[id].attempts + 1, availableAt := nextAttempt)];
      }
      return marks;
    }
  }

  /** One event of a batch: it is written to the graph and its row is marked. */
  method SyncOne(outbox: Outbox, graph: GraphStore, event: Read, outcome: Outcome) returns (ok: bool)
    requires event.id < |outbox.rows|
    modifies outbox, graph
    ensures outbox.rows == Marked(old(outbox.rows), event, outcome)
    ensures graph.Value() == Synced(old(graph.Value()), event.payload, outcome.ending)
    ensures ok == (Reported(event.payload, outcome.ending) && outcome.marks)
  {
    var synced := graph.SyncEvent(event.payload, outcome.ending);
    if !synced {
      var marked := outbox.MarkGraphEventFailed(event.id, event.attempts, outcome.now, outcome.marks);
      return false;
    }
    ok := outbox.MarkGraphEventProcessed(event.id, outcome.marks);
  }

  lemma OneMoreEvent(rows: seq<Row>, graph: Graph, batch: seq<Read>, outcomes: seq<Outcome>, next: nat, outcome: Outcome)
    requires |outcomes| < |batch| && next == |outcomes| + 1 && forall k :: 0 <= k < |batch| ==> batch[k].id < |rows|
    ensures var done, event := batch[..|outcomes|], batch[|outcomes|];
      && RowsAfter(rows, batch[..next], outcomes + [outcome]) == Marked(RowsAfter(rows, done, outcomes), event, outcome)
      && GraphAfter(graph, batch[..next], outcomes + [outcome]) == Synced(GraphAfter(graph, done, outcomes), event.payload, outcome.ending)
      && Successes(batch[..next], outcomes + [outcome]) ==
         Successes(done, outcomes) + if Reported(event.payload, outcome.ending) && outcome.marks then 1 else 0
  {
    assert batch[..next][..next - 1] == batch[..next - 1] && (outcomes + [outcome])[..next - 1] == outcomes;
  }

  /** One run of the synchroniser, alone. `world` holds what happens to its events. */
  method SyncBatch(outbox: Outbox, graph: GraphStore, limit: int, now: int, world: nat -> Outcome)
    returns (processed: nat, failed: nat, ghost batch: seq<Read>, ghost outcomes: seq<Outcome>)
    modifies outbox, graph
    ensures batch == Batch(old(outbox.rows), now, limit)
    ensures |outcomes| == |batch| && forall k :: 0 <= k < |batch| ==> outcomes[k] == world(k)
    ensures outbox.rows == RowsAfter(old(outbox.rows), batch, outcomes)
    ensures graph.Value() == GraphAfter(old(graph.Value()), batch, outcomes)
    ensures processed == Successes(batch, outcomes) && processed + failed == |batch|
  {
    var events := Batch(outbox.rows, now, limit);
    batch, outcomes := events, [];
    processed, failed := 0, 0;
    for k := 0 to |events|
      invariant |outcomes| == k && forall j :: 0 <= j < k ==> outcomes[j] == world(j)
      invariant outbox.rows == RowsAfter(old(outbox.rows), batch[..k], outcomes)
      invariant graph.Value() == GraphAfter(old(graph.Value()), batch[..k], outcomes)
      invariant processed == Successes(batch[..k], outcomes) && processed + failed == k
    {
      var event, outcome := events[k], world(k);
      OneMoreEvent(old(outbox.rows), old(graph.Value()), batch, outcomes, k + 1, outcome);
      outcomes := outcomes + [outcome];
      var ok := SyncOne(outbox, graph, event, outcome);
      if ok {
        processed := processed + 1;
      } else {
        failed := failed + 1;
      }
    }
    assert batch[..|batch|] == batch;
  }
}
