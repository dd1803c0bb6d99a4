/** The bounded undo history of the canvas, and the timeline with a cursor that it stands for. */
module CanvasHistory {
  import opened Basics

  const HISTORY_LIMIT: int := 60

  /** The canvas with its history; `T` is the type of canvas states. */
  datatype History<T> = History(past: seq<T>, present: T, future: seq<T>)

  /** The last `n` elements, `slice(-n)`. */
  function Last<T>(s: seq<T>, n: nat): seq<T> {
    if |s| <= n then s else s[|s| - n..]
  }

  /** What a user does: a change is recorded with the state before it, the present is set without
      a record (while dragging), or the history is walked. */
  datatype Action<T> = Record(before: T) | Set(next: T) | Undo | Redo

  function Acted<T>(h: History<T>, a: Action<T>): History<T> {
    match a
    case Record(before) => h.(past := Last(h.past, HISTORY_LIMIT - 1) + [before], future := [])
    case Set(next) => h.(present := next)
    case Undo =>
      if h.past == [] then h
      else History(h.past[..|h.past| - 1], h.past[|h.past| - 1], Take([h.present] + h.future, HISTORY_LIMIT))
    case Redo =>
      if h.future == [] then h
      else History(Last(h.past + [h.present], HISTORY_LIMIT), h.future[0], h.future[1..])
  }

  function AfterAll<T>(h: History<T>, actions: seq<Action<T>>): History<T> {
    if actions == [] then h else Acted(AfterAll(h, actions[..|actions| - 1]), actions[|actions| - 1])
  }

  /** The component that holds the history. */
  class Canvas<T> {
    var past: seq<T>
    var present: T
    var future: seq<T>

    ghost function Value(): History<T>
      reads this
    {
      History(past, present, future)
    }

    constructor (initial: T)
      ensures Value() == History([], initial, [])
    {
      past, present, future := [], initial, [];
    }

    method RecordHistory(before: T)
      modifies this
      ensures Value() == Acted(old(Value()), Record(before))
    {
      past := Last(past, HISTORY_LIMIT - 1) + [before];
      future := [];
    }

    method SetCanvasState(next: T)
      modifies this
      ensures Value() == Acted(old(Value()), Set(next))
    {
      present := next;
    }

    method CommitCanvasState(next: T, before: T)
      modifies this
      ensures Value() == AfterAll(old(Value()), [Record(before), Set(next)])
    {
      ghost var h := Value();
      RecordHistory(before);
      SetCanvasState(next);
      TwoActions(h, Record(before), Set(next));
    }

    method UndoCanvas()
      modifies this
      ensures Value() == Acted(old(Value()), Undo)
    {
      if |past| == 0 {
        return;
      }
      var previous, present' := past[|past| - 1], present;
      present := previous;
      past := past[..|past| - 1];
      future := Take([present'] + future, HISTORY_LIMIT);
    }

    method RedoCanvas()
      modifies this
      ensures Value() == Acted(old(Value()), Redo)
    {
      if |future| == 0 {
        return;
      }
      var next, present' := future[0], present;
      present := next;
      past := Last(past + [present'], HISTORY_LIMIT);
      future := future[1..];
    }
  }

  lemma OneMore<T>(h: History<T>, actions: seq<Action<T>>, a: Action<T>)
    ensures AfterAll(h, actions + [a]) == Acted(AfterAll(h, actions), a)
  {
    assert (actions + [a])[..|actions|] == actions;
  }

  lemma TwoActions<T>(h: History<T>, a: Action<T>, b: Action<T>)
    ensures AfterAll(h, [a, b]) == Acted(Acted(h, a), b)
  {
    OneMore(h, [], a);
    OneMore(h, [a], b);
    assert [] + [a] == [a] && [a] + [b] == [a, b];
  }

  // ---------------------------------------------------------------- the timeline

  /** All states ever on the way to the latest one, a cursor at the present, and the point before
      which nothing can be undone any more. */
  datatype Timeline<T> = Timeline(states: seq<T>, cursor: nat, base: nat)

  ghost predicate Valid<T>(t: Timeline<T>) {
    t.base <= t.cursor < |t.states| && |t.states| - 1 - t.base <= HISTORY_LIMIT
  }

  function Max(a: int, b: int): int {
    if a >= b then a else b
  }

  /** A record cuts the timeline at the cursor and goes on from there; the oldest states fall out
      of reach. Undo and redo move the cursor. */
  function Moved<T>(t: Timeline<T>, a: Action<T>): Timeline<T>
    requires Valid(t)
  {
    match a
    case Record(before) =>
      Timeline(t.states[..t.cursor] + [before, t.states[t.cursor]], t.cursor + 1, Max(t.base, t.cursor + 1 - HISTORY_LIMIT))
    case Set(next) => t.(states := t.states[t.cursor := next])
    case Undo => if t.cursor > t.base then t.(cursor := t.cursor - 1) else t
    case Redo => if t.cursor + 1 < |t.states| then t.(cursor := t.cursor + 1) else t
  }

  /** The history is the timeline around the cursor, without what is out of reach. */
  function View<T>(t: Timeline<T>): History<T>
    requires Valid(t)
  {
    History(t.states[t.base..t.cursor], t.states[t.cursor], t.states[t.cursor + 1..])
  }

  lemma RecordFollows<T>(t: Timeline<T>, before: T)
    requires Valid(t)
    ensures Valid(Moved(t, Record(before))) && View(Moved(t, Record(before))) == Acted(View(t), Record(before))
  {
    var after, past := Moved(t, Record(before)), t.states[t.base..t.cursor];
    assert after.states[after.base..after.cursor] == Last(past, HISTORY_LIMIT - 1) + [before] by {
      assert after.states[..t.cursor] == t.states[..t.cursor];
      assert |past| > HISTORY_LIMIT - 1 ==> past[|past| - (HISTORY_LIMIT - 1)..] == t.states[after.base..t.cursor];
      assert |past| <= HISTORY_LIMIT - 1 ==> after.base == t.base;
    }
    assert after.states[after.cursor + 1..] == [];
  }

  lemma UndoFollows<T>(t: Timeline<T>)
    requires Valid(t)
    ensures Valid(Moved(t, Undo)) && View(Moved(t, Undo)) == Acted(View(t), Undo)
  {
    if t.cursor > t.base {
      var past, c := t.states[t.base..t.cursor], t.cursor;
      assert past[..|past| - 1] == t.states[t.base..c - 1] && past[|past| - 1] == t.states[c - 1];
      assert t.states[c..] == [t.states[c]] + t.states[c + 1..];
    }
  }

  lemma RedoFollows<T>(t: Timeline<T>)
    requires Valid(t)
    ensures Valid(Moved(t, Redo)) && View(Moved(t, Redo)) == Acted(View(t), Redo)
  {
    if t.cursor + 1 < |t.states| {
      var future, c := t.states[t.cursor + 1..], t.cursor;
      assert t.states[t.base..c + 1] == t.states[t.base..c] + [t.states[c]];
      assert future[0] == t.states[c + 1] && future[1..] == t.states[c + 2..];
    }
  }

  /** The bounded history does what the timeline does; in particular its limit never cuts a redo. */
  lemma ActionFollows<T>(t: Timeline<T>, a: Action<T>)
    requires Valid(t)
    ensures Valid(Moved(t, a)) && View(Moved(t, a)) == Acted(View(t), a)
  {
    match a
    case Record(before) => RecordFollows(t, before);
    case Set(next) =>
    case Undo => UndoFollows(t);
    case Redo => RedoFollows(t);
  }

  ghost function MovedAll<T>(t: Timeline<T>, actions: seq<Action<T>>): (r: Timeline<T>)
    requires Valid(t)
    ensures Valid(r)
  {
    if actions == [] then t
    else
      var before := MovedAll(t, actions[..|actions| - 1]);
      ActionFollows(before, actions[|actions| - 1]);
      Moved(before, actions[|actions| - 1])
  }

  function Fresh<T>(initial: T): (t: Timeline<T>)
    ensures Valid(t) && View(t) == History([], initial, [])
  {
    Timeline([initial], 0, 0)
  }

  /** Over every run the history is the timeline's view: `past` holds the states before the cursor
      that are in reach, `future` all that were undone. */
  lemma {:induction false} HistoryRefinesTimeline<T>(initial: T, actions: seq<Action<T>>)
    ensures AfterAll(History([], initial, []), actions) == View(MovedAll(Fresh(initial), actions))
  {
    if actions != [] {
      var init := actions[..|actions| - 1];
      HistoryRefinesTimeline(initial, init);
      ActionFollows(MovedAll(Fresh(initial), init), actions[|actions| - 1]);
    }
  }

  // ---------------------------------------------------------------- what follows

  /** The histories that runs lead to. */
  ghost predicate Reachable<T(!new)>(h: History<T>) {
    exists initial, actions :: h == AfterAll(History([], initial, []), actions)
  }

  lemma HistoryIsBounded<T(!new)>(h: History<T>)
    requires Reachable(h)
    ensures |h.past| + |h.future| <= HISTORY_LIMIT
  {
    var initial, actions :| h == AfterAll(History([], initial, []), actions);
    HistoryRefinesTimeline(initial, actions);
  }

  lemma WalkInverse<T>(h: History<T>)
    requires |h.past| + |h.future| <= HISTORY_LIMIT
    ensures h.past != [] ==> Acted(Acted(h, Undo), Redo) == h
    ensures h.future != [] ==> Acted(Acted(h, Redo), Undo) == h
  {
    if h.past != [] {
      assert h.past[..|h.past| - 1] + [h.past[|h.past| - 1]] == h.past;
      assert ([h.present] + h.future)[1..] == h.future;
    }
    if h.future != [] {
      assert (h.past + [h.present])[..|h.past|] == h.past;
      assert [h.future[0]] + h.future[1..] == h.future;
    }
  }

  /** Undoing `n` times. */
  function Undone<T>(h: History<T>, n: nat): History<T> {
    if n == 0 then h else Acted(Undone(h, n - 1), Undo)
  }

  function Redone<T>(h: History<T>, n: nat): History<T>
    decreases n
  {
    if n == 0 then h else Redone(Acted(h, Redo), n - 1)
  }

  lemma {:induction false} UndoneKeeps<T>(h: History<T>, n: nat)
    requires |h.past| + |h.future| <= HISTORY_LIMIT && n <= |h.past|
    ensures Undone(h, n).past == h.past[..|h.past| - n] && |Undone(h, n).future| == |h.future| + n
    ensures n > 0 ==> Undone(h, n).present == h.past[|h.past| - n]
  {
    if n > 0 {
      UndoneKeeps(h, n - 1);
    }
  }

  lemma {:induction false} RedoneUndone<T>(h: History<T>, n: nat)
    requires |h.past| + |h.future| <= HISTORY_LIMIT && n <= |h.past|
    ensures Redone(Undone(h, n), n) == h
    decreases n
  {
    if n > 0 {
      UndoneKeeps(h, n - 1);
      WalkInverse(Undone(h, n - 1));
      RedoneUndone(h, n - 1);
    }
  }

  /** Whatever was done before: a redo takes back an undo and an undo a redo; `n` undos reach the
      state recorded `n` records ago, and as many redos lead back to the present, with the whole
      history as it was. */
  lemma UndoRedoInverse<T(!new)>(h: History<T>, n: nat)
    requires Reachable(h) && n <= |h.past|
    ensures h.future != [] ==> Acted(Acted(h, Redo), Undo) == h
    ensures n > 0 ==> Undone(h, n).present == h.past[|h.past| - n]
    ensures Redone(Undone(h, n), n) == h
  {
    HistoryIsBounded(h);
    WalkInverse(h);
    UndoneKeeps(h, n);
    RedoneUndone(h, n);
  }

  // ---------------------------------------------------------------- without a limit

  /** The same history if nothing ever fell out of reach. */
  ghost predicate Unbounded<T>(t: Timeline<T>) {
    t.cursor < |t.states|
  }

  function Unlimited<T>(t: Timeline<T>, a: Action<T>): (r: Timeline<T>)
    requires Unbounded(t)
    ensures Unbounded(r)
  {
    match a
    case Record(before) => Timeline(t.states[..t.cursor] + [before, t.states[t.cursor]], t.cursor + 1, 0)
    case Set(next) => t.(states := t.states[t.cursor := next])
    case Undo => if t.cursor > 0 then t.(cursor := t.cursor - 1) else t
    case Redo => if t.cursor + 1 < |t.states| then t.(cursor := t.cursor + 1) else t
  }

  function UnlimitedAll<T>(initial: T, actions: seq<Action<T>>): (r: Timeline<T>)
    ensures Unbounded(r)
  {
    if actions == [] then Timeline([initial], 0, 0)
    else Unlimited(UnlimitedAll(initial, actions[..|actions| - 1]), actions[|actions| - 1])
  }

  /** No undo was asked for when its state had fallen out of reach. */
  predicate WithinReach<T(==)>(initial: T, actions: seq<Action<T>>) {
    actions != [] ==>
      var init := actions[..|actions| - 1];
      && WithinReach(initial, init)
      && (actions[|actions| - 1].Undo? && AfterAll(History([], initial, []), init).past == [] ==> UnlimitedAll(initial, init).cursor == 0)
  }

  ghost predicate SameWay<T>(t: Timeline<T>, u: Timeline<T>) {
    t.states == u.states && t.cursor == u.cursor
  }

  lemma SameWayOn<T>(t: Timeline<T>, u: Timeline<T>, a: Action<T>)
    requires Valid(t) && Unbounded(u) && SameWay(t, u) && (a.Undo? && t.cursor == t.base ==> u.cursor == 0)
    ensures SameWay(Moved(t, a), Unlimited(u, a))
  {
  }

  lemma {:induction false} SameAsUnlimited<T>(initial: T, actions: seq<Action<T>>)
    requires WithinReach(initial, actions)
    ensures SameWay(MovedAll(Fresh(initial), actions), UnlimitedAll(initial, actions))
  {
    if actions != [] {
      var init, last := actions[..|actions| - 1], actions[|actions| - 1];
      SameAsUnlimited(initial, init);
      HistoryRefinesTimeline(initial, init);
      SameWayOn(MovedAll(Fresh(initial), init), UnlimitedAll(initial, init), last);
    }
  }

  /** Unless a state was asked for that had fallen out of reach, the canvas shows what it would
      show without any limit. */
  lemma LimitIsInvisible<T>(initial: T, actions: seq<Action<T>>)
    requires WithinReach(initial, actions)
    ensures AfterAll(History([], initial, []), actions).present == UnlimitedAll(initial, actions).states[UnlimitedAll(initial, actions).cursor]
    ensures AfterAll(History([], initial, []), actions).future == UnlimitedAll(initial, actions).states[UnlimitedAll(initial, actions).cursor + 1..]
  {
    SameAsUnlimited(initial, actions);
    HistoryRefinesTimeline(initial, actions);
  }

  /** Canvas and unlimited history have been at the same place of the same timeline all the time. */
  ghost predicate SameAllTheWay<T>(initial: T, actions: seq<Action<T>>) {
    forall k :: 0 <= k <= |actions| ==> SameWay(MovedAll(Fresh(initial), actions[..k]), UnlimitedAll(initial, actions[..k]))
  }

  lemma MovedPrefix<T>(initial: T, actions: seq<Action<T>>, k: nat)
    requires k < |actions|
    ensures MovedAll(Fresh(initial), actions[..k + 1]) == Moved(MovedAll(Fresh(initial), actions[..k]), actions[k])
    ensures UnlimitedAll(initial, actions[..k + 1]) == Unlimited(UnlimitedAll(initial, actions[..k]), actions[k])
  {
    assert actions[..k + 1][..k] == actions[..k];
  }

  lemma {:induction false} SameAllTheWayIsWithinReach<T>(initial: T, actions: seq<Action<T>>)
    requires SameAllTheWay(initial, actions)
    ensures WithinReach(initial, actions)
  {
    if actions != [] {
      var n := |actions| - 1;
      var init := actions[..n];
      forall k | 0 <= k <= n ensures SameWay(MovedAll(Fresh(initial), init[..k]), UnlimitedAll(initial, init[..k])) {
        assert init[..k] == actions[..k];
      }
      SameAllTheWayIsWithinReach(initial, init);
      HistoryRefinesTimeline(initial, init);
      MovedPrefix(initial, actions, n);
      assert actions[..n + 1] == actions;
    }
  }

  lemma {:induction false} WithinReachOfPrefix<T>(initial: T, actions: seq<Action<T>>, k: nat)
    requires WithinReach(initial, actions) && k <= |actions|
    ensures WithinReach(initial, actions[..k])
  {
    if k < |actions| {
      var init := actions[..|actions| - 1];
      WithinReachOfPrefix(initial, init, k);
      assert init[..k] == actions[..k];
    } else {
      assert actions[..k] == actions;
    }
  }

  /** Exactly then the limit never shows. */
  lemma LimitIsInvisibleExactly<T>(initial: T, actions: seq<Action<T>>)
    ensures SameAllTheWay(initial, actions) <==> WithinReach(initial, actions)
  {
    if SameAllTheWay(initial, actions) {
      SameAllTheWayIsWithinReach(initial, actions);
    }
    if WithinReach(initial, actions) {
      forall k | 0 <= k <= |actions| ensures SameWay(MovedAll(Fresh(initial), actions[..k]), UnlimitedAll(initial, actions[..k])) {
        WithinReachOfPrefix(initial, actions, k);
        SameAsUnlimited(initial, actions[..k]);
      }
    }
  }

  function UpTo(n: nat): (s: seq<int>)
    ensures |s| == n + 1 && forall k :: 0 <= k <= n ==> s[k] == k
  {
    if n == 0 then [0] else UpTo(n - 1) + [n]
  }

  /** Changes from 0 to 1, from 1 to 2 and so on. */
  function Changes(n: nat): seq<Action<int>> {
    if n == 0 then [] else Changes(n - 1) + [Record(n - 1)] + [Set(n)]
  }

  function ChangesAndUndos(n: nat, undos: nat): seq<Action<int>> {
    if undos == 0 then Changes(n) else ChangesAndUndos(n, undos - 1) + [Undo]
  }

  lemma MovedMore<T>(initial: T, actions: seq<Action<T>>, a: Action<T>)
    ensures MovedAll(Fresh(initial), actions + [a]) == Moved(MovedAll(Fresh(initial), actions), a)
    ensures UnlimitedAll(initial, actions + [a]) == Unlimited(UnlimitedAll(initial, actions), a)
  {
    assert (actions + [a])[..|actions|] == actions;
  }

  lemma OneChange(states: seq<int>, n: nat)
    requires |states| == n && n > 0 && states[n - 1] == n - 1
    ensures (states[..n - 1] + [n - 1, states[n - 1]])[n := n] == states + [n]
  {
  }

  lemma MovedByChange(t: Timeline<int>, u: Timeline<int>, states: seq<int>, n: nat, next: int)
    requires |states| == n + 1 && states[n] == n && next == n + 1
    requires t == Timeline(states, n, Max(0, n - HISTORY_LIMIT)) && u == Timeline(states, n, 0)
    ensures Moved(Moved(t, Record(n)), Set(next)) == Timeline(states + [next], n + 1, Max(0, n + 1 - HISTORY_LIMIT))
    ensures Unlimited(Unlimited(u, Record(n)), Set(next)) == Timeline(states + [next], n + 1, 0)
  {
    OneChange(states, n + 1);
  }

  lemma {:induction false} AfterChanges(n: nat)
    ensures MovedAll(Fresh(0), Changes(n)) == Timeline(UpTo(n), n, Max(0, n - HISTORY_LIMIT))
    ensures UnlimitedAll(0, Changes(n)) == Timeline(UpTo(n), n, 0)
  {
    if n > 0 {
      var before := Changes(n - 1);
      AfterChanges(n - 1);
      MovedMore(0, before, Record(n - 1));
      MovedMore(0, before + [Record(n - 1)], Set(n));
      MovedByChange(MovedAll(Fresh(0), before), UnlimitedAll(0, before), UpTo(n - 1), n - 1, n);
    }
  }

  lemma {:induction false} AfterUndos(n: nat, undos: nat)
    requires undos <= n
    ensures MovedAll(Fresh(0), ChangesAndUndos(n, undos)) == Timeline(UpTo(n), Max(n - undos, Max(0, n - HISTORY_LIMIT)), Max(0, n - HISTORY_LIMIT))
    ensures UnlimitedAll(0, ChangesAndUndos(n, undos)) == Timeline(UpTo(n), n - undos, 0)
    decreases undos
  {
    if undos == 0 {
      AfterChanges(n);
    } else {
      AfterUndos(n, undos - 1);
      MovedMore(0, ChangesAndUndos(n, undos - 1), Undo);
    }
  }

  /** More than sixty changes that are all undone: the canvas stops sixty changes back, where a
      history without limit shows the beginning. */
  lemma LimitShows(n: nat)
    requires n > 60
    ensures AfterAll(History([], 0, []), ChangesAndUndos(n, n)).present == n - 60
    ensures UnlimitedAll(0, ChangesAndUndos(n, n)).states[UnlimitedAll(0, ChangesAndUndos(n, n)).cursor] == 0
    ensures !WithinReach(0, ChangesAndUndos(n, n))
  {
    AfterUndos(n, n);
    HistoryRefinesTimeline(0, ChangesAndUndos(n, n));
    if WithinReach(0, ChangesAndUndos(n, n)) {
      SameAsUnlimited(0, ChangesAndUndos(n, n));
    }
  }

  function Records<T>(actions: seq<Action<T>>): nat {
    if actions == [] then 0
    else Records(actions[..|actions| - 1]) + if actions[|actions| - 1].Record? then 1 else 0
  }

  lemma ReachOfMove<T>(t: Timeline<T>, a: Action<T>)
    requires Valid(t)
    ensures |Moved(t, a).states| <= |t.states| + if a.Record? then 1 else 0
    ensures t.base == 0 && |Moved(t, a).states| <= HISTORY_LIMIT + 1 ==> Moved(t, a).base == 0
  {
  }

  lemma {:induction false} ReachOfRecords<T>(initial: T, actions: seq<Action<T>>)
    ensures |MovedAll(Fresh(initial), actions).states| <= Records(actions) + 1
    ensures Records(actions) <= HISTORY_LIMIT ==> MovedAll(Fresh(initial), actions).base == 0
  {
    if actions != [] {
      var init, last := actions[..|actions| - 1], actions[|actions| - 1];
      ReachOfRecords(initial, init);
      ReachOfMove(MovedAll(Fresh(initial), init), last);
    }
  }

  /** In particular nothing is out of reach after sixty changes or fewer. */
  lemma {:induction false} SixtyChangesAreWithinReach<T>(initial: T, actions: seq<Action<T>>)
    requires Records(actions) <= HISTORY_LIMIT
    ensures WithinReach(initial, actions)
  {
    if actions != [] {
      var init := actions[..|actions| - 1];
      SixtyChangesAreWithinReach(initial, init);
      SameAsUnlimited(initial, init);
      HistoryRefinesTimeline(initial, init);
      ReachOfRecords(initial, init);
    }
  }
}
