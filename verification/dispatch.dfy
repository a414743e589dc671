/** Successive dispatches: the root reducer folded over a list of actions,
    which is what the store's state goes through. */
module Dispatch {
  import opened TodoModel
  import opened Reducers
  import opened Selectors

  /** The state after dispatching `actions` in order, starting from `s`. */
  function Run(s: State, actions: seq<Action>): (r: State)
    decreases |actions|
  {
    if actions == [] then s else Run(TodoApp(s, actions[0]), actions[1..])
  }

  /** The ids the adds among `actions` carry, in dispatch order. */
  function AddedIds(actions: seq<Action>): (r: seq<string>)
  {
    if actions == [] then []
    else (if actions[0].AddTodo? then [actions[0].id] else []) + AddedIds(actions[1..])
  }

  /** The filter of the last filter-setting action, or `current` if none. */
  function LastFilter(actions: seq<Action>, current: string): (r: string)
    decreases |actions|
  {
    if actions == [] then current
    else LastFilter(actions[1..], if actions[0].SetVisibilityFilter? then actions[0].filter else current)
  }

  /** `actions[i]` sets the filter and no later action does. */
  ghost predicate LastFilterAt(actions: seq<Action>, i: int) {
    && 0 <= i < |actions|
    && actions[i].SetVisibilityFilter?
    && forall j :: i < j < |actions| ==> !actions[j].SetVisibilityFilter?
  }

  /** `LastFilter` is the filter of the last filter-setting action, and the
      current filter when no action sets one. */
  lemma {:induction false} LastFilterIsLast(actions: seq<Action>, current: string)
    ensures (forall j :: 0 <= j < |actions| ==> !actions[j].SetVisibilityFilter?) ==>
              LastFilter(actions, current) == current
    ensures forall i :: LastFilterAt(actions, i) ==> LastFilter(actions, current) == actions[i].filter
    decreases |actions|
  {
    if actions != [] {
      var next := if actions[0].SetVisibilityFilter? then actions[0].filter else current;
      var rest := actions[1..];
      LastFilterIsLast(rest, next);
      forall i | LastFilterAt(actions, i)
        ensures LastFilter(actions, current) == actions[i].filter
      {
        if i == 0 {
          assert forall j :: 0 <= j < |rest| ==> !rest[j].SetVisibilityFilter? by {
            forall j | 0 <= j < |rest| ensures !rest[j].SetVisibilityFilter? {
              assert rest[j] == actions[j + 1];
            }
          }
        } else {
          assert LastFilterAt(rest, i - 1) by {
            forall j | i - 1 < j < |rest| ensures !rest[j].SetVisibilityFilter? {
              assert rest[j] == actions[j + 1];
            }
          }
        }
      }
      if forall j :: 0 <= j < |actions| ==> !actions[j].SetVisibilityFilter? {
        assert !actions[0].SetVisibilityFilter?;
        assert forall j :: 0 <= j < |rest| ==> !rest[j].SetVisibilityFilter? by {
          forall j | 0 <= j < |rest| ensures !rest[j].SetVisibilityFilter? {
            assert rest[j] == actions[j + 1];
          }
        }
      }
    }
  }

  /** The ids of a list of items, in list order. */
  function Ids(ts: seq<Item>): (r: seq<string>)
    ensures |r| == |ts|
    ensures forall i :: 0 <= i < |ts| ==> r[i] == ts[i].id
  {
    if ts == [] then [] else [ts[0].id] + Ids(ts[1..])
  }

  /** One step of the list reducer appends the added id and moves no other. */
  lemma TodosIds(ts: seq<Item>, a: Action)
    ensures Ids(Todos(ts, a)) == Ids(ts) + (if a.AddTodo? then [a.id] else [])
  {
  }

  /** Items are never removed or reordered: after any run the ids are the
      old ids followed by the added ids, in dispatch order. */
  lemma {:induction false} RunIds(s: State, actions: seq<Action>)
    ensures Ids(Run(s, actions).todos) == Ids(s.todos) + AddedIds(actions)
    ensures |Run(s, actions).todos| == |s.todos| + |AddedIds(actions)|
    decreases |actions|
  {
    if actions != [] {
      var a := actions[0];
      TodosIds(s.todos, a);
      RunIds(TodoApp(s, a), actions[1..]);
    }
  }

  /** After any run the filter is the one the last filter-setting action
      carried, or the old filter if there was none; items never affect it. */
  lemma {:induction false} RunFilter(s: State, actions: seq<Action>)
    ensures Run(s, actions).visibilityFilter == LastFilter(actions, s.visibilityFilter)
    decreases |actions|
  {
    if actions != [] {
      RunFilter(TodoApp(s, actions[0]), actions[1..]);
    }
  }

  /** The id and text of every item, in list order: all of an item except
      its `completed` flag. */
  function Keys(ts: seq<Item>): (r: seq<(string, string)>)
    ensures |r| == |ts|
    ensures forall i :: 0 <= i < |ts| ==> r[i] == (ts[i].id, ts[i].text)
  {
    if ts == [] then [] else [(ts[0].id, ts[0].text)] + Keys(ts[1..])
  }

  /** The id and text the adds among `actions` carry, in dispatch order. */
  function AddedKeys(actions: seq<Action>): (r: seq<(string, string)>)
  {
    if actions == [] then []
    else (if actions[0].AddTodo? then [(actions[0].id, actions[0].text)] else [])
         + AddedKeys(actions[1..])
  }

  /** After any run, position by position, the items carry the old ids and
      texts followed by those of the adds in dispatch order: only `completed`
      can differ from what was there before. */
  lemma {:induction false} RunKeys(s: State, actions: seq<Action>)
    ensures Keys(Run(s, actions).todos) == Keys(s.todos) + AddedKeys(actions)
    decreases |actions|
  {
    if actions != [] {
      var a := actions[0];
      assert Keys(Todos(s.todos, a))
             == Keys(s.todos) + (if a.AddTodo? then [(a.id, a.text)] else []);
      RunKeys(TodoApp(s, a), actions[1..]);
    }
  }

  /** Adding "buy milk" with id "1" to the initial state, then toggling it
      twice. */
  lemma BuyMilkScenario()
    ensures Run(Initial, [AddTodo("1", "buy milk")])
            == State([Item("1", "buy milk", false)], ShowAll)
    ensures Run(Initial, [AddTodo("1", "buy milk"), ToggleTodo("1")]).todos
            == [Item("1", "buy milk", true)]
    ensures Run(Initial, [AddTodo("1", "buy milk"), ToggleTodo("1"), ToggleTodo("1")]).todos
            == [Item("1", "buy milk", false)]
  {
  }

  /** With one completed and one active item, the completed filter shows
      only the completed one. */
  lemma ShowCompletedScenario()
    ensures var s := Run(Initial, [AddTodo("1", "a"), AddTodo("2", "b"), ToggleTodo("2"),
                                   SetVisibilityFilter(ShowCompleted)]);
            VisibleTodos(s.todos, s.visibilityFilter) == [Item("2", "b", true)]
  {
    var items := [Item("1", "a", false), Item("2", "b", true)];
    var s1 := TodoApp(Initial, AddTodo("1", "a"));
    var s2 := TodoApp(s1, AddTodo("2", "b"));
    var s3 := TodoApp(s2, ToggleTodo("2"));
    assert s3.todos == items;
    var actions := [AddTodo("1", "a"), AddTodo("2", "b"), ToggleTodo("2"),
                    SetVisibilityFilter(ShowCompleted)];
    calc {
      Run(Initial, actions);
      Run(s1, actions[1..]);
      Run(s2, actions[2..]);
      Run(s3, actions[3..]);
      Run(State(items, ShowCompleted), []);
    }
    assert Keep(items[1..], true) == [Item("2", "b", true)];
  }
}
