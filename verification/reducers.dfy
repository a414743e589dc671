/** The three reducers and their field-wise combination. */
module Reducers {
  import opened TodoModel

  /** Next value of one item. An add builds a fresh item and ignores `state`;
      a toggle flips `completed` only on the item whose id matches, and needs
      an item to look at (on `undefined` the JavaScript reducer throws). */
  function Todo(state: Option<Item>, a: Action): (r: Option<Item>)
    requires a.ToggleTodo? ==> state.Some?
    ensures a.AddTodo? ==> r == Some(Item(a.id, a.text, false))
    ensures a.ToggleTodo? ==> r.Some?
                               && r.value.id == state.value.id
                               && r.value.text == state.value.text
    ensures a.ToggleTodo? && state.value.id != a.id ==> r == state
    ensures a.ToggleTodo? && state.value.id == a.id ==>
              r.value.completed == !state.value.completed
    ensures (a.SetVisibilityFilter? || a.Other?) ==> r == state
  {
    match a
    case AddTodo(id, text) => Some(Item(id, text, false))
    case ToggleTodo(id) =>
      if state.value.id != id then state
      else Some(state.value.(completed := !state.value.completed))
    case _ => state
  }

  /** `state.map(t => todo(t, action))`: the item reducer applied to every
      element, in order. */
  function MapTodo(ts: seq<Item>, a: Action): (r: seq<Item>)
    ensures |r| == |ts|
    ensures forall i :: 0 <= i < |ts| ==> Todo(Some(ts[i]), a) == Some(r[i])
  {
    if ts == [] then []
    else [Todo(Some(ts[0]), a).value] + MapTodo(ts[1..], a)
  }

  /** Next list of items. */
  function Todos(state: seq<Item>, a: Action): (r: seq<Item>)
    ensures a.AddTodo? ==> |r| == |state| + 1
                           && r[..|state|] == state
                           && r[|state|] == Item(a.id, a.text, false)
    ensures a.ToggleTodo? ==> |r| == |state|
    ensures a.ToggleTodo? ==> forall i :: 0 <= i < |state| ==>
              && r[i].id == state[i].id
              && r[i].text == state[i].text
              && (state[i].id != a.id ==> r[i] == state[i])
              && (state[i].id == a.id ==> r[i].completed == !state[i].completed)
    ensures (a.SetVisibilityFilter? || a.Other?) ==> r == state
  {
    match a
    case AddTodo(_, _) => state + [Todo(None, a).value]
    case ToggleTodo(_) => MapTodo(state, a)
    case _ => state
  }

  /** Next visibility filter: the action's filter, stored without validation. */
  function VisibilityFilter(state: string, a: Action): (r: string)
    ensures a.SetVisibilityFilter? ==> r == a.filter
    ensures !a.SetVisibilityFilter? ==> r == state
  {
    match a
    case SetVisibilityFilter(filter) => filter
    case _ => state
  }

  /** The root reducer: each sub-reducer sees only its own field. */
  function TodoApp(s: State, a: Action): (r: State)
    ensures a.SetVisibilityFilter? ==> r == State(s.todos, a.filter)
    ensures (a.AddTodo? || a.ToggleTodo?) ==> r.visibilityFilter == s.visibilityFilter
    ensures a.Other? ==> r == s
  {
    State(Todos(s.todos, a), VisibilityFilter(s.visibilityFilter, a))
  }

  /** The root reducer changes each field exactly as its own sub-reducer does,
      so neither field can influence the other. */
  lemma TodoAppIsFieldwise(s: State, t: State, a: Action)
    ensures TodoApp(s, a).todos == Todos(s.todos, a)
    ensures TodoApp(s, a).visibilityFilter == VisibilityFilter(s.visibilityFilter, a)
    ensures s.todos == t.todos ==> TodoApp(s, a).todos == TodoApp(t, a).todos
    ensures s.visibilityFilter == t.visibilityFilter ==>
              TodoApp(s, a).visibilityFilter == TodoApp(t, a).visibilityFilter
  {
  }

  /** Toggling one item twice with the same id gives back the item. */
  lemma TodoToggleTwice(t: Item, id: string)
    ensures Todo(Todo(Some(t), ToggleTodo(id)), ToggleTodo(id)) == Some(t)
  {
  }

  /** The same toggle applied twice to the list restores it: toggling is an
      involution, whether or not the id is present and however many items
      share it. */
  lemma {:induction false} ToggleInvolution(ts: seq<Item>, id: string)
    ensures Todos(Todos(ts, ToggleTodo(id)), ToggleTodo(id)) == ts
  {
    var once := Todos(ts, ToggleTodo(id));
    var twice := Todos(once, ToggleTodo(id));
    forall i | 0 <= i < |ts|
      ensures twice[i] == ts[i]
    {
      TodoToggleTwice(ts[i], id);
    }
  }

  /** A toggle leaves the ids, and so their uniqueness, as they were. */
  lemma ToggleKeepsIds(ts: seq<Item>, id: string)
    ensures UniqueIds(Todos(ts, ToggleTodo(id))) <==> UniqueIds(ts)
    ensures forall x :: HasId(Todos(ts, ToggleTodo(id)), x) <==> HasId(ts, x)
  {
    var r := Todos(ts, ToggleTodo(id));
    forall x
      ensures HasId(r, x) <==> HasId(ts, x)
    {
      if HasId(r, x) {
        var i :| 0 <= i < |r| && r[i].id == x;
        assert ts[i].id == x;
      }
      if HasId(ts, x) {
        var i :| 0 <= i < |ts| && ts[i].id == x;
        assert r[i].id == x;
      }
    }
  }

  /** An add keeps ids unique exactly when the list had unique ids and the
      new id is not already in it; the reducer itself never checks this. */
  lemma AddUniqueIds(ts: seq<Item>, id: string, text: string)
    ensures UniqueIds(Todos(ts, AddTodo(id, text))) <==> UniqueIds(ts) && !HasId(ts, id)
  {
    var r := Todos(ts, AddTodo(id, text));
    if UniqueIds(r) {
      forall i, j | 0 <= i < j < |ts|
        ensures ts[i].id != ts[j].id
      {
        assert r[i] == ts[i] && r[j] == ts[j];
      }
      forall i | 0 <= i < |ts|
        ensures ts[i].id != id
      {
        assert r[i] == ts[i] && r[|ts|].id == id;
      }
    }
  }

  /** Concretely: adding an id already present yields two items with that id,
      and one toggle then flips both of them. */
  lemma DuplicateIdsBothToggle()
    ensures var s := TodoApp(TodoApp(Initial, AddTodo("a", "x")), AddTodo("a", "y"));
            var t := TodoApp(s, ToggleTodo("a"));
            !UniqueIds(s.todos)
            && t.todos == [Item("a", "x", true), Item("a", "y", true)]
  {
  }
}
