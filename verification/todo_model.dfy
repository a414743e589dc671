/** The data of the todo application: items, actions and the combined state. */
module TodoModel {

  /** A value that may be absent; `None` stands for JavaScript's `undefined`. */
  datatype Option<+T> = None | Some(value: T)

  /** One todo item. Ids are opaque strings chosen by whoever dispatches the add. */
  datatype Item = Item(id: string, text: string, completed: bool)

  /** The actions the reducers react to. `Other` is any action whose type tag
      is none of `ADD_TODO`, `TOGGLE_TODO` and `SET_VISIBILITY_FILTER`. */
  datatype Action =
    | AddTodo(id: string, text: string)
    | ToggleTodo(id: string)
    | SetVisibilityFilter(filter: string)
    | Other

  /** The visibility filter is kept as a plain string: nothing validates it. */
  const ShowAll: string := "SHOW_ALL"
  const ShowCompleted: string := "SHOW_COMPLETED"
  const ShowActive: string := "SHOW_ACTIVE"

  /** The combined state: one field per sub-reducer. */
  datatype State = State(todos: seq<Item>, visibilityFilter: string)

  /** The state both sub-reducers produce from `undefined`. */
  const Initial: State := State([], ShowAll)

  /** No two items of the list share an id. The reducers do not maintain this. */
  ghost predicate UniqueIds(ts: seq<Item>) {
    forall i, j :: 0 <= i < j < |ts| ==> ts[i].id != ts[j].id
  }

  /** Some item of the list carries id `id`. */
  ghost predicate HasId(ts: seq<Item>, id: string) {
    exists i :: 0 <= i < |ts| && ts[i].id == id
  }
}
