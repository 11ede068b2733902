/** The todo table as a value, and the shapes the API sends. */
module Todos {
  import opened Wrappers

  /** A row of the todo table; `owner` is the id of the AppUser in its `user` relation. */
  datatype Todo = Todo(id: nat, title: string, completed: bool, owner: nat)

  /** A todo as the API returns it: without its `user` relation. */
  datatype TodoDto = TodoDto(id: nat, title: string, completed: bool)

  datatype CreateTodoDto = CreateTodoDto(title: string)

  /** The body of an update: only the fields that are present are assigned. */
  datatype UpdateTodoDto = UpdateTodoDto(title: Option<string>, completed: Option<bool>)

  function ToDto(t: Todo): TodoDto {
    TodoDto(t.id, t.title, t.completed)
  }

  /** `Object.assign(todo, dto)`: each field present in `dto` overwrites the row's; id and
      owner are kept. */
  function Assign(t: Todo, dto: UpdateTodoDto): (r: Todo)
    ensures r.id == t.id && r.owner == t.owner
    ensures r.title == (if dto.title.Some? then dto.title.value else t.title)
    ensures r.completed == (if dto.completed.Some? then dto.completed.value else t.completed)
  {
    var t1 := if dto.title.Some? then t.(title := dto.title.value) else t;
    if dto.completed.Some? then t1.(completed := dto.completed.value) else t1
  }

  /** An update with no fields leaves the row as it was, and applying the same update twice
      is applying it once. */
  lemma AssignIdempotent(t: Todo, dto: UpdateTodoDto)
    ensures Assign(t, UpdateTodoDto(None, None)) == t
    ensures Assign(Assign(t, dto), dto) == Assign(t, dto)
  {
  }

  /** The primary key is unique. */
  ghost predicate UniqueIds(rows: seq<Todo>) {
    forall i, j | 0 <= i < j < |rows| :: rows[i].id != rows[j].id
  }

  /** `where: { id, user: { id: owner } }`. */
  predicate OwnedWithId(t: Todo, id: int, owner: int) {
    t.id == id && t.owner == owner
  }

  /** The position of the first row with that id and owner. */
  function FindOwned(rows: seq<Todo>, id: int, owner: int): (r: Option<nat>)
    ensures r.Some? ==> r.value < |rows| && OwnedWithId(rows[r.value], id, owner)
    ensures r.None? <==> forall j | 0 <= j < |rows| :: !OwnedWithId(rows[j], id, owner)
  {
    if rows == [] then None
    else if OwnedWithId(rows[0], id, owner) then Some(0)
    else match FindOwned(rows[1..], id, owner)
      case None => None
      case Some(i) => Some(i + 1)
  }

  /** `find({ where: { user: { id: owner } } })`: the owner's rows, in table order, without
      their relation. Defined from the last row so that a scan can extend it. */
  function OwnedBy(rows: seq<Todo>, owner: int): seq<TodoDto> {
    if rows == [] then []
    else
      var last := rows[|rows| - 1];
      OwnedBy(rows[..|rows| - 1], owner) + (if last.owner == owner then [ToDto(last)] else [])
  }

  /** findAll returns exactly the owner's todos: every entry is the view of a row the owner
      holds, and every such row is there. */
  lemma {:induction false} OwnedByExactly(rows: seq<Todo>, owner: int, d: TodoDto)
    ensures d in OwnedBy(rows, owner) <==> exists t :: t in rows && t.owner == owner && ToDto(t) == d
  {
    if rows != [] {
      var init, last := rows[..|rows| - 1], rows[|rows| - 1];
      OwnedByExactly(init, owner, d);
      assert rows == init + [last];
      if t :| t in init && t.owner == owner && ToDto(t) == d {
        assert t in rows;
      }
      if t :| t in rows && t.owner == owner && ToDto(t) == d {
        if t != last {
          assert t in init;
        }
      }
    }
  }

  /** No view of another user's todo is ever in an owner's list. */
  lemma OwnedByExcludesOthers(rows: seq<Todo>, owner: int, t: Todo)
    requires UniqueIds(rows)
    requires t in rows && t.owner != owner
    ensures ToDto(t) !in OwnedBy(rows, owner)
  {
    OwnedByExactly(rows, owner, ToDto(t));
  }

  /** The row at `k` removed. */
  function RemoveAt(rows: seq<Todo>, k: nat): (r: seq<Todo>)
    requires k < |rows|
    ensures |r| == |rows| - 1
  {
    rows[..k] + rows[k + 1..]
  }

  /** Removing the row at `k` of a table with unique ids removes exactly the todo with that
      id and keeps every other row. */
  lemma RemoveAtExactly(rows: seq<Todo>, k: nat, t: Todo)
    requires UniqueIds(rows) && k < |rows|
    ensures UniqueIds(RemoveAt(rows, k))
    ensures t in RemoveAt(rows, k) <==> t in rows && t.id != rows[k].id
  {
    var r := RemoveAt(rows, k);
    assert forall j | 0 <= j < |r| :: r[j] == if j < k then rows[j] else rows[j + 1];
    if t in rows && t.id != rows[k].id {
      var j :| 0 <= j < |rows| && rows[j] == t;
      assert j != k;
      if j < k { assert r[j] == t; } else { assert r[j - 1] == t; }
    }
    if t in r {
      var j :| 0 <= j < |r| && r[j] == t;
      if j < k { assert rows[j] == t; } else { assert rows[j + 1] == t; }
    }
  }

  /** Replacing the row at `k` by an assigned copy keeps the ids, hence their uniqueness. */
  lemma AssignAtKeepsIds(rows: seq<Todo>, k: nat, dto: UpdateTodoDto)
    requires UniqueIds(rows) && k < |rows|
    ensures UniqueIds(rows[k := Assign(rows[k], dto)])
  {
  }
}
