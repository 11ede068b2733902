/** TodoService over the todo repository: every read and write goes through a lookup
    filtered by the owning user. */
module TodoStore {
  import opened Wrappers
  import opened Errors
  import opened JsText
  import opened Users
  import opened Todos
  import opened UserStore

  function TodoNotFoundMessage(id: int): string {
    "Todo with ID " + IntToString(id) + " not found"
  }

  /** What findOne answers for a table. */
  function FindOneResult(rows: seq<Todo>, id: int, userId: int): Result<TodoDto, Error> {
    match FindOwned(rows, id, userId)
    case Some(k) => Success(ToDto(rows[k]))
    case None => Failure(NotFound(TodoNotFoundMessage(id)))
  }

  class TodoService {
    var rows: seq<Todo>
    var nextId: nat
    const userService: UserService

    ghost predicate Valid()
      reads this
    {
      && UniqueIds(rows)
      && 1 <= nextId
      && (forall i | 0 <= i < |rows| :: 1 <= rows[i].id < nextId)
    }

    constructor (userService: UserService)
      ensures Valid() && rows == [] && this.userService == userService
    {
      rows := [];
      nextId := 1;
      this.userService := userService;
    }

    /** `findAll(userId)`. */
    method FindAll(userId: int) returns (r: seq<TodoDto>)
      ensures r == OwnedBy(rows, userId)
    {
      r := [];
      var i := 0;
      while i < |rows|
        invariant 0 <= i <= |rows|
        invariant r == OwnedBy(rows[..i], userId)
      {
        assert rows[..i + 1][..i] == rows[..i];
        if rows[i].owner == userId {
          r := r + [ToDto(rows[i])];
        }
        i := i + 1;
      }
      assert rows[..i] == rows;
    }

    /** The position of the row with that id owned by `userId`. */
    method Locate(id: int, userId: int) returns (k: Option<nat>)
      ensures k == FindOwned(rows, id, userId)
    {
      var i := 0;
      while i < |rows|
        invariant 0 <= i <= |rows|
        invariant forall j | 0 <= j < i :: !OwnedWithId(rows[j], id, userId)
      {
        if OwnedWithId(rows[i], id, userId) {
          FirstOwned(rows, i, id, userId);
          return Some(i);
        }
        i := i + 1;
      }
      return None;
    }

    /** `findOne(id, userId)`: the todo if it exists and `userId` owns it, else NotFound. */
    method FindOne(id: int, userId: int) returns (r: Result<TodoDto, Error>)
      requires Valid()
      ensures r == FindOneResult(rows, id, userId)
      ensures r.Success? <==> exists t :: t in rows && t.id == id && t.owner == userId
    {
      var k := Locate(id, userId);
      r := if k.Some? then Success(ToDto(rows[k.value])) else Failure(NotFound(TodoNotFoundMessage(id)));
    }

    /** `create(dto, userId)`: NotFound, and nothing stored, when no user has that id;
        otherwise one new row owned by `userId`, not completed, returned without its user. */
    method Create(dto: CreateTodoDto, userId: int) returns (r: Result<TodoDto, Error>)
      requires Valid() && userService.Valid()
      modifies this
      ensures Valid()
      ensures (exists u :: u in userService.rows && u.id == userId) ==>
        var t := Todo(old(nextId), dto.title, false, userId as nat);
        && userId >= 0
        && rows == old(rows) + [t]
        && nextId == old(nextId) + 1
        && r == Success(ToDto(t))
      ensures !(exists u :: u in userService.rows && u.id == userId) ==>
        r == Failure(NotFound(UserNotFoundMessage(userId))) && rows == old(rows) && nextId == old(nextId)
    {
      var user := userService.FindOneById(userId);
      if user.Failure? {
        return Failure(user.error);
      }
      var todo := Todo(nextId, dto.title, false, user.value.id);
      rows := rows + [todo];
      nextId := nextId + 1;
      r := Success(ToDto(todo));
    }

    /** `update(id, dto, userId)`: NotFound, and nothing written, unless `userId` owns the
        todo; otherwise that one row takes the fields present in `dto`. */
    method Update(id: int, dto: UpdateTodoDto, userId: int) returns (r: Result<TodoDto, Error>)
      requires Valid()
      modifies this
      ensures Valid() && nextId == old(nextId)
      ensures FindOwned(old(rows), id, userId).None? ==>
        r == Failure(NotFound(TodoNotFoundMessage(id))) && rows == old(rows)
      ensures FindOwned(old(rows), id, userId).Some? ==>
        var k := FindOwned(old(rows), id, userId).value;
        && rows == old(rows)[k := Assign(old(rows)[k], dto)]
        && r == Success(ToDto(rows[k]))
    {
      var k := Locate(id, userId);
      if k.None? {
        return Failure(NotFound(TodoNotFoundMessage(id)));
      }
      var updatedTodo := Assign(rows[k.value], dto);
      AssignAtKeepsIds(rows, k.value, dto);
      rows := rows[k.value := updatedTodo];
      r := Success(ToDto(updatedTodo));
    }

    /** `remove(id, userId)`: NotFound, and nothing deleted, unless `userId` owns the todo;
        otherwise exactly that row is deleted. */
    method Remove(id: int, userId: int) returns (r: Result<(), Error>)
      requires Valid()
      modifies this
      ensures Valid() && nextId == old(nextId)
      ensures FindOwned(old(rows), id, userId).None? ==>
        r == Failure(NotFound(TodoNotFoundMessage(id))) && rows == old(rows)
      ensures FindOwned(old(rows), id, userId).Some? ==>
        r == Success(()) && rows == RemoveAt(old(rows), FindOwned(old(rows), id, userId).value)
    {
      var k := Locate(id, userId);
      if k.None? {
        return Failure(NotFound(TodoNotFoundMessage(id)));
      }
      RemoveAtExactly(rows, k.value, rows[k.value]);
      forall t | t in RemoveAt(rows, k.value) ensures t in rows {
        RemoveAtExactly(rows, k.value, t);
      }
      rows := RemoveAt(rows, k.value);
      r := Success(());
    }
  }

  /** A row that matches, with none before it, is the one FindOwned reports. */
  lemma FirstOwned(rows: seq<Todo>, i: nat, id: int, userId: int)
    requires i < |rows| && OwnedWithId(rows[i], id, userId)
    requires forall j | 0 <= j < i :: !OwnedWithId(rows[j], id, userId)
    ensures FindOwned(rows, id, userId) == Some(i)
  {
    if i > 0 {
      FirstOwned(rows[1..], i - 1, id, userId);
    }
  }

  /** Whatever `userId` updates or removes, a todo another user owns stays in the table
      unchanged. */
  lemma OthersTodosSurvive(rows: seq<Todo>, id: int, userId: int, dto: UpdateTodoDto, t: Todo)
    requires UniqueIds(rows) && t in rows && t.owner != userId
    ensures FindOwned(rows, id, userId).Some? ==>
      var k := FindOwned(rows, id, userId).value;
      t in rows[k := Assign(rows[k], dto)] && t in RemoveAt(rows, k)
  {
    if FindOwned(rows, id, userId).Some? {
      var k := FindOwned(rows, id, userId).value;
      var j :| 0 <= j < |rows| && rows[j] == t;
      assert j != k;
      assert rows[k := Assign(rows[k], dto)][j] == t;
      if j < k { assert rows[j].id != rows[k].id; } else { assert rows[k].id != rows[j].id; }
      RemoveAtExactly(rows, k, t);
    }
  }
}
