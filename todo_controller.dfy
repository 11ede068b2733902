/** TodoController: each handler rejects a request without a user id and otherwise hands
    the id to TodoService, returning what it returns. */
module TodoApi {
  import opened Wrappers
  import opened Errors
  import opened Users
  import opened Todos
  import opened TodoStore
  import opened UserStore

  /** The part of an Express request the handlers read: `request.user`, which the guard sets. */
  datatype Request = Request(user: Option<AppUser>)

  /** `const userId = request.user?.id; if (!userId) throw new UnauthorizedException()`:
      a missing user and the falsy id 0 are both rejected. */
  function UserIdOf(request: Request): (r: Result<nat, Error>)
    ensures r.Success? <==> request.user.Some? && request.user.value.id != 0
    ensures r.Success? ==> r.value == request.user.value.id
    ensures r.Failure? ==> r.error == DefaultUnauthorized
  {
    match request.user
    case Some(u) => if u.id != 0 then Success(u.id) else Failure(DefaultUnauthorized)
    case None => Failure(DefaultUnauthorized)
  }

  class TodoController {
    const todoService: TodoService

    constructor (todoService: TodoService)
      ensures this.todoService == todoService
    {
      this.todoService := todoService;
    }

    /** `GET /todos`. */
    method FindAll(request: Request) returns (r: Reply<seq<TodoDto>>)
      requires todoService.Valid()
      ensures UserIdOf(request).Failure? ==> r == Reply(401, Failure(DefaultUnauthorized))
      ensures UserIdOf(request).Success? ==> r == Reply(OK, Success(OwnedBy(todoService.rows, UserIdOf(request).value)))
    {
      var userId := UserIdOf(request);
      if userId.Failure? {
        return Respond(OK, Failure(userId.error));
      }
      var todos := todoService.FindAll(userId.value);
      return Respond(OK, Success(todos));
    }

    /** `GET /todos/:id`. */
    method FindOne(id: int, request: Request) returns (r: Reply<TodoDto>)
      requires todoService.Valid()
      ensures UserIdOf(request).Failure? ==> r == Reply(401, Failure(DefaultUnauthorized))
      ensures UserIdOf(request).Success? ==>
        r == Respond(OK, FindOneResult(todoService.rows, id, UserIdOf(request).value))
    {
      var userId := UserIdOf(request);
      if userId.Failure? {
        return Respond(OK, Failure(userId.error));
      }
      var todo := todoService.FindOne(id, userId.value);
      return Respond(OK, todo);
    }

    /** `POST /todos`, answered with 201. */
    method Create(dto: CreateTodoDto, request: Request) returns (r: Reply<TodoDto>)
      requires todoService.Valid() && todoService.userService.Valid()
      modifies todoService
      ensures todoService.Valid()
      ensures UserIdOf(request).Failure? ==>
        r == Reply(401, Failure(DefaultUnauthorized)) && todoService.rows == old(todoService.rows)
      ensures UserIdOf(request).Success? ==>
        var uid := UserIdOf(request).value;
        && ((exists u :: u in todoService.userService.rows && u.id == uid) ==>
              && r == Reply(CREATED, Success(TodoDto(old(todoService.nextId), dto.title, false)))
              && todoService.rows == old(todoService.rows) + [Todo(old(todoService.nextId), dto.title, false, uid)]
              && todoService.nextId == old(todoService.nextId) + 1)
        && (!(exists u :: u in todoService.userService.rows && u.id == uid) ==>
              && r == Reply(404, Failure(NotFound(UserNotFoundMessage(uid))))
              && todoService.rows == old(todoService.rows)
              && todoService.nextId == old(todoService.nextId))
    {
      var userId := UserIdOf(request);
      if userId.Failure? {
        return Respond(CREATED, Failure(userId.error));
      }
      var todo := todoService.Create(dto, userId.value);
      return Respond(CREATED, todo);
    }

    /** `PUT /todos/:id`. */
    method Update(id: int, dto: UpdateTodoDto, request: Request) returns (r: Reply<TodoDto>)
      requires todoService.Valid()
      modifies todoService
      ensures todoService.Valid()
      ensures UserIdOf(request).Failure? ==>
        r == Reply(401, Failure(DefaultUnauthorized)) && todoService.rows == old(todoService.rows)
      ensures UserIdOf(request).Success? ==>
        var k := FindOwned(old(todoService.rows), id, UserIdOf(request).value);
        && (k.None? ==> r == Reply(404, Failure(NotFound(TodoNotFoundMessage(id)))) && todoService.rows == old(todoService.rows))
        && (k.Some? ==>
              && todoService.rows == old(todoService.rows)[k.value := Assign(old(todoService.rows)[k.value], dto)]
              && r == Reply(OK, Success(ToDto(todoService.rows[k.value]))))
    {
      var userId := UserIdOf(request);
      if userId.Failure? {
        return Respond(OK, Failure(userId.error));
      }
      var todo := todoService.Update(id, dto, userId.value);
      return Respond(OK, todo);
    }

    /** `DELETE /todos/:id`, answered with 204. */
    method Remove(id: int, request: Request) returns (r: Reply<()>)
      requires todoService.Valid()
      modifies todoService
      ensures todoService.Valid()
      ensures UserIdOf(request).Failure? ==>
        r == Reply(401, Failure(DefaultUnauthorized)) && todoService.rows == old(todoService.rows)
      ensures UserIdOf(request).Success? ==>
        var k := FindOwned(old(todoService.rows), id, UserIdOf(request).value);
        && (k.None? ==> r == Reply(404, Failure(NotFound(TodoNotFoundMessage(id)))) && todoService.rows == old(todoService.rows))
        && (k.Some? ==> r == Reply(NO_CONTENT, Success(())) && todoService.rows == RemoveAt(old(todoService.rows), k.value))
    {
      var userId := UserIdOf(request);
      if userId.Failure? {
        return Respond(NO_CONTENT, Failure(userId.error));
      }
      var result := todoService.Remove(id, userId.value);
      return Respond(NO_CONTENT, result);
    }
  }
}
