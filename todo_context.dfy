/** The client-side todo list and the four operations that keep it in step with the server.
    Each operation is one request through the shared HTTP client; `reply` stands for the
    server's answer, and the list only changes once that answer is a success. */
module TodoContext {
  import opened Wrappers
  import opened JsText
  import opened Todos
  import opened HttpClient

  /** `todos.find(t => t.id === id)`: the first entry with that id. */
  function FindById(todos: seq<TodoDto>, id: int): (r: Option<TodoDto>)
    ensures r.None? <==> forall t | t in todos :: t.id != id
    ensures r.Some? ==> exists i | 0 <= i < |todos| ::
      todos[i] == r.value && r.value.id == id && forall j | 0 <= j < i :: todos[j].id != id
  {
    if |todos| == 0 then None
    else if todos[0].id == id then Some(todos[0])
    else
      var r := FindById(todos[1..], id);
      assert forall t | t in todos[1..] :: t in todos;
      assert r.Some? ==> exists i | 0 <= i < |todos[1..]| ::
        todos[1..][i] == r.value && r.value.id == id && forall j | 0 <= j < i :: todos[1..][j].id != id;
      r
  }

  /** `prev.map(t => t.id === id ? t2 : t)`. */
  function ReplaceById(todos: seq<TodoDto>, id: int, t: TodoDto): (r: seq<TodoDto>)
    ensures |r| == |todos|
    ensures forall i | 0 <= i < |todos| :: r[i] == if todos[i].id == id then t else todos[i]
  {
    if |todos| == 0 then []
    else [if todos[0].id == id then t else todos[0]] + ReplaceById(todos[1..], id, t)
  }

  /** `prev.filter(t => t.id !== id)`. */
  function RemoveById(todos: seq<TodoDto>, id: int): (r: seq<TodoDto>)
    ensures |r| <= |todos|
    ensures forall x :: x in r <==> x in todos && x.id != id
  {
    if |todos| == 0 then []
    else if todos[0].id == id then RemoveById(todos[1..], id)
    else
      assert forall x :: x in todos <==> x == todos[0] || x in todos[1..];
      [todos[0]] + RemoveById(todos[1..], id)
  }

  /** Removing keeps the survivors in their order: it distributes over concatenation. */
  lemma {:induction false} RemoveByIdDistributes(a: seq<TodoDto>, b: seq<TodoDto>, id: int)
    ensures RemoveById(a + b, id) == RemoveById(a, id) + RemoveById(b, id)
  {
    if |a| == 0 {
      assert a + b == b;
    } else {
      assert (a + b)[1..] == a[1..] + b;
      RemoveByIdDistributes(a[1..], b, id);
    }
  }

  /** Removing an id nobody has leaves the list as it was. */
  lemma {:induction false} RemoveByIdAbsent(todos: seq<TodoDto>, id: int)
    requires forall t | t in todos :: t.id != id
    ensures RemoveById(todos, id) == todos
  {
    if |todos| > 0 {
      assert forall t | t in todos[1..] :: t in todos;
      RemoveByIdAbsent(todos[1..], id);
    }
  }

  /** Replacing an id nobody has leaves the list as it was; replacing twice is replacing once. */
  lemma ReplaceByIdAbsent(todos: seq<TodoDto>, id: int, t: TodoDto)
    requires forall x | x in todos :: x.id != id
    ensures ReplaceById(todos, id, t) == todos
  {
  }

  lemma ReplaceByIdIdempotent(todos: seq<TodoDto>, id: int, t: TodoDto)
    ensures ReplaceById(ReplaceById(todos, id, t), id, t) == ReplaceById(todos, id, t)
  {
  }

  /** The body of the toggle request: the todo found, with `completed` flipped. */
  function Toggled(t: TodoDto): (r: TodoDto)
    ensures r.id == t.id && r.title == t.title && r.completed != t.completed
  {
    t.(completed := !t.completed)
  }

  /** A todo as the JSON object the client puts: `{ id, title, completed }`. */
  function TodoJson(t: TodoDto): (b: Payload)
    ensures b.Keys == {"id", "title", "completed"}
    ensures b["id"] == JNumber(t.id) && b["title"] == JString(t.title) && b["completed"] == JBool(t.completed)
  {
    map["id" := JNumber(t.id), "title" := JString(t.title), "completed" := JBool(t.completed)]
  }

  function TodoUrl(id: int): string {
    "/todos/" + IntToString(id)
  }

  class TodoProvider {
    const browser: Browser
    var todos: seq<TodoDto>

    constructor (browser: Browser)
      ensures this.browser == browser && todos == []
    {
      this.browser := browser;
      todos := [];
    }

    /** The mount effect: GET /todos and take the answer as the whole list. */
    method FetchTodos(reply: Result<seq<TodoDto>, HttpError>) returns (sent: RequestConfig, r: Result<(), HttpError>)
      modifies this, browser
      ensures sent == RequestConfig("/todos", WithBearer(map[], old(browser.token)), None)
      ensures reply.Success? ==> r.Success? && todos == reply.value
      ensures reply.Failure? ==> r == Failure(reply.error) && todos == old(todos)
      ensures SessionExpired(reply) ==> browser.token == None && browser.href == "/login"
      ensures !SessionExpired(reply) ==> browser.token == old(browser.token) && browser.href == old(browser.href)
    {
      var answer;
      sent, answer := Send(browser, RequestConfig("/todos", map[], None), reply);
      match answer {
        case Success(data) =>
          todos := data;
          r := Success(());
        case Failure(e) =>
          r := Failure(e);
      }
    }

    /** POST /todos with `{ title }`; the created todo goes to the end of the list. */
    method AddTodo(title: string, reply: Result<TodoDto, HttpError>) returns (sent: RequestConfig, r: Result<(), HttpError>)
      modifies this, browser
      ensures sent == RequestConfig("/todos", WithBearer(map[], old(browser.token)), Some(map["title" := JString(title)]))
      ensures reply.Success? ==> r.Success? && todos == old(todos) + [reply.value]
      ensures reply.Failure? ==> r == Failure(reply.error) && todos == old(todos)
      ensures SessionExpired(reply) ==> browser.token == None && browser.href == "/login"
      ensures !SessionExpired(reply) ==> browser.token == old(browser.token) && browser.href == old(browser.href)
    {
      var answer;
      sent, answer := Send(browser, RequestConfig("/todos", map[], Some(map["title" := JString(title)])), reply);
      match answer {
        case Success(data) =>
          todos := todos + [data];
          r := Success(());
        case Failure(e) =>
          r := Failure(e);
      }
    }

    /** With no todo of that id nothing is sent and nothing changes. Otherwise PUT /todos/:id
        with the todo found, `completed` flipped, and put the answer in place of every entry with
        that id. */
    method ToggleTodo(id: int, reply: Result<TodoDto, HttpError>)
      returns (sent: Option<RequestConfig>, r: Result<(), HttpError>)
      modifies this, browser
      ensures FindById(old(todos), id).None? ==>
        sent == None && r.Success? && todos == old(todos)
        && browser.token == old(browser.token) && browser.href == old(browser.href)
      ensures FindById(old(todos), id).Some? ==>
        && sent == Some(RequestConfig(TodoUrl(id), WithBearer(map[], old(browser.token)),
                                      Some(TodoJson(Toggled(FindById(old(todos), id).value)))))
        && (reply.Success? ==> r.Success? && todos == ReplaceById(old(todos), id, reply.value))
        && (reply.Failure? ==> r == Failure(reply.error) && todos == old(todos))
        && (SessionExpired(reply) ==> browser.token == None && browser.href == "/login")
        && (!SessionExpired(reply) ==> browser.token == old(browser.token) && browser.href == old(browser.href))
    {
      var found := FindById(todos, id);
      match found {
        case None =>
          sent := None;
          r := Success(());
        case Some(todo) =>
          var config, answer := Send(browser, RequestConfig(TodoUrl(id), map[], Some(TodoJson(Toggled(todo)))), reply);
          sent := Some(config);
          match answer {
            case Success(data) =>
              todos := ReplaceById(todos, id, data);
              r := Success(());
            case Failure(e) =>
              r := Failure(e);
          }
      }
    }

    /** DELETE /todos/:id; on success every entry with that id leaves the list. */
    method DeleteTodo(id: int, reply: Result<(), HttpError>) returns (sent: RequestConfig, r: Result<(), HttpError>)
      modifies this, browser
      ensures sent == RequestConfig(TodoUrl(id), WithBearer(map[], old(browser.token)), None)
      ensures reply.Success? ==> r.Success? && todos == RemoveById(old(todos), id)
      ensures reply.Failure? ==> r == Failure(reply.error) && todos == old(todos)
      ensures SessionExpired(reply) ==> browser.token == None && browser.href == "/login"
      ensures !SessionExpired(reply) ==> browser.token == old(browser.token) && browser.href == old(browser.href)
    {
      var answer;
      sent, answer := Send(browser, RequestConfig(TodoUrl(id), map[], None), reply);
      match answer {
        case Success(_) =>
          todos := RemoveById(todos, id);
          r := Success(());
        case Failure(e) =>
          r := Failure(e);
      }
    }
  }
}
