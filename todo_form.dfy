/** The form that adds a todo: a text input and a submit handler that ignores blank input. */
module TodoForm {
  import opened Wrappers
  import opened JsText
  import opened Todos
  import opened HttpClient
  import opened TodoContext

  class TodoForm {
    const context: TodoProvider
    var newTodo: string

    constructor (context: TodoProvider)
      ensures this.context == context && newTodo == ""
    {
      this.context := context;
      newTodo := "";
    }

    method HandleChange(value: string)
      modifies this
      ensures newTodo == value
    {
      newTodo := value;
    }

    /** Blank input (empty or whitespace only) sends nothing and changes nothing. Otherwise the
        text is posted as typed, untrimmed; the input is cleared only once the add succeeded, and
        a rejected add keeps the text and the list. */
    method HandleSubmit(reply: Result<TodoDto, HttpError>) returns (sent: Option<RequestConfig>, r: Result<(), HttpError>)
      modifies this, context, context.browser
      ensures Blank(old(newTodo)) ==>
        sent == None && r.Success? && newTodo == old(newTodo) && context.todos == old(context.todos)
        && context.browser.token == old(context.browser.token) && context.browser.href == old(context.browser.href)
      ensures !Blank(old(newTodo)) ==>
        && sent == Some(RequestConfig("/todos", WithBearer(map[], old(context.browser.token)),
                                      Some(map["title" := JString(old(newTodo))])))
        && (reply.Success? ==> r.Success? && newTodo == "" && context.todos == old(context.todos) + [reply.value])
        && (reply.Failure? ==> r == Failure(reply.error) && newTodo == old(newTodo) && context.todos == old(context.todos))
        && (SessionExpired(reply) ==> context.browser.token == None && context.browser.href == "/login")
        && (!SessionExpired(reply) ==>
              context.browser.token == old(context.browser.token) && context.browser.href == old(context.browser.href))
    {
      TrimEmptyIffBlank(newTodo);
      if Trim(newTodo) == "" {
        sent := None;
        r := Success(());
        return;
      }
      var config;
      config, r := context.AddTodo(newTodo, reply);
      sent := Some(config);
      if r.Success? {
        newTodo := "";
      }
    }
  }
}
