# Todo app: the auth and todo services and their web client, in Dafny

This project models the core of a small todo application. One part is a NestJS backend: an
`AuthService` that signs users up, logs them in and rotates refresh tokens over a `UserService`
store, a `TodoService` that keeps todos per owning user, and the two controllers that expose
them. The other part is a React client: the axios instance with its bearer-token and 401
interceptors, the `AuthContext` and `TodoContext` providers, the sign-up and sign-in pages,
and the form that adds a todo.

Layout, one module per source file plus shared value types:

- `Wrappers` and `Errors`: `Option`, `Result`, the Nest exceptions and the status they answer with.
- `JsText`: JavaScript's whitespace set, `trim`, truthiness and number-to-string.
- `Users` and `Todos`: the two tables as values, their lookups and updates.
- `UserStore`, `Auth`, `TodoStore`, `TodoApi`, `AuthApi`, `Jwt`: the backend classes.
- `HttpClient`, `AuthContext`, `TodoContext`, `Email`, `SignupPage`, `LoginPage`, `TodoForm`: the client.

Repository tables are `seq` fields of the service classes, changed in place by methods. The
methods are proved against pure specification functions (`Users.Find`, `Users.WithRefreshToken`,
`Todos.FindOwned`, `Todos.OwnedBy`, `Todos.RemoveAt`), and the properties are proved about
those functions as lemmas.

bcrypt is an uninterpreted function `hash`: `compare(p, h)` holds exactly when `h == hash(p)`.
JWT signing is an uninterpreted `signer` over the payload, the expiry option and a counter of
tokens issued so far. On the client, the server's answer to each request is a parameter of the
method that sends it. Local storage and `window.location` are fields of a `Browser` object.

The 401 interceptor in `todo-frontend/src/lib/axios.ts:27-34` removes the token, sends the page
to /login and rejects the error unchanged. Every request is dispatched once, with the body the
caller passed (`HttpClient.RequestConfig.body`).

`UserService` in `todo-backend/src/user/user.service.ts` only shows `findOne` and `create`. The
store operations its callers use (`findOneByEmail`, `findOneById`, `findByRefreshToken`,
`updateRefreshToken`, `clearRefreshToken`) are modelled from those call sites and from
`users.service.spec.ts`. The `refreshToken` column they read and write is a model field.

## Model

| member | source | states |
|---|---|---|
| Errors.Status | todo-backend/src/auth/auth.service.ts:40 | each exception has one status: 401 exactly for Unauthorized, 409 exactly for Conflict, 404 exactly for NotFound |
| Errors.Respond | todo-backend/src/todo/todo.controller.ts:29 | a handler's reply carries its body unchanged; success takes the route's status, failure the exception's |
| JsText.TrimStart | todo-frontend/src/components/TodoForm.tsx:10 | the result is a suffix of the input, starts with no whitespace, and only whitespace was cut |
| JsText.TrimEnd | todo-frontend/src/components/TodoForm.tsx:10 | the result is a prefix of the input, ends with no whitespace, and only whitespace was cut |
| JsText.TrimEmptyIffBlank | todo-frontend/src/components/TodoForm.tsx:10 | `s.trim()` is empty (falsy) exactly when every character of `s` is whitespace |
| JsText.NatToString | todo-backend/src/todo/todo.service.ts:27 | the decimal rendering of a number in an error message: decimal digits only, a leading '0' exactly for 0, one digit exactly below 10 |
| JsText.ParseNatToString | todo-backend/src/todo/todo.service.ts:27 | reading the rendering back as a decimal numeral gives the number, so distinct ids give distinct messages |
| Users.PasswordStripRoundTrip | todo-backend/src/auth/auth.service.ts:26 | removing the password keeps every other field: putting it back gives the original record |
| Users.Find | todo-backend/src/user/user.service.ts:14-16 | the position found is the first row matching the key; nothing found exactly when no row matches |
| Users.LookupSpec | todo-backend/src/user/users.service.spec.ts:56-76 | a lookup finds a row exactly when a matching row exists, and what it finds matches |
| Users.LookupUnique | todo-backend/src/user/app-user.entity.ts:6 | with unique ids and emails, the row found by email or id is the only one with it |
| Users.WithRefreshToken | todo-backend/src/user/users.service.spec.ts:118-142 | the rows with that id get the new token; ids, emails, passwords and other rows are unchanged |
| Users.WithRefreshTokenKeepsKeys | todo-backend/src/user/app-user.entity.ts:6 | a token update keeps ids and emails unique |
| Users.WithRefreshTokenIdempotent | todo-backend/src/auth/auth.service.ts:100-103 | setting the same token twice is setting it once, so logout is idempotent |
| Users.WithRefreshTokenKeepsIdentity | todo-backend/src/auth/auth.service.ts:54 | lookups by email or id find the same row before and after a token update |
| Users.IssuedTokenMatches | todo-backend/src/auth/auth.service.ts:54 | after a user is given a token, a lookup by that token finds a row at or before that user |
| Users.RotationRevokes | todo-backend/src/auth/auth.service.ts:90-97 | once the only holder of a token gets a different one, the old token matches no row |
| Users.AppendKeepsKeys | todo-backend/src/user/app-user.entity.ts:6 | appending a row with a new id and email keeps the keys unique |
| Users.WithRefreshTokenOnAppended | todo-backend/src/auth/auth.service.ts:74-77 | giving a token to the row just created changes no earlier row |
| UserStore.UserService.constructor | todo-backend/src/user/user.service.ts:8-12 | the store starts empty, with the first identity value 1 |
| UserStore.UserService.Scan | todo-backend/src/user/user.service.ts:15 | the scan returns the first row matching the key, as `Users.Find` defines it |
| UserStore.UserService.FindOne | todo-backend/src/user/user.service.ts:14-16 | the user with that email when one exists, undefined exactly when none does |
| UserStore.UserService.FindOneByEmail | todo-backend/src/auth/auth.service.ts:21 | the same query under the callers' name: found exactly when a user has that email |
| UserStore.UserService.FindOneById | todo-backend/src/user/users.service.spec.ts:35-53 | the user with that id when one exists; NotFound exactly when none does |
| UserStore.UserService.FindByRefreshToken | todo-backend/src/user/users.service.spec.ts:94-115 | a user whose stored refresh token equals the one given, undefined exactly when none holds it |
| UserStore.UserService.Insert | todo-backend/src/user/user.service.ts:20-24 | a taken email fails the save and stores nothing; otherwise exactly one new row is appended with the next id, and keys stay unique |
| UserStore.UserService.CreateAsWritten | todo-backend/src/user/user.service.ts:18-25 | create as written: the stored password is `hash` of the one passed in; exactly one row, unique emails |
| UserStore.UserService.Create | todo-backend/src/user/user.service.ts:18-25 | create with the password stored as the caller hashed it; exactly one row, unique emails |
| UserStore.UserService.SetRefreshToken | todo-backend/src/user/users.service.spec.ts:118-142 | the loop leaves the table equal to `WithRefreshToken` of the old one, keys unique |
| UserStore.UserService.UpdateRefreshToken | todo-backend/src/user/users.service.spec.ts:118-130 | only that user's refresh token becomes the new one |
| UserStore.UserService.ClearRefreshToken | todo-backend/src/user/users.service.spec.ts:132-142 | only that user's refresh token becomes null |
| Jwt.JwtService.Sign | todo-backend/src/auth/auth.service.ts:44-51 | the token is the signer's output for this payload and expiry, and each signing counts one more token |
| Auth.AuthenticateSpec | todo-backend/src/auth/auth.service.ts:19-31 | validateUser accepts exactly the pairs a row holds with that email and `hash(pass)`, and returns that row without its password |
| Auth.DigestOfDigestRejected | todo-backend/src/user/user.service.ts:19 | for an injective hash that moves the password, the digest of a digest is not the digest |
| Auth.NewUserAuthenticates | todo-backend/src/auth/auth.service.ts:73-77 | a row just created under a new email is the one login finds, and it checks out exactly when its digest is `hash(pass)` |
| Auth.AuthService.ValidateUser | todo-backend/src/auth/auth.service.ts:19-31 | the result is `Authenticate` of the current table |
| Auth.AuthService.Login | todo-backend/src/auth/auth.service.ts:33-60 | bad credentials raise Unauthorized and store or sign nothing; otherwise a 1h and a 30d token over `{userId}`, the second stored as that user's only change |
| Auth.AuthService.Signup | todo-backend/src/auth/auth.service.ts:62-78 | a taken email raises Conflict and creates, signs and counts nothing; otherwise the pair login signs for the new id, and exactly one new user with `hash(password)` and that pair's refresh token |
| Auth.AuthService.SignupAsWritten | todo-backend/src/auth/auth.service.ts:62-78 | as written: a taken email raises Conflict and changes nothing; otherwise the user is created with `hash(hash(password))` under the next id, and the call returns login's pair for it, with its refresh token stored, when that equals `hash(password)`, and Unauthorized with nothing signed or stored otherwise |
| Auth.AuthService.RefreshToken | todo-backend/src/auth/auth.service.ts:80-98 | an unknown token raises Unauthorized('Invalid refresh token') and changes nothing; otherwise a default-expiry and a 30d token over `{email}`, the second replacing the holder's |
| Auth.AuthService.Logout | todo-backend/src/auth/auth.service.ts:100-103 | that user's refresh token is cleared and nothing else changes |
| Todos.Assign | todo-backend/src/todo/todo.service.ts:52 | `Object.assign`: each field present in the dto overwrites the todo's; id and owner are kept |
| Todos.AssignIdempotent | todo-backend/src/todo/todo.service.ts:52 | an empty update changes nothing; the same update twice is the update once |
| Todos.FindOwned | todo-backend/src/todo/todo.service.ts:23-25 | the row found has that id and that owner; nothing found exactly when no row has both |
| Todos.OwnedByExactly | todo-backend/src/todo/todo.service.ts:18-20 | findAll lists exactly the views of the rows the user owns |
| Todos.OwnedByExcludesOthers | todo-backend/src/todo/todo.service.ts:18-20 | another user's todo never appears in an owner's list |
| Todos.RemoveAt | todo-backend/src/todo/todo.service.ts:58 | removing one row shortens the table by one |
| Todos.RemoveAtExactly | todo-backend/src/todo/todo.service.ts:56-59 | removal deletes exactly the todo with that id, keeps every other row and keeps ids unique |
| Todos.AssignAtKeepsIds | todo-backend/src/todo/todo.service.ts:52-53 | saving an assigned todo in place keeps ids unique |
| TodoStore.TodoService.constructor | todo-backend/src/todo/todo.service.ts:12-16 | the table starts empty |
| TodoStore.TodoService.FindAll | todo-backend/src/todo/todo.service.ts:18-20 | the loop returns `OwnedBy` of the table: the owner's todos in table order |
| TodoStore.TodoService.Locate | todo-backend/src/todo/todo.service.ts:23-25 | the loop returns the first row with that id and owner |
| TodoStore.TodoService.FindOne | todo-backend/src/todo/todo.service.ts:22-30 | the todo exactly when that user owns a todo with that id; NotFound('Todo with ID … not found') otherwise, also when another user owns it |
| TodoStore.TodoService.Create | todo-backend/src/todo/todo.service.ts:32-44 | an unknown user raises NotFound and stores nothing; otherwise one new row owned by that user, titled from the dto, not completed, returned without its user |
| TodoStore.TodoService.Update | todo-backend/src/todo/todo.service.ts:46-54 | a todo the user does not own raises NotFound and writes nothing; otherwise only that row takes the dto's present fields |
| TodoStore.TodoService.Remove | todo-backend/src/todo/todo.service.ts:56-59 | a todo the user does not own raises NotFound and deletes nothing; otherwise exactly that row is deleted |
| TodoStore.FirstOwned | todo-backend/src/todo/todo.service.ts:23-25 | a matching row with no match before it is the one the lookup reports |
| TodoStore.OthersTodosSurvive | todo-backend/src/todo/todo.service.spec.ts:108-154 | whatever one user updates or removes, another user's todo stays in the table unchanged |
| TodoApi.UserIdOf | todo-backend/src/todo/todo.controller.ts:31-34 | a request passes exactly when it has a user with a non-zero id, which it then yields; otherwise Unauthorized |
| TodoApi.TodoController.FindAll | todo-backend/src/todo/todo.controller.ts:28-36 | no user id: 401; otherwise 200 with the service's list for that id |
| TodoApi.TodoController.FindOne | todo-backend/src/todo/todo.controller.ts:38-49 | no user id: 401; otherwise the service's answer for that id, 200 or 404 |
| TodoApi.TodoController.Create | todo-backend/src/todo/todo.controller.ts:51-62 | no user id: 401 and nothing stored; for an existing user, 201 with the todo under the next id, titled from the dto and not completed, appended as that user's; for an unknown user, 404 'User with ID … not found' and nothing stored |
| TodoApi.TodoController.Update | todo-backend/src/todo/todo.controller.ts:64-76 | no user id: 401 and nothing written; otherwise the service's update, 200 or 404 |
| TodoApi.TodoController.Remove | todo-backend/src/todo/todo.controller.ts:78-89 | no user id: 401 and nothing deleted; otherwise 204 with the row gone, or 404 |
| AuthApi.LoginOutcome | todo-backend/src/auth/auth.controller.ts:19-23 | a success passes through unchanged; any failure becomes a plain Unauthorized |
| AuthApi.LoginFailureIs401 | todo-backend/src/auth/auth.controller.ts:17-24 | a login answers 201 on success and 401 on any failure, and mapping twice is mapping once |
| AuthApi.VerifyToken | todo-backend/src/auth/auth.controller.ts:36-42 | the answer is the request's user without its password: putting the password back gives that user |
| AuthApi.LogoutOutcome | todo-backend/src/auth/auth.controller.ts:47-49 | the message 'Logged out successfully' exactly when the service succeeded; its error otherwise |
| AuthApi.AuthController.Login | todo-backend/src/auth/auth.controller.ts:17-24 | failing credentials: 401 with the table unchanged; otherwise 201 with the 1h and 30d tokens over `{userId}`, the refresh token stored |
| AuthApi.AuthController.Signup | todo-backend/src/auth/auth.controller.ts:26-29 | as written: a taken email is answered 409 with nothing created; otherwise the user is created with `hash(hash(password))`, and the answer is 201 with login's pair only when that equals `hash(password)`, else 401 with no refresh token stored |
| AuthApi.AuthController.SignupCorrected | todo-backend/src/auth/auth.controller.ts:26-29 | over the corrected service signup: 409 for a taken email with nothing created; otherwise 201 with the new id's pair and exactly one new user holding `hash(password)` |
| AuthApi.AuthController.RefreshToken | todo-backend/src/auth/auth.controller.ts:31-34 | an unknown token is answered 401 and changes nothing; otherwise 201 with the default-expiry and 30d tokens over the holder's `{email}`, the refresh token replacing the holder's |
| AuthApi.AuthController.Logout | todo-backend/src/auth/auth.controller.ts:44-50 | the caller's refresh token is cleared and the answer is 201 with 'Logged out successfully' |
| HttpClient.Browser.constructor | todo-frontend/src/lib/axios.ts:11 | the browser starts with the given stored token and location |
| HttpClient.WithBearer | todo-frontend/src/lib/axios.ts:11-15 | with a truthy token, Authorization is 'Bearer ' + token; without one the headers are untouched; no other header changes |
| HttpClient.WithBearerIdempotent | todo-frontend/src/lib/axios.ts:12-14 | attaching the same token twice is attaching it once |
| HttpClient.OnRequest | todo-frontend/src/lib/axios.ts:9-20 | the request goes out with the bearer rule applied and its url and body kept |
| HttpClient.OnResponseError | todo-frontend/src/lib/axios.ts:27-34 | a 401 removes the token and goes to /login; any other error leaves both; the error is rejected unchanged |
| HttpClient.Send | todo-frontend/src/lib/axios.ts:9-35 | one dispatch of the caller's url and body with the interceptor's headers; successes pass through, errors are rejected as they came, only a 401 changes the session |
| AuthContext.Field | todo-frontend/src/contexts/AuthContext.tsx:52 | a field read is present exactly when the body has it, and then it is the body's value |
| AuthContext.TokenPairBody | todo-backend/src/auth/auth.service.ts:56-59 | the server's body has exactly the fields `accessToken` and `refreshToken` |
| AuthContext.StoredTokenIsUndefined | todo-frontend/src/contexts/AuthContext.tsx:52 | as written, the token stored from any server token pair is the string "undefined" |
| AuthContext.CorrectedStoresAccessToken | todo-backend/src/auth/auth.service.ts:56-59 | reading `accessToken` stores the access token the server signed |
| AuthContext.AuthProvider.constructor | todo-frontend/src/contexts/AuthContext.tsx:27 | the provider starts with no user |
| AuthContext.Credentials | todo-frontend/src/contexts/AuthContext.tsx:51 | the posted body has exactly the fields `email` and `password`, holding the inputs |
| AuthContext.AuthProvider.VerifyToken | todo-frontend/src/contexts/AuthContext.tsx:29-48 | no token: no request and no change; with one: a bodiless GET /auth/verify-token with it as bearer, success sets the user to the answer, failure removes the token and leaves the user, and a 401 also goes to /login |
| AuthContext.AuthProvider.PostCredentials | todo-frontend/src/contexts/AuthContext.tsx:50-60 | posts `{email, password}` to the url; success stores the named field's value as the token and sets `{email}`; a failure leaves the user, and the token except on 401, which also goes to /login; success keeps the location; a 401 failure removes the token and goes to /login, any other failure keeps both |
| AuthContext.AuthProvider.Login | todo-frontend/src/contexts/AuthContext.tsx:50-54 | as written: posts `{email, password}` to /auth/login; on success the token stored is `String(data.access_token)`, which is "undefined" for any server token pair, and the user `{email}`; a failure leaves the user; success keeps the location; a 401 failure removes the token and goes to /login, any other failure keeps both |
| AuthContext.AuthProvider.Signup | todo-frontend/src/contexts/AuthContext.tsx:56-60 | as written: posts `{email, password}` to /auth/signup; on success the token stored is `String(data.access_token)`, which is "undefined" for any server token pair, and the user `{email}`; a failure leaves the user; success keeps the location; a 401 failure removes the token and goes to /login, any other failure keeps both |
| AuthContext.AuthProvider.LoginCorrected | todo-frontend/src/contexts/AuthContext.tsx:50-54 | posts `{email, password}` to /auth/login; a server token pair leaves its access token stored and the user `{email}`; a failure leaves the user; success keeps the location; a 401 failure removes the token and goes to /login, any other failure keeps both |
| AuthContext.AuthProvider.SignupCorrected | todo-frontend/src/contexts/AuthContext.tsx:56-60 | posts `{email, password}` to /auth/signup; a server token pair leaves its access token stored and the user `{email}`; a failure leaves the user; success keeps the location; a 401 failure removes the token and goes to /login, any other failure keeps both |
| AuthContext.AuthProvider.Logout | todo-frontend/src/contexts/AuthContext.tsx:62-65 | the token is removed and the user is null |
| TodoContext.FindById | todo-frontend/src/contexts/TodoContext.tsx:47 | the first entry with that id; nothing exactly when no entry has it |
| TodoContext.ReplaceById | todo-frontend/src/contexts/TodoContext.tsx:53-55 | the length is kept; each entry with that id becomes the answer and every other entry stays |
| TodoContext.RemoveById | todo-frontend/src/contexts/TodoContext.tsx:63 | an entry survives exactly when it was there and has another id |
| TodoContext.RemoveByIdDistributes | todo-frontend/src/contexts/TodoContext.tsx:63 | removal distributes over concatenation, so survivors keep their order |
| TodoContext.RemoveByIdAbsent | todo-frontend/src/contexts/TodoContext.tsx:63 | removing an id no entry has leaves the list as it was |
| TodoContext.ReplaceByIdAbsent | todo-frontend/src/contexts/TodoContext.tsx:53-55 | replacing an id no entry has leaves the list as it was |
| TodoContext.ReplaceByIdIdempotent | todo-frontend/src/contexts/TodoContext.tsx:53-55 | replacing with the same todo twice is replacing once |
| TodoContext.Toggled | todo-frontend/src/contexts/TodoContext.tsx:49-52 | the request body is the todo with the same id and title and `completed` flipped |
| TodoContext.TodoJson | todo-frontend/src/contexts/TodoContext.tsx:49-52 | a todo sent as JSON has exactly the fields `id`, `title` and `completed`, holding its values |
| TodoContext.TodoProvider.constructor | todo-frontend/src/contexts/TodoContext.tsx:29 | the list starts empty |
| TodoContext.TodoProvider.FetchTodos | todo-frontend/src/contexts/TodoContext.tsx:31-38 | a bodiless GET /todos; after success the list is the answer; a failure leaves it; a 401 removes the token and goes to /login, and any other answer keeps the token and the location |
| TodoContext.TodoProvider.AddTodo | todo-frontend/src/contexts/TodoContext.tsx:40-43 | POST /todos with the body `{title}`; success appends the created todo after the earlier entries; a failure leaves the list; a 401 removes the token and goes to /login, and any other answer keeps the token and the location |
| TodoContext.TodoProvider.ToggleTodo | todo-frontend/src/contexts/TodoContext.tsx:45-59 | an unknown id sends nothing and changes nothing; otherwise PUT /todos/:id with the found todo, `completed` flipped, as body and, on success, entries with that id are replaced by the answer; once sent, a 401 removes the token and goes to /login, and any other answer keeps the token and the location |
| TodoContext.TodoProvider.DeleteTodo | todo-frontend/src/contexts/TodoContext.tsx:61-64 | a bodiless DELETE /todos/:id; success removes every entry with that id; a failure leaves the list; a 401 removes the token and goes to /login, and any other answer keeps the token and the location |
| Email.IndexOf | todo-frontend/src/pages/Signup.tsx:23 | the first position of the character, nothing exactly when it does not occur |
| Email.CheckEmailSound | todo-frontend/src/pages/Signup.tsx:22-25 | every address the check accepts matches the pattern |
| Email.CheckEmailComplete | todo-frontend/src/pages/Signup.tsx:22-25 | every address the pattern matches passes the check |
| Email.CheckEmailMatchesPattern | todo-frontend/src/pages/Signup.tsx:22-25 | the check holds exactly when: no whitespace, one '@' past the start, and after it a '.' neither first nor last |
| Email.AcceptsPlainAddress | todo-frontend/src/pages/Signup.tsx:23 | "ann@mail.com" is accepted |
| Email.RejectsMissingDot | todo-frontend/src/pages/Signup.tsx:23 | "ann@mail" is rejected |
| Email.RejectsSecondAt | todo-frontend/src/pages/Signup.tsx:23 | "ann@@mail.com" is rejected |
| Email.RejectsEmptyLocalPart | todo-frontend/src/pages/Signup.tsx:23 | "@mail.com" is rejected |
| SignupPage.SignupErrorMessage | todo-frontend/src/pages/Signup.tsx:43-48 | 'Email already exists' exactly for status 409, 'Something went wrong' for every other |
| SignupPage.ConflictToastsEmailExists | todo-backend/src/auth/auth.service.ts:69 | the server's Conflict for a taken email reaches the user as 'Email already exists' |
| SignupPage.SignupForm.ButtonDisabled | todo-frontend/src/pages/Signup.tsx:85 | the button is disabled exactly when the email fails the check, the password is empty or a submit is pending |
| SignupPage.SignupForm.constructor | todo-frontend/src/pages/Signup.tsx:15-19 | empty inputs, the email invalid and the button disabled |
| SignupPage.SignupForm.HandleEmailChange | todo-frontend/src/pages/Signup.tsx:27-31 | the email is the new value and `isEmailValid` is its check; the flags stay consistent |
| SignupPage.SignupForm.HandlePasswordChange | todo-frontend/src/pages/Signup.tsx:33-35 | the password is the new value and the disabled flag follows it |
| SignupPage.SignupForm.HandleSubmit | todo-frontend/src/pages/Signup.tsx:37-39 | while the request is pending the page is loading and the button cannot be pressed |
| SignupPage.SignupForm.OnSignupSettled | todo-frontend/src/pages/Signup.tsx:40-51 | posts the current inputs as `{email, password}` to /auth/signup; success stores the token as written, "undefined" for a server token pair; a failure adds the toast its status selects; loading ends either way; a failure leaves the user; success keeps the location; a 401 failure removes the token and goes to /login, any other failure keeps both |
| LoginPage.LoginForm.constructor | todo-frontend/src/pages/Login.tsx:8-9 | empty inputs and no toast |
| LoginPage.LoginForm.SignInDisabled | todo-frontend/src/pages/Login.tsx:47-51 | the button is disabled exactly when the email does not match the same pattern as the sign-up check; the password plays no part |
| LoginPage.LoginForm.SetEmail | todo-frontend/src/pages/Login.tsx:33 | only the email changes |
| LoginPage.LoginForm.SetPassword | todo-frontend/src/pages/Login.tsx:42 | only the password changes |
| LoginPage.LoginForm.HandleSubmit | todo-frontend/src/pages/Login.tsx:13-20 | posts the current inputs as `{email, password}` to /auth/login and keeps them; success stores the token as written, "undefined" for a server token pair; every failure adds 'Invalid email or password'; a failure leaves the user; success keeps the location; a 401 failure removes the token and goes to /login, any other failure keeps both |
| TodoForm.TodoForm.constructor | todo-frontend/src/components/TodoForm.tsx:7 | the input starts empty |
| TodoForm.TodoForm.HandleChange | todo-frontend/src/components/TodoForm.tsx:21 | the input holds the typed value |
| TodoForm.TodoForm.HandleSubmit | todo-frontend/src/components/TodoForm.tsx:8-14 | blank input sends nothing and changes nothing; otherwise POST /todos with `{title}` holding the text as typed, untrimmed, and the input clears only once the add succeeded; a 401 removes the token and goes to /login, and any other answer keeps the token and the location |

## Left out

- Nest and TypeORM wiring, `main.ts`, the guards and passport strategies: the request's `user` is an input of each handler.
- JWT signing internals and expiry: tokens come from an uninterpreted signer, and verification is not modelled.
- bcrypt internals and salting: the hash is an uninterpreted function of the password alone.
- Request bodies are not validated: `main.ts` installs no validation pipe, so the server takes whatever JSON arrives. The model types each body by its DTO and leaves out the extra fields a client could send.
- TodoStore.TodoService.Create: the stored todo takes only the dto's title and `completed = false`; `{ ...createTodoDto, user }` (todo.service.ts:38) would also spread in any extra field of an unvalidated body, such as `completed: true` or an `id`.
- TodoApi.TodoController.Create: the same as `TodoStore.TodoService.Create`, since the body is passed on unvalidated.
- TodoStore.TodoService.Update: `Object.assign` (todo.service.ts:52) would copy any field of the body; the model copies only `title` and `completed`.
- TodoApi.TodoController.FindOne: the path id is an `int`. `@Param('id') id: number` (todo.controller.ts:41) has no parse pipe and `main.ts` installs none, so at run time the id is the path text: the NotFound message echoes it as typed ("01" stays "01"), and a non-numeric id fails the query (500) instead of answering 404. Neither is modelled.
- TodoApi.TodoController.Update: the same raw path id (todo.controller.ts:67), not modelled.
- TodoApi.TodoController.Remove: the same raw path id (todo.controller.ts:81), not modelled.
- Repository failures other than the unique-email constraint: these services never fail in the model, and logout always succeeds.
- UserStore.UserNotFoundMessage: `findOneById`'s own source is not part of this model; its NotFound message is taken to match the one `todo.service.ts:35` uses.
- UserStore.UserService.Create: stores the password as given, which is the corrected create of the first finding below; `CreateAsWritten` is the source's behaviour.
- Concurrency: each async handler is one atomic step, so overlapping requests and stale React state are not modelled. The sign-up page's submit is split at its one `await`.
- Each `useEffect` that recomputes `isDisabled` runs inside the change handler that triggers it, so the render between the two is not modelled.
- Toasts are recorded as a list of messages and the redirect as the `href` field; rendering, routing and `InputField` styling are not modelled.
- JavaScript's `\s` is the fixed set of characters in `JsText.IsWhitespace`; the e-mail pattern is a direct string predicate, not a regular-expression engine.
- The console logging in `AuthContext.tsx:41` is not modelled.

## Findings

| source | as written | input that shows it | evidently intended | confidence | as-written member | corrected member |
|---|---|---|---|---|---|---|
| todo-backend/src/user/user.service.ts:19 | `create` hashes the password again, but `signup` already passes `bcrypt.hash(password)` (auth.service.ts:73-74). The stored digest is then `hash(hash(p))`, and the `login(email, password)` that follows compares `p` against it. | signing up any new email, e.g. "ann@mail.com" with "pw": the user is created, then the call fails with 401 | the password is hashed once, so signup returns a token pair for the new user | high, not executed | Auth.AuthService.SignupAsWritten, UserStore.UserService.CreateAsWritten, Auth.DigestOfDigestRejected | Auth.AuthService.Signup, UserStore.UserService.Create |
| todo-frontend/src/contexts/AuthContext.tsx:52 | login and signup (also line 58) store `response.data.access_token`, but the server's body names the field `accessToken` (auth.service.ts:56-59). So local storage gets the string "undefined". | any successful login: the next request carries "Bearer undefined", gets 401, and the client drops the token and goes to /login | store `response.data.accessToken` | high, not executed | AuthContext.AuthProvider.Login, AuthContext.AuthProvider.Signup, AuthContext.StoredTokenIsUndefined | AuthContext.AuthProvider.LoginCorrected, AuthContext.AuthProvider.SignupCorrected, AuthContext.CorrectedStoresAccessToken |

The two findings compound. With the first one, every sign-up from the page is answered 401, so
the client drops any token, goes to /login and shows 'Something went wrong'. The controllers and
pages compose the as-written members (`AuthApi.AuthController.Signup` over
`Auth.AuthService.SignupAsWritten`, the pages over `AuthContext.AuthProvider.Login` and
`Signup`); the corrected members stand beside them as variants, with
`AuthApi.AuthController.SignupCorrected` over the corrected service signup.

Login tokens carry `{ userId }` (auth.service.ts:45), while refreshed tokens carry `{ email }`
(auth.service.ts:90). The model records each payload as written (`Jwt.JwtPayload`). The JWT
strategy's test (`todo-backend/src/auth/jwt.strategy.spec.ts:36-60`) resolves the user from
`payload.email`, so it is the login token, with no `email` claim, that would not find its user
at the guard. The strategy itself is not part of this model.
