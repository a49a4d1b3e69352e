# Task-manager backend: a Dafny model of its decision logic

This project models the three parts of the task-manager backend that make decisions:

- the bearer-token gate: `authMiddleware` in `backend/src/middleware/auth.ts`;
- registration and login: `authController.ts`;
- the ownership-scoped task handlers: `taskController.ts`.

The database, bcrypt and jsonwebtoken are replaced by abstract stand-ins.
The model proves what each handler answers and how it changes the collections.

Modules:

- `Common` (`common.dfy`): the shared vocabulary.
  - `Option`, and the HTTP status codes shared by the handlers and the gate.
  - `Id`, a store-assigned identifier modelled as a natural number.
  - The fresh-id lemmas.
  - The library stand-ins. `Bcrypt` has `hash(password, salt)` and `compare`; the only assumption about it is `Sound`: a password matches its own digest. `Jwt` has `sign(id)` and `verify(token)`; `RoundTrips` and `Compact` say that a signed token verifies to its id and contains no space.
- `AuthMiddleware` (`auth_middleware.dfy`): token extraction and the gate.
  - `Split` is JavaScript `split(" ")`, with `Join` as its inverse. `ExtractToken` takes index 1 and treats an absent or empty segment as no token.
  - `Request` holds the header and the `req.user` slot. `Authenticate` either fills that slot and continues (`Next`), or rejects with 401.
- `AuthController` (`auth_controller.dfy`): the class `UserStore`.
  - It holds a map from id to `User` and keeps e-mail addresses unique (`Valid`).
  - Its methods are `Register` and `Login`. `Login` changes nothing: it has no `modifies` clause.
- `TaskController` (`task_controller.dfy`): the class `TaskStore`.
  - It holds a map from id to `Task`, with methods `Create`, `List`, `Get`, `Update` and `Delete`.
  - `Merge` is the patch merge of `findByIdAndUpdate`. `OwnedBy` is the `Task.find({ user })` filter.
- `Scenario` (`scenario.dfy`): client methods that chain requests. One of them runs the whole flow: register, log in, pass the gate, create, list, update, get, delete, get.

Answers are modelled as datatypes that carry the HTTP status and the body (`Reply`, `GateOutcome`).
The status codes and message strings are those of the code.
A `Next` outcome stands for the single `next()` call.
The gate's frame is `req.user` only, so it writes to no store.

Decisions of the code that the model keeps:

- A non-owner's update or delete gets 401 "Not authorized" (taskController.ts:55-57, 75-77).
- A registration with an e-mail already present gets 400 "User already exists" (authController.ts:14-17).
- The token is the index-1 segment of `split(" ")` (auth.ts:13). A double space gives an empty segment and so no token. The first word is never checked to be "Bearer".
- `updateTask` merges the whole request body (taskController.ts:59). A body that carries an owner reassigns the task (`MergeOwner`); only a body that omits the owner leaves it in place.
- `getTask` has no owner check (taskController.ts:39-42). `Get` takes the caller, but its answer does not depend on it.
- `registerUser` and `loginUser` return the whole user record, digest included (authController.ts:28, 55). `Reply.Authenticated` carries it as well.

## Model

| member | source | states |
|---|---|---|
| `Common.UpperBound` | backend/src/controllers/taskController.ts:11-18 | Every finite set of ids has a strict upper bound, so the store can assign an unused id. |
| `Common.FreshIdExists` | backend/src/controllers/authController.ts:20-22 | Some id is never in use; new documents are stored under such an id. |
| `AuthMiddleware.Split` | backend/src/middleware/auth.ts:13 | `split(" ")` yields at least one segment. No segment contains a space. There is exactly one segment iff the header has no space. |
| `AuthMiddleware.Join` | backend/src/middleware/auth.ts:13 | The first segment starts the joined string. For space-free segments, the result contains a space iff there is more than one segment. |
| `AuthMiddleware.SplitWord` | backend/src/middleware/auth.ts:13 | A space-free string splits into the single segment that is the string itself. |
| `AuthMiddleware.JoinSplit` | backend/src/middleware/auth.ts:13 | Joining the segments with single spaces gives back the header: no character is lost or added. |
| `AuthMiddleware.JoinGlue` | backend/src/middleware/auth.ts:13 | Gluing a character onto the first segment glues it onto the front of the joined string. |
| `AuthMiddleware.SplitJoin` | backend/src/middleware/auth.ts:13 | Space-free segments joined with spaces split back into exactly those segments. |
| `AuthMiddleware.SplitAfterWord` | backend/src/middleware/auth.ts:13 | A space-free first word, then a space, is peeled off as segment 0. |
| `AuthMiddleware.SplitPrefix` | backend/src/middleware/auth.ts:13 | A space-free prefix is glued onto the first segment of what follows it. |
| `AuthMiddleware.ExtractToken` | backend/src/middleware/auth.ts:13-15 | A missing header gives no token. An extracted token is non-empty and contains no space. |
| `AuthMiddleware.BearerToken` | backend/src/middleware/auth.ts:13 | For any space-free first word (not only "Bearer"), the token is the non-empty space-free segment after the first space. |
| `AuthMiddleware.NoSpaceNoToken` | backend/src/middleware/auth.ts:13-18 | A header without a space carries no token. |
| `AuthMiddleware.EmptySegmentNoToken` | backend/src/middleware/auth.ts:13-18 | A header whose first space ends it or is followed by another space (`"Bearer "`, a double space) carries no token. |
| `AuthMiddleware.HeaderCases` | backend/src/middleware/auth.ts:13-18 | Every header either has no space, or is a space-free first word, a space, a space-free segment and a rest that is empty or starts with a space. A token is extracted exactly when that segment exists and is non-empty. |
| `AuthMiddleware.Request.constructor` | backend/src/middleware/auth.ts:4-6 | A request has its Authorization header and no `user` yet. |
| `AuthMiddleware.Authenticate` | backend/src/middleware/auth.ts:8-29 | No token: 401 "No token, authorization denied". Token fails to verify: 401 "Token is not valid". In both cases `req.user` is untouched and `next` is not called. Otherwise `req.user` is the decoded id and the outcome is `Next`. Only `req.user` is written. |
| `AuthMiddleware.SignedBearerVerifies` | backend/src/middleware/auth.ts:13-24 | The header `"Bearer " + sign(id)` yields that token, and the token verifies to `id`. |
| `AuthController.InsertKeepsUnique` | backend/src/controllers/authController.ts:13-22 | Inserting a user under a fresh id with an unused e-mail keeps e-mail addresses unique. |
| `AuthController.EmailTaken` | backend/src/controllers/authController.ts:13-14 | `findOne({ email })` finds a user exactly when the e-mail is among the stored addresses. |
| `AuthController.UniqueLookup` | backend/src/controllers/authController.ts:39 | Under unique addresses, `findOne({ email })` can only find one user. |
| `AuthController.UserStore.constructor` | backend/src/controllers/authController.ts:2-4 | An empty User collection, valid, bound to the given bcrypt and JWT stand-ins. |
| `AuthController.UserStore.Register` | backend/src/controllers/authController.ts:6-33 | Taken e-mail: 400 "User already exists", nothing written. Otherwise 201, and exactly one user is added under a fresh id with the given name, the given e-mail and `hash(password, salt)`. The token is `sign(id)` of that id, and e-mail uniqueness is preserved. |
| `AuthController.UserStore.Login` | backend/src/controllers/authController.ts:35-60 | Succeeds iff a user with that e-mail exists and the password matches its digest. On success: 200, that user, `sign(id)`. An unknown e-mail and a wrong password both give the same 400 "Invalid credentials". Read-only. |
| `TaskController.MergeEmpty` | backend/src/controllers/taskController.ts:59-61 | An empty body changes no field. |
| `TaskController.Pick` | backend/src/controllers/taskController.ts:59 | A supplied body field is the new value; an absent one keeps the current value. |
| `TaskController.Merge` | backend/src/controllers/taskController.ts:59-61 | Each of title, description, status and owner takes the body's value when the body supplies it, and otherwise keeps the stored one. |
| `TaskController.OwnedBy` | backend/src/controllers/taskController.ts:29 | `Task.find({ user })` holds exactly the stored tasks whose owner is `user`, unchanged. |
| `TaskController.MergeIdempotent` | backend/src/controllers/taskController.ts:59-61 | Supplied fields win, and applying the same body twice equals applying it once. |
| `TaskController.MergeOwner` | backend/src/controllers/taskController.ts:59-61 | A body without an owner keeps the owner. A body with an owner reassigns it. |
| `TaskController.OwnedByDisjoint` | backend/src/controllers/taskController.ts:29 | Two different users' lists share no task. |
| `TaskController.OwnedByCovers` | backend/src/controllers/taskController.ts:29 | A list holds only stored tasks, unchanged, and every stored task is in its owner's list. |
| `TaskController.OwnedByInsert` | backend/src/controllers/taskController.ts:11-18 | A created task joins its owner's list and no other list. |
| `TaskController.OwnedByRemove` | backend/src/controllers/taskController.ts:79 | A deleted task leaves every list, and the lists are otherwise unchanged. |
| `TaskController.OwnedByUpdate` | backend/src/controllers/taskController.ts:59-61 | An update without an owner field moves no task between lists. |
| `TaskController.TaskStore.constructor` | backend/src/controllers/taskController.ts:2 | An empty Task collection. |
| `TaskController.TaskStore.Create` | backend/src/controllers/taskController.ts:6-23 | 201 with a task stored under a fresh id. It has the given title and description, and the caller as owner. Its status is the supplied one when that is non-empty, else "pending". Exactly one key is added. |
| `TaskController.TaskStore.List` | backend/src/controllers/taskController.ts:26-34 | 200 with exactly the stored tasks whose owner is the caller, unchanged. If there are none, the answer is the empty collection. |
| `TaskController.TaskStore.Get` | backend/src/controllers/taskController.ts:37-46 | A missing id gives 404 "Task not found". A present id gives 200 with that task, whoever asks. |
| `TaskController.TaskStore.Update` | backend/src/controllers/taskController.ts:49-66 | A missing id gives 404 for every caller. A non-owner gets 401 "Not authorized". In both cases the table is unchanged. The owner gets 200 with the body merged onto that one task; the keys and every other task stay the same. |
| `TaskController.TaskStore.Delete` | backend/src/controllers/taskController.ts:69-84 | Same 404-then-401 order, with the table unchanged. The owner gets 200 "Task deleted": exactly that key is removed, the size drops by one, and every other task is unchanged. |
| `Scenario.RegisterThenLogin` | backend/src/controllers/authController.ts:19-55 | Given `Sound`, registering and then logging in with the same e-mail and password succeeds with the registered id and user. The login token is `sign` of that id and, given `RoundTrips`, verifies to it. |
| `Scenario.RegisterTwice` | backend/src/controllers/authController.ts:13-22 | The second registration of an e-mail gets 400 "User already exists", and the first user stays stored. |
| `Scenario.DeleteThenGet` | backend/src/controllers/taskController.ts:39-80 | After the owner deletes a task, `getTask` on its id gets 404. |
| `Scenario.ForeignWritesRejected` | backend/src/controllers/taskController.ts:55-77 | A non-owner's update and delete both get 401, and the table is unchanged. |
| `Scenario.EndToEnd` | backend/src/controllers/taskController.ts:6-84 | Register, log in, gate, then create "Buy milk". The list is that single task with status "pending". After updating the status to "done", `getTask` shows "done". After delete, `getTask` gets 404. |

## Left out

- `backend/src/server.ts` is not part of this model: it loads configuration, enables CORS, connects to the database and binds the port.
- `backend/src/routes/taskRoutes.ts` is not part of this model. It only wires routes, and it mounts just `getTasks` and `createTask`. The other handlers are modelled as operations even though no route reaches them.
- The 500 "Server error" paths and error logging are not modelled. They are the exceptional failures of the database, bcrypt or jsonwebtoken. A `req.body` missing the password (bcrypt throws) falls into this class too.
- bcrypt's salting and cost factor are not modelled. Only `hash(password, salt)` with the salt as a parameter and `compare` are kept, with the single assumption `Sound`.
- JWT signing cryptography, the secret and the one-hour expiry are not modelled. Expiry depends on the clock and is folded into the abstract `verify`.
- `Common.Jwt.sign` takes only the id and ignores the issue time. In the code the payload also carries `iat` and `exp`, so two tokens for the same id can differ; no contract compares two tokens. `req.user` holds only the decoded id, not the whole decoded payload (auth.ts:21-24).
- Mongoose ObjectIds are modelled as natural numbers, and new documents get an arbitrary unused one. `task.user?.toString() !== req.user.id` is modelled as inequality of ids.
- Mongoose schema casting and validation are not modelled. Fields are typed strings and ids. A JavaScript-falsy status other than an absent or empty string is not modelled. The body merged by `updateTask` is limited to title, description, status and owner; an explicit `null` or unset is not modelled.
- Interleaving of concurrent requests, such as the read-then-write race in update and delete, is not modelled.
- `TaskController.TaskStore.List`: returns the tasks as a map from id to task, so the order of the array `Task.find` returns is not modelled.
