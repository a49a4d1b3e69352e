/**
 * Clients of the three components that chain several requests, stating what
 * the handlers' contracts guarantee about the sequence as a whole.
 */
module Scenario {
  import opened Common
  import AuthMiddleware
  import AuthController
  import TaskController

  /**
   * Registering and then logging in with the same e-mail and password
   * succeeds and yields the registered user and its id; the login token
   * verifies to that id.
   */
  method RegisterThenLogin(store: AuthController.UserStore, name: string, email: string, password: string, salt: string)
    returns (reg: AuthController.Reply, login: AuthController.Reply)
    requires store.Valid() && Sound(store.bcrypt) && RoundTrips(store.jwt)
    requires !AuthController.EmailTaken(store.users, email)
    modifies store
    ensures store.Valid()
    ensures reg.Authenticated? && login.Authenticated?
    ensures login.id == reg.id && login.user == reg.user
    ensures login.token == store.jwt.sign(login.id)
    ensures store.jwt.verify(login.token) == Some(reg.id)
  {
    reg := store.Register(name, email, password, salt);
    login := store.Login(email, password);
    assert store.users[reg.id].email == email;
    assert store.bcrypt.compare(password, store.users[reg.id].passwordHash);
    AuthController.UniqueLookup(store.users, email, login.id, reg.id);
  }

  /** A second registration with the same e-mail fails and leaves the first one in place. */
  method RegisterTwice(store: AuthController.UserStore, email: string, first: (string, string, string), second: (string, string, string))
    returns (a: AuthController.Reply, b: AuthController.Reply)
    requires store.Valid() && !AuthController.EmailTaken(store.users, email)
    modifies store
    ensures a.Authenticated? && a.id in store.users && store.users[a.id] == a.user
    ensures b == AuthController.Failed(BadRequest, AuthController.ExistsMsg)
    ensures store.users == old(store.users)[a.id := a.user]
  {
    a := store.Register(first.0, email, first.1, first.2);
    assert store.users[a.id].email == email;
    b := store.Register(second.0, email, second.1, second.2);
  }

  /** After the owner deletes a task, fetching it is answered 404. */
  method DeleteThenGet(store: TaskController.TaskStore, caller: Id, id: Id)
    returns (deleted: TaskController.Reply, fetched: TaskController.Reply)
    requires id in store.tasks && store.tasks[id].owner == caller
    modifies store
    ensures deleted == TaskController.Message(Ok, TaskController.DeletedMsg)
    ensures fetched == TaskController.Message(NotFound, TaskController.NotFoundMsg)
  {
    deleted := store.Delete(caller, id);
    fetched := store.Get(caller, id);
  }

  /** A caller who does not own a task can neither change nor delete it. */
  method ForeignWritesRejected(store: TaskController.TaskStore, caller: Id, id: Id, patch: TaskController.Patch)
    returns (updated: TaskController.Reply, deleted: TaskController.Reply)
    requires id in store.tasks && store.tasks[id].owner != caller
    modifies store
    ensures updated == TaskController.Message(Unauthorized, TaskController.NotAuthorizedMsg)
    ensures deleted == TaskController.Message(Unauthorized, TaskController.NotAuthorizedMsg)
    ensures store.tasks == old(store.tasks)
  {
    updated := store.Update(caller, id, patch);
    deleted := store.Delete(caller, id);
  }

  /**
   * Register, log in, pass the gate with `"Bearer " + token`, create
   * "Buy milk", list, set its status to "done", fetch it, delete it and fetch
   * it again, all on fresh stores.
   */
  method EndToEnd(bcrypt: Bcrypt, jwt: Jwt, salt: string)
    returns (uid: Id, tid: Id, listed: map<Id, TaskController.Task>, fetched: TaskController.Reply, gone: TaskController.Reply)
    requires Sound(bcrypt) && RoundTrips(jwt) && Compact(jwt)
    ensures listed == map[tid := TaskController.Task("Buy milk", None, "pending", uid)]
    ensures |listed| == 1
    ensures fetched == TaskController.One(Ok, tid, TaskController.Task("Buy milk", None, "done", uid))
    ensures gone == TaskController.Message(NotFound, TaskController.NotFoundMsg)
  {
    var users := new AuthController.UserStore(bcrypt, jwt);
    var reg, login := RegisterThenLogin(users, "A", "a@x.com", "secret", salt);
    uid := reg.id;

    var req := new AuthMiddleware.Request(Some("Bearer " + login.token));
    AuthMiddleware.SignedBearerVerifies(jwt, uid);
    var gate := AuthMiddleware.Authenticate(req, jwt);
    assert gate == AuthMiddleware.Next && req.user == Some(uid);

    var tasks := new TaskController.TaskStore();
    var created := tasks.Create(req.user.value, "Buy milk", None, None);
    tid := created.id;
    var all := tasks.List(uid);
    TaskController.OwnedByInsert(map[], tid, created.task, uid);
    assert TaskController.OwnedBy(map[], uid) == map[];
    listed := all.tasks;

    var patch := TaskController.Patch(None, None, Some("done"), None);
    var _ := tasks.Update(uid, tid, patch);
    fetched := tasks.Get(uid, tid);

    var _ := tasks.Delete(uid, tid);
    gone := tasks.Get(uid, tid);
  }
}
