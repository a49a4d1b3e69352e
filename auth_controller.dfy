/**
 * Registration and login (backend/src/controllers/authController.ts).
 *
 * The User collection is a map from user id to a user record whose e-mail
 * addresses are unique, which `registerUser` maintains by refusing an e-mail
 * already present. bcrypt and jsonwebtoken are the abstract stand-ins of
 * module Common, fixed when the store is built.
 */
module AuthController {
  import opened Common

  /** Fixed messages of the handlers. */
  const ExistsMsg := "User already exists"
  const InvalidMsg := "Invalid credentials"

  /** A user document; `passwordHash` is the `password` field, which holds the bcrypt digest. */
  datatype User = User(name: string, email: string, passwordHash: string)

  /** What a handler sends back: `{ token, user }` or a `{ msg }` body. */
  datatype Reply =
    | Authenticated(status: int, token: string, id: Id, user: User)
    | Failed(status: int, msg: string)

  /** `User.findOne({ email })` finds something: the e-mail is among the stored addresses. */
  predicate EmailTaken(users: map<Id, User>, email: string): (taken: bool)
    ensures taken <==> email in (set id | id in users :: users[id].email)
  {
    exists id :: id in users && users[id].email == email
  }

  /** No two users share an e-mail address. */
  ghost predicate UniqueEmails(users: map<Id, User>)
  {
    forall a, b :: a in users && b in users && users[a].email == users[b].email ==> a == b
  }

  /** Inserting a user under a fresh id with an unused e-mail keeps addresses unique. */
  lemma InsertKeepsUnique(users: map<Id, User>, id: Id, u: User)
    requires UniqueEmails(users) && id !in users && !EmailTaken(users, u.email)
    ensures UniqueEmails(users[id := u])
    ensures EmailTaken(users[id := u], u.email)
  {
    assert users[id := u][id].email == u.email;
  }

  /** Under unique addresses, an e-mail names at most one user. */
  lemma UniqueLookup(users: map<Id, User>, email: string, a: Id, b: Id)
    requires UniqueEmails(users)
    requires a in users && users[a].email == email
    requires b in users && users[b].email == email
    ensures a == b
  {
  }

  /** The User collection, with the hashing and signing libraries it is used with. */
  class UserStore {
    const bcrypt: Bcrypt
    const jwt: Jwt
    var users: map<Id, User>

    ghost predicate Valid()
      reads this
    {
      UniqueEmails(users)
    }

    constructor (bcrypt: Bcrypt, jwt: Jwt)
      ensures Valid() && users == map[]
      ensures this.bcrypt == bcrypt && this.jwt == jwt
    {
      this.bcrypt := bcrypt;
      this.jwt := jwt;
      users := map[];
    }

    /**
     * `registerUser`: a taken e-mail is answered 400 without writing;
     * otherwise one user is stored under a fresh id with the digest of the
     * password (never the password itself) and 201 carries `sign({ id })`.
     */
    method Register(name: string, email: string, password: string, salt: string) returns (r: Reply)
      requires Valid()
      modifies this
      ensures Valid()
      ensures EmailTaken(old(users), email) ==> r == Failed(BadRequest, ExistsMsg) && users == old(users)
      ensures !EmailTaken(old(users), email) ==>
        && r.Authenticated? && r.status == Created
        && r.id !in old(users)
        && r.user == User(name, email, bcrypt.hash(password, salt))
        && users == old(users)[r.id := r.user]
        && r.token == jwt.sign(r.id)
    {
      if EmailTaken(users, email) {
        return Failed(BadRequest, ExistsMsg);
      }
      var u := User(name, email, bcrypt.hash(password, salt));
      FreshIdExists(users.Keys);
      var id: Id :| id !in users.Keys;
      InsertKeepsUnique(users, id, u);
      users := users[id := u];
      r := Authenticated(Created, jwt.sign(id), id, u);
    }

    /**
     * `loginUser`: succeed exactly when the user with that e-mail exists and
     * the password matches its digest; an unknown e-mail and a wrong password
     * get the same 400 answer. It only reads the collection.
     */
    method Login(email: string, password: string) returns (r: Reply)
      requires Valid()
      ensures r.Authenticated? <==>
        exists id :: id in users && users[id].email == email && bcrypt.compare(password, users[id].passwordHash)
      ensures r.Authenticated? ==>
        && r.status == Ok && r.id in users && r.user == users[r.id]
        && r.user.email == email && r.token == jwt.sign(r.id)
      ensures !EmailTaken(users, email) ==> r == Failed(BadRequest, InvalidMsg)
      ensures r.Failed? ==> r == Failed(BadRequest, InvalidMsg)
    {
      if !EmailTaken(users, email) {
        return Failed(BadRequest, InvalidMsg);
      }
      var id :| id in users && users[id].email == email;
      var user := users[id];
      if !bcrypt.compare(password, user.passwordHash) {
        return Failed(BadRequest, InvalidMsg);
      }
      r := Authenticated(Ok, jwt.sign(id), id, user);
    }
  }
}
