/**
 * Shared vocabulary of the task-manager backend model: optional values,
 * store-assigned identifiers, and the abstract stand-ins for the two foreign
 * libraries the controllers and the middleware call (bcrypt and JSON Web Tokens).
 */
module Common {

  /** HTTP status codes the handlers and the gate send. */
  const Ok := 200
  const Created := 201
  const BadRequest := 400
  const Unauthorized := 401
  const NotFound := 404

  /** A value that may be absent (a missing request field, an unset header). */
  datatype Option<+T> = None | Some(value: T)

  /**
   * An opaque, store-assigned document identifier. Mongoose ObjectIds are
   * modelled as natural numbers; only equality and freshness are used.
   */
  type Id = nat

  /** Every finite set of identifiers has a strict upper bound. */
  lemma {:induction false} UpperBound(ids: set<Id>) returns (b: Id)
    ensures forall i :: i in ids ==> i < b
    decreases |ids|
  {
    if ids == {} {
      b := 0;
    } else {
      var x :| x in ids;
      var b' := UpperBound(ids - {x});
      b := if x < b' then b' else x + 1;
      forall i | i in ids ensures i < b {
        if i != x { assert i in ids - {x}; }
      }
    }
  }

  /** The store can always hand out an identifier that is not yet in use. */
  lemma FreshIdExists(ids: set<Id>)
    ensures exists id: Id :: id !in ids
  {
    var b := UpperBound(ids);
    assert b !in ids;
  }

  /**
   * bcrypt, reduced to what the controllers rely on: `hash(password, salt)`
   * produces the stored digest (the salt is the library's randomness, made a
   * parameter), and `compare(password, digest)` checks a password against it.
   */
  datatype Bcrypt = Bcrypt(hash: (string, string) -> string, compare: (string, string) -> bool)

  /** The one property of bcrypt the model assumes: a password matches its own digest. */
  ghost predicate Sound(b: Bcrypt)
  {
    forall password, salt :: b.compare(password, b.hash(password, salt))
  }

  /**
   * jsonwebtoken, reduced to `sign({id})` and `verify(token)` under the
   * process-wide secret. `verify` yields the decoded identifier or None when
   * the signature is bad or the token has expired (expiry is folded into it).
   */
  datatype Jwt = Jwt(sign: Id -> string, verify: string -> Option<Id>)

  /** A freshly signed token verifies to the identifier it was signed for. */
  ghost predicate RoundTrips(j: Jwt)
  {
    forall id: Id :: j.verify(j.sign(id)) == Some(id)
  }

  /** Compact tokens are non-empty and contain no space (base64url segments and dots). */
  ghost predicate Compact(j: Jwt)
  {
    forall id: Id :: j.sign(id) != "" && ' ' !in j.sign(id)
  }
}
