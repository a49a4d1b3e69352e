/**
 * The bearer-token gate in front of the task routes (backend/src/middleware/auth.ts).
 *
 * The token is taken from the Authorization header exactly as JavaScript's
 * `header.split(" ")[1]` does: split on every single space, keep the segment
 * at index 1, and treat an absent or empty segment as "no token". The first
 * word is not checked to be "Bearer".
 */
module AuthMiddleware {
  import opened Common

  /** Messages of the gate. */
  const NoTokenMsg := "No token, authorization denied"
  const BadTokenMsg := "Token is not valid"

  /**
   * JavaScript `s.split(" ")`: the maximal space-free segments between
   * single spaces, so adjacent spaces give an empty segment and the empty
   * string gives one empty segment.
   */
  function Split(s: string): (parts: seq<string>)
    ensures |parts| >= 1
    ensures forall i :: 0 <= i < |parts| ==> ' ' !in parts[i]
    ensures |parts| == 1 <==> ' ' !in s
  {
    if s == [] then [""]
    else
      var rest := Split(s[1..]);
      if s[0] == ' ' then [""] + rest
      else [[s[0]] + rest[0]] + rest[1..]
  }

  /**
   * JavaScript `parts.join(" ")`, the inverse of Split: the first segment
   * starts the result, and space-free segments give a space exactly when
   * there are several of them.
   */
  function Join(parts: seq<string>): (s: string)
    requires |parts| >= 1
    ensures parts[0] <= s
    ensures (forall i :: 0 <= i < |parts| ==> ' ' !in parts[i]) ==> (' ' in s <==> |parts| > 1)
  {
    if |parts| == 1 then parts[0] else parts[0] + " " + Join(parts[1..])
  }

  /** Gluing a character onto the first segment glues it onto the joined string. */
  lemma {:induction false} JoinGlue(c: char, parts: seq<string>)
    requires |parts| >= 1
    ensures Join([[c] + parts[0]] + parts[1..]) == [c] + Join(parts)
  {
    var glued := [[c] + parts[0]] + parts[1..];
    if |parts| == 1 {
      assert Join(glued) == glued[0];
    } else {
      var tail := Join(parts[1..]);
      assert glued[1..] == parts[1..];
      assert Join(glued) == ([c] + parts[0]) + " " + tail;
      assert Join(parts) == parts[0] + " " + tail;
      assert ([c] + parts[0]) + " " + tail == [c] + (parts[0] + " " + tail);
    }
  }

  /** Joining the segments back with single spaces gives the original header. */
  lemma {:induction false} JoinSplit(s: string)
    ensures Join(Split(s)) == s
  {
    if s != [] {
      var rest := Split(s[1..]);
      JoinSplit(s[1..]);
      if s[0] == ' ' {
        assert Split(s) == [""] + rest;
        assert ([""] + rest)[1..] == rest;
      } else {
        assert Split(s) == [[s[0]] + rest[0]] + rest[1..];
        JoinGlue(s[0], rest);
      }
      assert s == [s[0]] + s[1..];
    }
  }

  /** A space-free string is a single segment. */
  lemma {:induction false} SplitWord(w: string)
    requires ' ' !in w
    ensures Split(w) == [w]
  {
    if w != [] {
      SplitWord(w[1..]);
      assert [w[0]] + w[1..] == w;
    }
  }

  /** Splitting a space-free first word followed by a space peels that word off. */
  lemma {:induction false} SplitAfterWord(w: string, s: string)
    requires ' ' !in w
    ensures Split(w + " " + s) == [w] + Split(s)
  {
    if w == [] {
      assert (w + " " + s)[1..] == s;
    } else {
      assert (w + " " + s)[1..] == w[1..] + " " + s;
      SplitAfterWord(w[1..], s);
      assert [w[0]] + w[1..] == w;
    }
  }

  /** A space-free prefix is glued onto the first segment of what follows it. */
  lemma {:induction false} SplitPrefix(t: string, s: string)
    requires ' ' !in t
    ensures Split(t + s) == [t + Split(s)[0]] + Split(s)[1..]
  {
    var sp := Split(s);
    if t == [] {
      assert t + s == s && t + sp[0] == sp[0];
      assert sp == [sp[0]] + sp[1..];
    } else {
      assert (t + s)[1..] == t[1..] + s;
      SplitPrefix(t[1..], s);
      var r := Split(t[1..] + s);
      assert r[0] == t[1..] + sp[0] && r[1..] == sp[1..];
      assert Split(t + s) == [[t[0]] + r[0]] + r[1..];
      assert [t[0]] + (t[1..] + sp[0]) == t + sp[0];
    }
  }

  /** Splitting the segments joined with spaces gives the segments back. */
  lemma {:induction false} SplitJoin(parts: seq<string>)
    requires |parts| >= 1
    requires forall i :: 0 <= i < |parts| ==> ' ' !in parts[i]
    ensures Split(Join(parts)) == parts
  {
    if |parts| == 1 {
      SplitWord(parts[0]);
    } else {
      SplitAfterWord(parts[0], Join(parts[1..]));
      SplitJoin(parts[1..]);
    }
  }

  /**
   * The optional chain `req.header("Authorization")?.split(" ")[1]` followed
   * by the truthiness test `if (!token)`: None stands for both `undefined`
   * and the empty string.
   */
  function ExtractToken(header: Option<string>): (token: Option<string>)
    ensures header.None? ==> token.None?
    ensures token.Some? ==> token.value != "" && ' ' !in token.value
  {
    match header
    case None => None
    case Some(h) =>
      var parts := Split(h);
      if |parts| >= 2 && parts[1] != "" then Some(parts[1]) else None
  }

  /**
   * Any space-free first word, a space, then a non-empty space-free token
   * ending at the end of the header or at the next space, yields that token.
   */
  lemma BearerToken(scheme: string, token: string, rest: string)
    requires ' ' !in scheme && ' ' !in token && token != ""
    requires rest == "" || rest[0] == ' '
    ensures ExtractToken(Some(scheme + " " + token + rest)) == Some(token)
  {
    assert scheme + " " + token + rest == scheme + " " + (token + rest);
    SplitAfterWord(scheme, token + rest);
    SplitPrefix(token, rest);
    assert Split(rest)[0] == "";
    assert token + "" == token;
  }

  /** A header with no space carries no token. */
  lemma NoSpaceNoToken(h: string)
    requires ' ' !in h
    ensures ExtractToken(Some(h)) == None
  {
    SplitWord(h);
  }

  /**
   * A header whose first space is at the end or is followed by another space
   * (`"Bearer "`, `"Bearer  abc"`) has an empty index-1 segment: no token.
   */
  lemma EmptySegmentNoToken(scheme: string, rest: string)
    requires ' ' !in scheme
    requires rest == "" || rest[0] == ' '
    ensures ExtractToken(Some(scheme + " " + rest)) == None
  {
    SplitAfterWord(scheme, rest);
    assert Split(rest)[0] == "";
  }

  /**
   * Every header falls under one of the three lemmas above: it has no space,
   * or it is a space-free first word, a space, a space-free segment `token`
   * and a rest that is empty or starts with a space; the token is extracted
   * exactly when that segment is non-empty.
   */
  lemma {:induction false} HeaderCases(h: string) returns (scheme: string, token: string, rest: string)
    ensures ' ' in h ==>
      && h == scheme + " " + token + rest
      && ' ' !in scheme && ' ' !in token
      && (rest == "" || rest[0] == ' ')
    ensures ExtractToken(Some(h)) == if ' ' in h && token != "" then Some(token) else None
  {
    var parts := Split(h);
    if ' ' !in h {
      scheme, token, rest := h, "", "";
    } else {
      scheme, token := parts[0], parts[1];
      rest := if |parts| > 2 then " " + Join(parts[2..]) else "";
      JoinSplit(h);
      assert parts[1..][0] == token;
      if |parts| > 2 {
        assert parts[1..][1..] == parts[2..];
        assert Join(parts[1..]) == token + rest;
      } else {
        assert Join(parts[1..]) == token + rest;
      }
      assert h == scheme + " " + (token + rest);
    }
  }

  /** What the gate did: called `next()` once, or answered the request itself. */
  datatype GateOutcome = Next | Reject(status: int, msg: string)

  /**
   * The parts of an Express request the gate looks at: the Authorization
   * header, and the `user` slot it fills in for the handlers downstream.
   */
  class Request {
    const authorization: Option<string>
    var user: Option<Id>

    constructor (authorization: Option<string>)
      ensures this.authorization == authorization && user == None
    {
      this.authorization := authorization;
      user := None;
    }
  }

  /**
   * `authMiddleware`: reject with 401 when there is no token or it does not
   * verify, leaving `req.user` alone; otherwise store the decoded identity in
   * `req.user` and continue. It writes nothing but `req.user`.
   */
  method Authenticate(req: Request, jwt: Jwt) returns (outcome: GateOutcome)
    modifies req`user
    ensures match ExtractToken(req.authorization)
      case None => outcome == Reject(Unauthorized, NoTokenMsg) && req.user == old(req.user)
      case Some(t) =>
        match jwt.verify(t)
        case None => outcome == Reject(Unauthorized, BadTokenMsg) && req.user == old(req.user)
        case Some(id) => outcome == Next && req.user == Some(id)
  {
    var token := ExtractToken(req.authorization);
    if token.None? {
      return Reject(Unauthorized, NoTokenMsg);
    }
    var decoded := jwt.verify(token.value);
    if decoded.None? {
      return Reject(Unauthorized, BadTokenMsg);
    }
    req.user := decoded;
    outcome := Next;
  }

  /** A header `"Bearer " + sign(id)` passes the token extraction and verifies to `id`. */
  lemma SignedBearerVerifies(jwt: Jwt, id: Id)
    requires RoundTrips(jwt) && Compact(jwt)
    ensures ExtractToken(Some("Bearer " + jwt.sign(id))) == Some(jwt.sign(id))
    ensures jwt.verify(jwt.sign(id)) == Some(id)
  {
    BearerToken("Bearer", jwt.sign(id), "");
    assert "Bearer" + " " + jwt.sign(id) + "" == "Bearer " + jwt.sign(id);
  }
}
