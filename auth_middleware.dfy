/**
 * The authentication guard that runs before every task handler. It reads the
 * `token` cookie, verifies it, reads `userId` from the payload and loads that
 * user; each failure ends the request with its own status and message, and
 * only full success attaches the user to the request and passes it on.
 * Token verification and the user lookup are oracles given as parameters.
 */
module AuthMiddleware {
  import opened Options
  import opened TaskModel

  /** What `jwt.verify` does with a token: returns a payload, or throws with a message. */
  datatype Verified = Payload(userId: Option<Id>) | Thrown(message: string)

  /** What `User.findById` does with an id: finds a user, finds none, or throws (for instance on a malformed id). */
  datatype Lookup = Hit(user: User) | Miss | Failed(message: string)

  /** The guard's one outcome: an error response, or a call to `next` with the user attached. */
  datatype Decision = Respond(status: int, message: string) | Next(user: User)

  /** A value JavaScript treats as true: present and not the empty string. */
  predicate Present(v: Option<string>) {
    v.Some? && v.value != ""
  }

  const NoToken := "Token is not present"
  const InvalidToken := "Invalid token"
  const NoUser := "User does'n exist"

  /** The decision for a request carrying cookie value `token`. */
  function Decide(token: Option<string>, verify: string -> Verified, find: Id -> Lookup): (d: Decision)
    ensures !Present(token) ==> d == Respond(404, NoToken)
    ensures Present(token) && verify(token.value).Thrown? ==> d == Respond(401, verify(token.value).message)
    ensures Present(token) && verify(token.value).Payload? && !Present(verify(token.value).userId) ==>
      d == Respond(404, InvalidToken)
    ensures Present(token) && verify(token.value).Payload? && Present(verify(token.value).userId)
            && find(verify(token.value).userId.value).Failed? ==>
      d == Respond(401, find(verify(token.value).userId.value).message)
    ensures Present(token) && verify(token.value).Payload? && Present(verify(token.value).userId)
            && find(verify(token.value).userId.value).Miss? ==>
      d == Respond(404, NoUser)
    ensures d.Next? <==>
      && Present(token)
      && verify(token.value).Payload?
      && Present(verify(token.value).userId)
      && find(verify(token.value).userId.value).Hit?
    ensures d.Next? ==> d.user == find(verify(token.value).userId.value).user
    ensures d.Respond? ==> d.status in {401, 404}
  {
    if !Present(token) then Respond(404, NoToken)
    else
      match verify(token.value)
      case Thrown(message) => Respond(401, message)
      case Payload(userId) =>
        if !Present(userId) then Respond(404, InvalidToken)
        else
          match find(userId.value)
          case Failed(message) => Respond(401, message)
          case Miss => Respond(404, NoUser)
          case Hit(user) => Next(user)
  }

  /** An incoming request: its `token` cookie, and the user slot the guard fills. */
  class Request {
    const token: Option<string>
    var user: Option<User>

    constructor (token: Option<string>)
      ensures this.token == token && user == None
    {
      this.token := token;
      user := None;
    }
  }

  /** `authUser`: decides, and on success sets `req.user` before handing on. */
  method AuthUser(req: Request, verify: string -> Verified, find: Id -> Lookup) returns (d: Decision)
    modifies req
    ensures d == Decide(req.token, verify, find)
    ensures d.Next? ==> req.user == Some(d.user)
    ensures d.Respond? ==> req.user == old(req.user)
  {
    d := Decide(req.token, verify, find);
    if d.Next? {
      req.user := Some(d.user);
    }
  }
}
