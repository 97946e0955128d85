/**
 * The authentication gate and the admin gate (Middleware/requireauth.js).
 * Both are decisions with early exits: each either stops the request with a
 * reply or calls `next()` with the request's `user` set, which `Gate.Next`
 * carries.
 */
module RequireAuth {
  import opened Wrappers
  import opened Platform
  import opened UserModel
  import opened Text

  /** How a middleware ends: `next()` with `req.user`, or a reply and no `next()`. */
  datatype Gate = Next(user: Document) | Stop(reply: Reply)

  /** The token of an Authorization header: after a "Bearer " prefix, the second
      space-separated field; without that prefix, the whole header. */
  function ExtractToken(header: string): (token: string)
    ensures !StartsWith(header, "Bearer ") ==> token == header
    ensures StartsWith(header, "Bearer ") ==> ' ' !in token
  {
    if StartsWith(header, "Bearer ") then
      assert header[6] == ' ';
      Split(header, ' ')[1]
    else header
  }

  /** After the "Bearer " prefix, the token is the text up to the next space (or the end). */
  lemma {:induction false} BearerTokenIsNextField(header: string)
    requires StartsWith(header, "Bearer ")
    ensures ExtractToken(header) == Split(header[7..], ' ')[0]
  {
    assert header == "Bearer" + [' '] + header[7..];
    SplitAfterFree("Bearer", ' ', header[7..]);
  }

  /** A space-free token sent as "Bearer <token>", with or without more fields after it, is extracted intact. */
  lemma {:induction false} BearerRoundTrip(token: string, rest: Option<string>)
    requires ' ' !in token
    ensures var header := "Bearer " + token + (if rest.Some? then " " + rest.value else "");
      ExtractToken(header) == token
  {
    var tail := token + (if rest.Some? then " " + rest.value else "");
    var header := "Bearer " + tail;
    assert header == "Bearer " + token + (if rest.Some? then " " + rest.value else "");
    assert header[..7] == "Bearer ";
    assert header[7..] == tail;
    BearerTokenIsNextField(header);
    if rest.Some? {
      assert tail == token + [' '] + rest.value;
      SplitAfterFree(token, ' ', rest.value);
    } else {
      assert tail == token;
      SplitFree(token, ' ');
    }
  }

  /** `req.user` as Auth attaches it: the stored document without its password. */
  function AttachedUser(id: Oid, u: User): (d: Document)
    ensures "password" !in d && "role" in d && d["role"] == Str(RoleName(u.role))
  {
    WithoutPassword(UserDocument(id, u))
  }

  /** Auth: header present, token extracted, token verified with the configuration
      secret, user re-read by the token's id, record attached. */
  function Authenticate(users: map<Oid, User>, header: Option<string>, env: Env, now: Millis): (g: Gate)
    ensures !Truthy(header) ==> g == Stop(Reply(401, Text("Authorization header missing")))
    ensures Truthy(header) && ExtractToken(header.value) == "" ==> g == Stop(Reply(401, Text("Token missing")))
    ensures Truthy(header) && ExtractToken(header.value) != "" ==>
      var v := env.verify(ExtractToken(header.value), env.configSecret, now);
      && (v.Expired? ==> g == Stop(Reply(401, Text("Token expired. Please login again"))))
      && (v.Invalid? ==> g == Stop(Reply(401, Text("Invalid token"))))
      && (v.Decoded? && v.claims.id !in users ==> g == Stop(Reply(401, Text("User not found"))))
      && (v.Decoded? && v.claims.id in users ==> g == Next(AttachedUser(v.claims.id, users[v.claims.id])))
    ensures g.Next? ==> "password" !in g.user
    ensures g.Stop? ==> g.reply.status == 401
  {
    if !Truthy(header) then Stop(Reply(401, Text("Authorization header missing")))
    else
      var token := ExtractToken(header.value);
      if token == "" then Stop(Reply(401, Text("Token missing")))
      else
        match env.verify(token, env.configSecret, now)
        case Expired => Stop(Reply(401, Text("Token expired. Please login again")))
        case Invalid => Stop(Reply(401, Text("Invalid token")))
        case Decoded(claims) =>
          if claims.id !in users then Stop(Reply(401, Text("User not found")))
          else Next(AttachedUser(claims.id, users[claims.id]))
  }

  /** adminMiddleware: no `req.user` is 401; a `usertype` other than "admin" (an absent
      one included) is 403; otherwise `next()`. */
  function AdminGate(user: Option<Document>): (g: Gate)
    ensures user.None? ==> g == Stop(Reply(401, Text("Unauthorized")))
    ensures g.Next? <==> user.Some? && "usertype" in user.value && user.value["usertype"] == Str("admin")
    ensures g.Next? ==> g.user == user.value
    ensures user.Some? && !g.Next? ==> g == Stop(Reply(403, Text("Access denied: Admin only")))
  {
    if user.None? then Stop(Reply(401, Text("Unauthorized")))
    else if "usertype" !in user.value || user.value["usertype"] != Str("admin") then
      Stop(Reply(403, Text("Access denied: Admin only")))
    else Next(user.value)
  }

  /** Records carry `role`, never `usertype`: every user Auth attaches, admins included,
      is refused by the admin gate with 403. */
  lemma AdminGateRefusesEveryAttachedUser(users: map<Oid, User>, header: Option<string>, env: Env, now: Millis)
    ensures Authenticate(users, header, env, now).Next? ==>
      AdminGate(Some(Authenticate(users, header, env, now).user)) == Stop(Reply(403, Text("Access denied: Admin only")))
  {
  }

  /** The route `GET /getalluser`: Auth, then adminMiddleware, then the listing. */
  function GetAllUsersGate(users: map<Oid, User>, header: Option<string>, env: Env, now: Millis): (g: Gate)
    ensures g.Stop?
    ensures Authenticate(users, header, env, now).Next? ==> g.reply.status == 403
  {
    match Authenticate(users, header, env, now)
    case Stop(r) => Stop(r)
    case Next(d) => AdminGateRefusesEveryAttachedUser(users, header, env, now); AdminGate(Some(d))
  }
}
