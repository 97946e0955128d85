/**
 * The account handlers (Controllers/usercontroller.js): signup, signin,
 * updateuser, deleteUser, and the password-reset flow forgotpassword ->
 * verifyOtp -> resetpassword with its one-time passcode (OTP).
 *
 * Handlers that change the store are methods on `Store.Db`; the two that only
 * read it (signin, verifyOtp) are functions of the user collection. The
 * welcome and reset e-mails are sent by a helper that catches every error of
 * its own, so sending never changes a handler's outcome and is left out.
 */
module UserController {
  import opened Wrappers
  import opened Platform
  import opened UserModel
  import opened Store
  import Decimal

  // ------------------------------------------------------------------ bodies

  /** `req.body` of a signup. `unknownKeys` records that the body carries a key the schema does not list. */
  datatype SignupBody = SignupBody(
    username: Option<string>, phone: Option<string>, email: Option<string>,
    password: Option<string>, role: Option<string>, unknownKeys: bool)

  datatype SigninBody = SigninBody(email: Option<string>, password: Option<string>, unknownKeys: bool)

  datatype UpdateBody = UpdateBody(
    username: Option<string>, phone: Option<string>, email: Option<string>,
    password: Option<string>, role: Option<string>, unknownKeys: bool)

  /** A signup body that passed `signupSchema`; the phone is already the stored Number. */
  datatype SignupForm = SignupForm(username: string, phone: nat, email: string, password: string, role: Option<Role>)

  /** An update body that passed `updateSchema`: the fields to overwrite. */
  datatype UpdateForm = UpdateForm(
    username: Option<string>, phone: Option<nat>, email: Option<string>,
    password: Option<string>, role: Option<Role>)

  /** The signup reply's `data`: the new record without its password. */
  datatype UserSummary = UserSummary(id: Oid, username: string, phone: nat, email: string, role: Role)

  /** The password rule of all three schemas: `string().min(6)`, at least six UTF-16
      code units (JavaScript's `length`). */
  predicate PasswordRule(p: string) {
    Utf16Length(p) >= 6
  }

  /** Three emoji outside the Basic Multilingual Plane are six UTF-16 units: a valid password. */
  lemma ThreeAstralCharactersArePassword()
    ensures PasswordRule("\U{1F600}\U{1F600}\U{1F600}")
  {
    assert "\U{1F600}\U{1F600}\U{1F600}"[1..] == "\U{1F600}\U{1F600}";
    assert "\U{1F600}\U{1F600}"[1..] == "\U{1F600}";
  }

  /** The e-mail rule: a non-empty string Joi recognises as an address. */
  predicate EmailRule(isEmail: string -> bool, e: string) {
    |e| > 0 && isEmail(e)
  }

  // -------------------------------------------------------------- validation

  /** `signupSchema.validate`: username, phone, email and password required; role optional
      but, when given, one of the three names; no other key. */
  function CheckSignup(b: SignupBody, isEmail: string -> bool): (r: Option<SignupForm>)
    ensures r.Some? <==>
      && !b.unknownKeys
      && JoiRequired(b.username)
      && b.phone.Some? && ValidPhone(b.phone.value)
      && b.email.Some? && EmailRule(isEmail, b.email.value)
      && b.password.Some? && PasswordRule(b.password.value)
      && (b.role.Some? ==> ParseRole(b.role.value).Some?)
    ensures r.Some? ==>
      && r.value.username == b.username.value
      && r.value.phone == StoredPhone(b.phone.value)
      && r.value.email == b.email.value
      && r.value.password == b.password.value
      && (r.value.role.Some? <==> b.role.Some?)
      && (r.value.role.Some? ==> RoleName(r.value.role.value) == b.role.value)
  {
    if b.unknownKeys || !JoiRequired(b.username) then None
    else if b.phone.None? || !ValidPhone(b.phone.value) then None
    else if b.email.None? || !EmailRule(isEmail, b.email.value) then None
    else if b.password.None? || !PasswordRule(b.password.value) then None
    else if b.role.Some? && ParseRole(b.role.value).None? then None
    else
      var role := if b.role.Some? then ParseRole(b.role.value) else None;
      Some(SignupForm(b.username.value, StoredPhone(b.phone.value), b.email.value, b.password.value, role))
  }

  /** `signinSchema.validate`: an e-mail and a password of at least six characters, no other key. */
  predicate SigninSchemaAccepts(b: SigninBody, isEmail: string -> bool) {
    && !b.unknownKeys
    && b.email.Some? && EmailRule(isEmail, b.email.value)
    && b.password.Some? && PasswordRule(b.password.value)
  }

  /** `updateSchema.validate`: every field optional, each checked by the signup rule when present. */
  function CheckUpdate(b: UpdateBody, isEmail: string -> bool): (r: Option<UpdateForm>)
    ensures r.Some? <==>
      && !b.unknownKeys
      && JoiOptional(b.username)
      && (b.phone.Some? ==> ValidPhone(b.phone.value))
      && (b.email.Some? ==> EmailRule(isEmail, b.email.value))
      && (b.password.Some? ==> PasswordRule(b.password.value))
      && (b.role.Some? ==> ParseRole(b.role.value).Some?)
    ensures r.Some? ==>
      && r.value.username == b.username
      && (r.value.phone.Some? <==> b.phone.Some?)
      && (b.phone.Some? ==> ValidPhone(b.phone.value) && r.value.phone.value == StoredPhone(b.phone.value))
      && r.value.email == b.email
      && r.value.password == b.password
      && (r.value.role.Some? <==> b.role.Some?)
      && (b.role.Some? ==> RoleName(r.value.role.value) == b.role.value)
  {
    if b.unknownKeys || !JoiOptional(b.username) then None
    else if b.phone.Some? && !ValidPhone(b.phone.value) then None
    else if b.email.Some? && !EmailRule(isEmail, b.email.value) then None
    else if b.password.Some? && !PasswordRule(b.password.value) then None
    else if b.role.Some? && ParseRole(b.role.value).None? then None
    else
      var phone := if b.phone.Some? then Some(StoredPhone(b.phone.value)) else None;
      var role := if b.role.Some? then ParseRole(b.role.value) else None;
      Some(UpdateForm(b.username, phone, b.email, b.password, role))
  }

  // ------------------------------------------------------------------ signup

  /** signup: validate, refuse a registered e-mail, hash the password, save, sign a
      7-day token `{ id, role }` with the configuration secret. A body without a
      role passes Joi but fails the model's `required` role when saved. Signing with
      an empty secret throws after the record was saved: the user exists, the reply
      is 500. */
  method Signup(db: Db, env: Env, body: SignupBody, salt: Salt, now: Millis)
    returns (reply: Reply, data: Option<UserSummary>, token: Option<string>)
    requires db.Valid()
    modifies db
    ensures db.Valid()
    ensures db.shops == old(db.shops) && db.items == old(db.items)
    ensures var form := CheckSignup(body, env.isEmail);
      && (form.None? ==> reply == Reply(400, SchemaError))
      && (form.Some? && EmailTaken(old(db.users), form.value.email) ==>
            reply == Reply(400, Text("User Already Exist")))
      && (form.Some? && !EmailTaken(old(db.users), form.value.email) && form.value.role.None? ==>
            reply == Reply(500, Text("Cannot register user")))
    ensures var form := CheckSignup(body, env.isEmail);
      var saved := form.Some? && !EmailTaken(old(db.users), form.value.email) && form.value.role.Some?;
      && (!saved ==> db.users == old(db.users) && db.nextId == old(db.nextId))
      && (saved ==>
            var f := form.value;
            var id := old(db.nextId);
            && id !in old(db.users)
            && db.nextId == id + 1
            && db.users == old(db.users)[id := User(f.username, f.phone, f.email, env.hash(f.password, salt), f.role.value, None, None)])
      && (saved && env.configSecret == "" ==> reply == Reply(500, Text("Cannot register user")))
      && (reply.status == 201 <==> saved && env.configSecret != "")
    ensures reply.status != 201 ==> data.None? && token.None?
    ensures reply.status == 201 ==>
      var id := old(db.nextId);
      var u := db.users[id];
      && reply == Reply(201, Text("User Registered Successfully"))
      && data == Some(UserSummary(id, u.username, u.phone, u.email, u.role))
      && token == Some(env.sign(Claims(id, None, RoleName(u.role)), env.configSecret, now, SignupTokenSeconds))
  {
    data, token := None, None;
    var form := CheckSignup(body, env.isEmail);
    if form.None? {
      return Reply(400, SchemaError), data, token;
    }
    var f := form.value;
    if EmailTaken(db.users, f.email) {
      return Reply(400, Text("User Already Exist")), data, token;
    }
    var digest := env.hash(f.password, salt);
    if f.role.None? {
      return Reply(500, Text("Cannot register user")), data, token;
    }
    var id := db.NewId();
    var u := User(f.username, f.phone, f.email, digest, f.role.value, None, None);
    db.users := db.users[id := u];
    if env.configSecret == "" {
      return Reply(500, Text("Cannot register user")), data, token;
    }
    token := Some(env.sign(Claims(id, None, RoleName(u.role)), env.configSecret, now, SignupTokenSeconds));
    data := Some(UserSummary(id, u.username, u.phone, u.email, u.role));
    reply := Reply(201, Text("User Registered Successfully"));
  }

  // ------------------------------------------------------------------ signin

  /** What signin sends back besides the status: the token, `userID` and `role`. */
  datatype SigninResult = SigninResult(reply: Reply, token: Option<string>, userId: Option<Oid>, role: Option<Role>)

  /** signin: validate, look the e-mail up, sign a 1-day token `{ id, email, role }`
      with `process.env.JWT_SECRET`. The supplied password is validated but never
      compared with the stored digest; signing with an unset or empty secret throws. */
  function Signin(users: map<Oid, User>, env: Env, body: SigninBody, now: Millis): (r: SigninResult)
    requires UniqueEmails(users)
    ensures !SigninSchemaAccepts(body, env.isEmail) ==> r == SigninResult(Reply(400, SchemaError), None, None, None)
    ensures SigninSchemaAccepts(body, env.isEmail) && !EmailTaken(users, body.email.value) ==>
      r == SigninResult(Reply(400, Text("Invalid email or password")), None, None, None)
    ensures SigninSchemaAccepts(body, env.isEmail) && EmailTaken(users, body.email.value) && !Truthy(env.envSecret) ==>
      r == SigninResult(Reply(500, Text("Server error")), None, None, None)
    ensures r.reply.status == 200 <==>
      SigninSchemaAccepts(body, env.isEmail) && EmailTaken(users, body.email.value) && Truthy(env.envSecret)
    ensures r.reply.status == 200 ==>
      && r.userId.Some? && r.userId.value in users
      && var u := users[r.userId.value];
      && u.email == body.email.value
      && r.reply == Reply(200, Text("Loign Successfull"))
      && r.role == Some(u.role)
      && r.token == Some(env.sign(Claims(r.userId.value, Some(u.email), RoleName(u.role)),
                                  env.envSecret.value, now, SigninTokenSeconds))
  {
    if !SigninSchemaAccepts(body, env.isEmail) then
      SigninResult(Reply(400, SchemaError), None, None, None)
    else if !EmailTaken(users, body.email.value) then
      SigninResult(Reply(400, Text("Invalid email or password")), None, None, None)
    else
      var id :| id in users && users[id].email == body.email.value;
      var u := users[id];
      if !Truthy(env.envSecret) then
        SigninResult(Reply(500, Text("Server error")), None, None, None)
      else
        var token := env.sign(Claims(id, Some(u.email), RoleName(u.role)), env.envSecret.value, now, SigninTokenSeconds);
        SigninResult(Reply(200, Text("Loign Successfull")), Some(token), Some(id), Some(u.role))
  }

  /** Once the body passes validation, signin's outcome is the same whatever password it carries. */
  lemma SigninIgnoresPassword(users: map<Oid, User>, env: Env, body: SigninBody, other: string, now: Millis)
    requires UniqueEmails(users)
    requires SigninSchemaAccepts(body, env.isEmail) && PasswordRule(other)
    ensures Signin(users, env, body.(password := Some(other)), now) == Signin(users, env, body, now)
  {
  }

  // -------------------------------------------------------------- updateuser

  /** The record after `findByIdAndUpdate(id, updateData)`: each supplied field is
      overwritten, a supplied password by its digest; nothing else changes. */
  function ApplyUpdate(u: User, f: UpdateForm, env: Env, salt: Salt): (r: User)
    ensures r.username == f.username.GetOr(u.username)
    ensures r.phone == f.phone.GetOr(u.phone)
    ensures r.email == f.email.GetOr(u.email)
    ensures r.password == (if f.password.Some? then env.hash(f.password.value, salt) else u.password)
    ensures r.role == f.role.GetOr(u.role)
    ensures r.resetPasswordOTP == u.resetPasswordOTP && r.resetPasswordExpires == u.resetPasswordExpires
  {
    User(
      f.username.GetOr(u.username),
      f.phone.GetOr(u.phone),
      f.email.GetOr(u.email),
      if f.password.Some? then env.hash(f.password.value, salt) else u.password,
      f.role.GetOr(u.role),
      u.resetPasswordOTP,
      u.resetPasswordExpires)
  }

  /** Some user other than `id` already has this e-mail: the unique index refuses the write. */
  predicate EmailTakenByOther(users: map<Oid, User>, id: Oid, email: string) {
    exists other | other in users :: other != id && users[other].email == email
  }

  /** updateuser: validate, hash a supplied password, then update by id. A malformed
      id makes Mongoose throw a cast error and an e-mail already held by another
      user makes the unique index throw; both reach the catch and give 500. The
      reply's `data` is the whole updated document, password digest included. */
  method UpdateUser(db: Db, env: Env, id: RawId, body: UpdateBody, salt: Salt)
    returns (reply: Reply, data: Option<Document>)
    requires db.Valid()
    modifies db
    ensures db.Valid()
    ensures db.shops == old(db.shops) && db.items == old(db.items) && db.nextId == old(db.nextId)
    ensures var form := CheckUpdate(body, env.isEmail);
      && (form.None? ==> reply == Reply(400, SchemaError))
      && (form.Some? && id.NotAnObjectId? ==> reply == Reply(500, Text("Server error")))
      && (form.Some? && id.ObjectId? && id.oid !in old(db.users) ==> reply == Reply(404, Text("User not found")))
      && (form.Some? && id.ObjectId? && id.oid in old(db.users) && form.value.email.Some?
            && EmailTakenByOther(old(db.users), id.oid, form.value.email.value) ==>
            reply == Reply(500, Text("Server error")))
    ensures reply.status == 200 <==>
      var form := CheckUpdate(body, env.isEmail);
      && form.Some? && id.ObjectId? && id.oid in old(db.users)
      && (form.value.email.Some? ==> !EmailTakenByOther(old(db.users), id.oid, form.value.email.value))
    ensures reply.status != 200 ==> db.users == old(db.users) && data.None?
    ensures reply.status == 200 ==>
      var u := ApplyUpdate(old(db.users)[id.oid], CheckUpdate(body, env.isEmail).value, env, salt);
      && reply == Reply(200, Text("User updated successfully"))
      && db.users == old(db.users)[id.oid := u]
      && data == Some(UserDocument(id.oid, u))
  {
    data := None;
    var form := CheckUpdate(body, env.isEmail);
    if form.None? {
      return Reply(400, SchemaError), data;
    }
    var f := form.value;
    if id.NotAnObjectId? {
      return Reply(500, Text("Server error")), data;
    }
    if id.oid !in db.users {
      return Reply(404, Text("User not found")), data;
    }
    if f.email.Some? && EmailTakenByOther(db.users, id.oid, f.email.value) {
      return Reply(500, Text("Server error")), data;
    }
    var u := ApplyUpdate(db.users[id.oid], f, env, salt);
    db.users := db.users[id.oid := u];
    data := Some(UserDocument(id.oid, u));
    reply := Reply(200, Text("User updated successfully"));
  }

  // -------------------------------------------------------------- deleteUser

  /** deleteUser: remove the record by id. A malformed id is a cast error (500). Shops
      the user owned are left in place, still naming the removed id as owner. */
  method DeleteUser(db: Db, id: RawId) returns (reply: Reply)
    requires db.Valid()
    modifies db
    ensures db.Valid()
    ensures db.shops == old(db.shops) && db.items == old(db.items) && db.nextId == old(db.nextId)
    ensures id.NotAnObjectId? ==> reply == Reply(500, Text("Server error"))
    ensures id.ObjectId? && id.oid !in old(db.users) ==> reply == Reply(404, Text("User not found"))
    ensures reply.status == 200 <==> id.ObjectId? && id.oid in old(db.users)
    ensures reply.status == 200 ==>
      reply == Reply(200, Text("User deleted successfully")) && db.users == old(db.users) - {id.oid}
    ensures reply.status != 200 ==> db.users == old(db.users)
  {
    if id.NotAnObjectId? {
      return Reply(500, Text("Server error"));
    }
    if id.oid !in db.users {
      return Reply(404, Text("User not found"));
    }
    db.users := db.users - {id.oid};
    reply := Reply(200, Text("User deleted successfully"));
  }

  // ---------------------------------------------------------- the OTP state

  /** Ten minutes, the lifetime of a reset code. */
  const OtpLifetime: int := 10 * 60 * 1000

  /** generateOTP: scale a random draw in [0, 1) to the range 100000..999999, round
      down and print in decimal. The draw is the parameter `draw`. */
  function GenerateOtp(draw: real): (otp: string)
    requires 0.0 <= draw < 1.0
    ensures |otp| == 6 && Decimal.AllDigits(otp) && otp[0] != '0'
    ensures 100000 <= Decimal.Value(otp) <= 999999
  {
    var n := 100000 + (draw * 900000.0).Floor;
    SixDigitsRender(n);
    Decimal.Render(n)
  }

  /** Every number from 100000 to 999999 prints as six digits. */
  lemma SixDigitsRender(n: nat)
    requires 100000 <= n <= 999999
    ensures |Decimal.Render(n)| == 6
  {
    var s := Decimal.Render(n);
    assert Decimal.Pow10(5) == 100000 && Decimal.Pow10(6) == 1000000;
    if |s| < 6 {
      Decimal.Pow10Monotone(|s|, 5);
    } else if |s| > 6 {
      Decimal.Pow10Monotone(6, |s| - 1);
    }
  }

  /** The store after forgotpassword stored `code` on user `id` at time `now`. */
  function IssueOtp(users: map<Oid, User>, id: Oid, code: string, now: Millis): (r: map<Oid, User>)
    requires id in users
    ensures r.Keys == users.Keys
  {
    users[id := users[id].(resetPasswordOTP := Some(code), resetPasswordExpires := Some(now + OtpLifetime))]
  }

  /** The store after resetpassword replaced user `id`'s password by `digest` and cleared the code. */
  function ConsumeOtp(users: map<Oid, User>, id: Oid, digest: string): (r: map<Oid, User>)
    requires id in users
    ensures r.Keys == users.Keys
  {
    users[id := users[id].(password := digest, resetPasswordOTP := None, resetPasswordExpires := None)]
  }

  /** Issuing and consuming a code keep e-mails unique and the two reset fields paired. */
  lemma OtpUpdatesKeepInvariants(users: map<Oid, User>, id: Oid, code: string, now: Millis, digest: string)
    requires id in users && UniqueEmails(users) && OtpPaired(users)
    ensures UniqueEmails(IssueOtp(users, id, code, now)) && OtpPaired(IssueOtp(users, id, code, now))
    ensures UniqueEmails(ConsumeOtp(users, id, digest)) && OtpPaired(ConsumeOtp(users, id, digest))
  {
    var issued, consumed := IssueOtp(users, id, code, now), ConsumeOtp(users, id, digest);
    assert forall j | j in users :: issued[j].email == users[j].email && consumed[j].email == users[j].email;
  }

  /** The query `{ email, resetPasswordOTP: otp, resetPasswordExpires: { $gt: now } }` finds a user. */
  function OtpMatches(users: map<Oid, User>, email: string, otp: string, now: Millis): (m: bool)
    ensures m ==> EmailTaken(users, email)
  {
    exists id | id in users ::
      && users[id].email == email
      && users[id].resetPasswordOTP == Some(otp)
      && users[id].resetPasswordExpires.Some?
      && users[id].resetPasswordExpires.value > now
  }

  /** With unique e-mails the reset query decides on one record: it matches exactly when
      that user's stored code is `otp` and its expiry is strictly after `now`. */
  lemma OtpQueryReadsOneUser(users: map<Oid, User>, id: Oid, otp: string, now: Millis)
    requires UniqueEmails(users) && id in users
    ensures OtpMatches(users, users[id].email, otp, now) <==>
      users[id].resetPasswordOTP == Some(otp) && users[id].resetPasswordExpires.Some? && users[id].resetPasswordExpires.value > now
  {
  }

  /** After a code is issued at `t0`, a query for that user's e-mail matches exactly the
      new code, and only strictly before `t0 + 600000`: an earlier code no longer works. */
  lemma {:induction false} IssuedOtpWindow(users: map<Oid, User>, id: Oid, code: string, t0: Millis, otp: string, t: Millis)
    requires UniqueEmails(users) && id in users
    ensures OtpMatches(IssueOtp(users, id, code, t0), users[id].email, otp, t) <==> otp == code && t < t0 + OtpLifetime
  {
    var after := IssueOtp(users, id, code, t0);
    if otp == code && t < t0 + OtpLifetime {
      assert after[id].email == users[id].email;
    }
    if OtpMatches(after, users[id].email, otp, t) {
      var j :| j in after && after[j].email == users[id].email && after[j].resetPasswordOTP == Some(otp)
               && after[j].resetPasswordExpires.Some? && after[j].resetPasswordExpires.value > t;
      if j != id {
        assert users[j].email == users[id].email;
      }
    }
  }

  /** Issuing a code for one user leaves every query for another e-mail as it was. */
  lemma IssueOtpLeavesOthers(users: map<Oid, User>, id: Oid, code: string, t0: Millis, email: string, otp: string, t: Millis)
    requires id in users && email != users[id].email
    ensures OtpMatches(IssueOtp(users, id, code, t0), email, otp, t) == OtpMatches(users, email, otp, t)
  {
    var after := IssueOtp(users, id, code, t0);
    if OtpMatches(users, email, otp, t) {
      var j :| j in users && users[j].email == email && users[j].resetPasswordOTP == Some(otp)
               && users[j].resetPasswordExpires.Some? && users[j].resetPasswordExpires.value > t;
      assert after[j] == users[j];
    }
  }

  /** A consumed code is single-use: after a reset, no code matches that user's e-mail at any time. */
  lemma {:induction false} ConsumedOtpNeverMatches(users: map<Oid, User>, id: Oid, digest: string, otp: string, t: Millis)
    requires UniqueEmails(users) && id in users
    ensures !OtpMatches(ConsumeOtp(users, id, digest), users[id].email, otp, t)
  {
  }

  // ---------------------------------------------------------- forgotpassword

  /** forgotpassword: look the e-mail up and store a fresh code with its expiry,
      overwriting any earlier code. */
  method ForgotPassword(db: Db, email: string, draw: real, now: Millis) returns (reply: Reply)
    requires db.Valid()
    requires 0.0 <= draw < 1.0
    modifies db
    ensures db.Valid()
    ensures db.shops == old(db.shops) && db.items == old(db.items) && db.nextId == old(db.nextId)
    ensures !EmailTaken(old(db.users), email) ==>
      reply == Reply(404, Text("User not found")) && db.users == old(db.users)
    ensures EmailTaken(old(db.users), email) ==>
      && reply == Reply(200, Text("OTP sent to email"))
      && forall id | id in old(db.users) && old(db.users)[id].email == email ::
           db.users == IssueOtp(old(db.users), id, GenerateOtp(draw), now)
  {
    if !EmailTaken(db.users, email) {
      return Reply(404, Text("User not found"));
    }
    var id :| id in db.users && db.users[id].email == email;
    var otp := GenerateOtp(draw);
    OtpUpdatesKeepInvariants(db.users, id, otp, now, "");
    db.users := IssueOtp(db.users, id, otp, now);
    reply := Reply(200, Text("OTP sent to email"));
  }

  // --------------------------------------------------------------- verifyOtp

  /** verifyOtp: both fields must be truthy; then the match query decides. Read-only. */
  function VerifyOtp(users: map<Oid, User>, email: Option<string>, otp: Option<string>, now: Millis): (reply: Reply)
    ensures !Truthy(email) || !Truthy(otp) ==> reply == Reply(400, Text("Email and OTP are required"))
    ensures reply.status == 200 <==> Truthy(email) && Truthy(otp) && OtpMatches(users, email.value, otp.value, now)
    ensures reply.status == 200 ==> reply.message == Text("OTP verified successfully")
    ensures Truthy(email) && Truthy(otp) && !OtpMatches(users, email.value, otp.value, now) ==>
      reply == Reply(400, Text("Invalid or expired OTP"))
  {
    if !Truthy(email) || !Truthy(otp) then Reply(400, Text("Email and OTP are required"))
    else if !OtpMatches(users, email.value, otp.value, now) then Reply(400, Text("Invalid or expired OTP"))
    else Reply(200, Text("OTP verified successfully"))
  }

  // ----------------------------------------------------------- resetpassword

  /** resetpassword: the same match as verifyOtp, then the password becomes the digest of the
      new one and both reset fields are cleared, so the code cannot be used again. The new
      password is only required to be non-empty; the six-character rule is not applied. */
  method ResetPassword(db: Db, env: Env, email: Option<string>, otp: Option<string>, password: Option<string>,
                       salt: Salt, now: Millis) returns (reply: Reply)
    requires db.Valid()
    modifies db
    ensures db.Valid()
    ensures db.shops == old(db.shops) && db.items == old(db.items) && db.nextId == old(db.nextId)
    ensures !Truthy(email) || !Truthy(otp) || !Truthy(password) ==>
      reply == Reply(400, Text("Email, OTP, and password are required"))
    ensures Truthy(email) && Truthy(otp) && Truthy(password) && !OtpMatches(old(db.users), email.value, otp.value, now) ==>
      reply == Reply(400, Text("Invalid or expired OTP"))
    ensures reply.status == 200 <==>
      Truthy(email) && Truthy(otp) && Truthy(password) && OtpMatches(old(db.users), email.value, otp.value, now)
    ensures reply.status != 200 ==> db.users == old(db.users)
    ensures reply.status == 200 ==>
      && reply == Reply(200, Text("Password reset successful"))
      && (forall id | id in old(db.users) && old(db.users)[id].email == email.value ::
            db.users == ConsumeOtp(old(db.users), id, env.hash(password.value, salt)))
      && (forall code, t :: !OtpMatches(db.users, email.value, code, t))
  {
    if !Truthy(email) || !Truthy(otp) || !Truthy(password) {
      return Reply(400, Text("Email, OTP, and password are required"));
    }
    if !OtpMatches(db.users, email.value, otp.value, now) {
      return Reply(400, Text("Invalid or expired OTP"));
    }
    var id :| id in db.users && db.users[id].email == email.value && db.users[id].resetPasswordOTP == Some(otp.value)
              && db.users[id].resetPasswordExpires.Some? && db.users[id].resetPasswordExpires.value > now;
    ghost var before := db.users;
    OtpUpdatesKeepInvariants(db.users, id, otp.value, now, env.hash(password.value, salt));
    db.users := ConsumeOtp(db.users, id, env.hash(password.value, salt));
    forall code, t ensures !OtpMatches(db.users, email.value, code, t) {
      ConsumedOtpNeverMatches(before, id, env.hash(password.value, salt), code, t);
    }
    reply := Reply(200, Text("Password reset successful"));
  }
}
