/**
 * The user record (Models/usermodel.js) and the field rules the user
 * controller's Joi schemas apply to it.
 */
module UserModel {
  import opened Wrappers
  import opened Platform
  import Decimal

  /** The `role` enum: "user", "shop", "admin". */
  datatype Role = UserRole | ShopRole | AdminRole

  function RoleName(r: Role): string {
    match r
    case UserRole => "user"
    case ShopRole => "shop"
    case AdminRole => "admin"
  }

  /** Joi's `valid("user", "shop", "admin")` and Mongoose's enum check: exactly the three names. */
  function ParseRole(s: string): (r: Option<Role>)
    ensures r.Some? <==> s in {"user", "shop", "admin"}
    ensures r.Some? ==> RoleName(r.value) == s
  {
    if s == "user" then Some(UserRole)
    else if s == "shop" then Some(ShopRole)
    else if s == "admin" then Some(AdminRole)
    else None
  }

  /** Every role's name parses back to that role. */
  lemma ParseRoleName(r: Role)
    ensures ParseRole(RoleName(r)) == Some(r)
  {
  }

  /** A stored user. Every field but the two reset fields is required; the password
      field holds whatever the controller put there (a bcrypt digest); the phone is a
      Number, not the string that was validated. */
  datatype User = User(
    username: string,
    phone: nat,
    email: string,
    password: string,
    role: Role,
    resetPasswordOTP: Option<string>,
    resetPasswordExpires: Option<Millis>)

  /** `email` is declared `unique`: no two stored users share one. */
  ghost predicate UniqueEmails(users: map<Oid, User>) {
    forall a, b | a in users && b in users && users[a].email == users[b].email :: a == b
  }

  /** Some stored user has this e-mail (`User.findOne({ email })` finds a record). */
  predicate EmailTaken(users: map<Oid, User>, email: string) {
    exists id | id in users :: users[id].email == email
  }

  /** The reset fields are set together and cleared together by the controller. */
  ghost predicate OtpPaired(users: map<Oid, User>) {
    forall id | id in users :: users[id].resetPasswordOTP.Some? <==> users[id].resetPasswordExpires.Some?
  }

  /** The phone rule `/^[0-9]{10}$/`: exactly ten ASCII digits. */
  predicate ValidPhone(p: string) {
    |p| == 10 && Decimal.AllDigits(p)
  }

  /** Mongoose's cast of a validated phone string to the schema's `Number`. */
  function StoredPhone(p: string): (n: nat)
    requires ValidPhone(p)
    ensures n < 10000000000
  {
    Decimal.Value(p)
  }

  /** Storing the phone as a Number loses nothing but a leading zero: the stored
      number reads back as the submitted string exactly when that string does not
      start with '0'. */
  lemma {:induction false} PhoneReadBack(p: string)
    requires ValidPhone(p)
    ensures Decimal.Render(StoredPhone(p)) == p <==> p[0] != '0'
  {
    Decimal.RenderValueRoundTrip(p);
  }

  /** Two different valid phones are stored as two different numbers. */
  lemma {:induction false} StoredPhoneInjective(p: string, q: string)
    requires ValidPhone(p) && ValidPhone(q) && p != q
    ensures StoredPhone(p) != StoredPhone(q)
  {
    if StoredPhone(p) == StoredPhone(q) {
      Decimal.ValueInjective(p, q);
    }
  }

  /** The record as Mongoose returns it: every present field under its schema name.
      The two reset fields appear only when set. */
  function UserDocument(id: Oid, u: User): (d: Document)
    ensures d.Keys == {"_id", "username", "phone", "email", "password", "role"}
                      + (if u.resetPasswordOTP.Some? then {"resetPasswordOTP"} else {})
                      + (if u.resetPasswordExpires.Some? then {"resetPasswordExpires"} else {})
  {
    var base := map["_id" := Ref(id), "username" := Str(u.username), "phone" := Num(u.phone),
                     "email" := Str(u.email), "password" := Str(u.password),
                     "role" := Str(RoleName(u.role))];
    var withOtp := if u.resetPasswordOTP.Some? then base["resetPasswordOTP" := Str(u.resetPasswordOTP.value)] else base;
    if u.resetPasswordExpires.Some? then withOtp["resetPasswordExpires" := Num(u.resetPasswordExpires.value)] else withOtp
  }

  /** `.select("-password")`: the document without its password field. */
  function WithoutPassword(d: Document): (r: Document)
    ensures r.Keys == d.Keys - {"password"}
    ensures forall k | k in r :: r[k] == d[k]
  {
    d - {"password"}
  }
}
