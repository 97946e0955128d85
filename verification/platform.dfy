/**
 * The collaborators every handler relies on but does not implement: object ids,
 * HTTP replies, uploaded files, bcrypt, jsonwebtoken, Joi's e-mail rule and the
 * two places a JWT secret is read from. Hashing, signing, verifying and the
 * e-mail rule are carried as function-valued fields of `Env`, so the model
 * assumes nothing about them beyond what a lemma states in its `requires`.
 */
module Platform {
  import opened Wrappers

  /** A MongoDB ObjectId. The store hands them out in increasing order. */
  type Oid = nat

  /** An id as it arrives in a route parameter or a body field: either something
      `ObjectId.isValid` accepts (and Mongoose can cast), or not. */
  datatype RawId = ObjectId(oid: Oid) | NotAnObjectId

  /** A bcrypt salt: the random part of `bcrypt.hash(password, 10)`. */
  type Salt = nat

  /** Milliseconds since the epoch, as `Date.now()` returns them. */
  type Millis = int

  /** The message of a JSON reply. `Text` is a literal written in the handler,
      `SchemaError` is Joi's `error.details[0].message` (or `error.message`) and
      `ExceptionText` is `err.message` of an exception caught by a handler;
      `NoMessage` is a reply whose body has no `message` field. */
  datatype Msg = Text(text: string) | SchemaError | ExceptionText | NoMessage

  /** What a handler sends: an HTTP status and a message. */
  datatype Reply = Reply(status: nat, message: Msg)

  /** A file stored by the upload middleware; `req.file.path`. */
  datatype Upload = Upload(path: string)

  /** The payload put into a JWT: `{ id, role }` at signup, `{ id, email, role }` at signin.
      The role travels as its schema name ("user", "shop" or "admin"). */
  datatype Claims = Claims(id: Oid, email: Option<string>, role: string)

  /** A field value of a stored document, as Mongoose hands it back. */
  datatype Value = Str(s: string) | Num(n: int) | Ref(id: Oid)

  /** A stored document: field name to value. `req.user` is one of these. */
  type Document = map<string, Value>

  /** How `jwt.verify` ends: the decoded payload, a `TokenExpiredError`, or any other error. */
  datatype Verdict = Decoded(claims: Claims) | Expired | Invalid

  /** Process configuration and library collaborators.
      - `configSecret`: `JWT_SECRET` exported by the configuration module;
      - `envSecret`: `process.env.JWT_SECRET`, which may be unset;
      - `hash(p, salt)`: `bcrypt.hash(p, 10)` with the salt drawn for that call;
      - `sign(claims, secret, now, ttlSeconds)`: `jwt.sign` at time `now`, for a
        non-empty secret (callers answer an empty one as the exception it raises);
      - `verify(token, secret, now)`: `jwt.verify` at time `now`;
      - `isEmail(s)`: Joi's `string().email()` rule. */
  datatype Env = Env(
    configSecret: string,
    envSecret: Option<string>,
    hash: (string, Salt) -> string,
    sign: (Claims, string, Millis, nat) -> string,
    verify: (string, string, Millis) -> Verdict,
    isEmail: string -> bool)

  /** `expiresIn: "7d"` and `expiresIn: "1d"`, in seconds as jsonwebtoken counts them. */
  const SignupTokenSeconds: nat := 7 * 24 * 60 * 60
  const SigninTokenSeconds: nat := 24 * 60 * 60

  /** The `exp` claim jsonwebtoken writes: `iat`, the issue time rounded down to whole
      seconds, plus the lifetime. */
  function ExpiresAt(issuedAt: Millis, ttlSeconds: nat): (exp: int)
    ensures (exp - ttlSeconds) * 1000 <= issuedAt < (exp - ttlSeconds + 1) * 1000
  {
    issuedAt / 1000 + ttlSeconds
  }

  /** A token jsonwebtoken would emit: non-empty, and without spaces (three base64url
      segments joined by dots). */
  predicate TokenShaped(t: string) {
    |t| > 0 && ' ' !in t
  }

  /** The laws of an honest signer/verifier pair, as jsonwebtoken provides them.
      Signing needs a non-empty secret (`jwt.sign` throws on an empty one). For a
      non-empty secret, a token verifies under that secret until `exp` (checked in
      whole seconds), is reported expired from then on, is invalid under any other
      secret, and has the shape of a compact JWT. Verifying with an empty secret
      always fails as invalid. */
  ghost predicate HonestCodec(env: Env) {
    && (forall c, k, t0, ttl, t | k != "" ::
          t / 1000 < ExpiresAt(t0, ttl) ==> env.verify(env.sign(c, k, t0, ttl), k, t) == Decoded(c))
    && (forall c, k, t0, ttl, t | k != "" ::
          t / 1000 >= ExpiresAt(t0, ttl) ==> env.verify(env.sign(c, k, t0, ttl), k, t) == Expired)
    && (forall c, k, k', t0, ttl, t | k != "" ::
          k' != k ==> env.verify(env.sign(c, k, t0, ttl), k', t) == Invalid)
    && (forall token, t :: env.verify(token, "", t) == Invalid)
    && (forall c, k, t0, ttl | k != "" :: TokenShaped(env.sign(c, k, t0, ttl)))
  }

  /** How many UTF-16 code units JavaScript stores for one character: two for a
      character outside the Basic Multilingual Plane, one otherwise. */
  function Utf16Units(c: char): (n: nat)
    ensures n == 1 || n == 2
  {
    if c as int >= 0x1_0000 then 2 else 1
  }

  /** A string's JavaScript `length`, which Joi's `min(n)` compares: its UTF-16 code
      units. It equals the number of characters exactly when every character lies in
      the Basic Multilingual Plane. */
  function Utf16Length(s: string): (n: nat)
    ensures |s| <= n <= 2 * |s|
    ensures n == |s| <==> forall i | 0 <= i < |s| :: s[i] as int < 0x1_0000
  {
    if s == [] then 0
    else
      var rest := Utf16Length(s[1..]);
      assert forall i | 1 <= i < |s| :: s[i] == s[1..][i - 1];
      Utf16Units(s[0]) + rest
  }

  /** Joi's `string()` on an optional field: when present, a string other than "". */
  predicate JoiOptional(f: Option<string>) {
    f.None? || |f.value| > 0
  }

  /** Joi's `string().required()`: present and not "". */
  predicate JoiRequired(f: Option<string>) {
    f.Some? && |f.value| > 0
  }

  /** JavaScript truthiness of a body field that is a string or undefined. */
  predicate Truthy(f: Option<string>) {
    f.Some? && f.value != ""
  }
}
