/**
 * How the tokens minted by signup and signin fare at the authentication gate,
 * under the laws of an honest jsonwebtoken (`HonestCodec`). Signup signs with
 * the configuration secret, signin with `process.env.JWT_SECRET`, and the gate
 * verifies with the configuration secret.
 */
module Sessions {
  import opened Wrappers
  import opened Platform
  import opened UserModel
  import opened RequireAuth

  /** A signup token, sent as a bearer header before its `exp`, lets its user in for as long
      as the record exists; the attached record is the live one, not the token's claims. */
  lemma SignupTokenAuthenticates(users: map<Oid, User>, env: Env, id: Oid, role: string, issued: Millis, now: Millis)
    requires HonestCodec(env) && env.configSecret != "" && id in users
    requires now / 1000 < ExpiresAt(issued, SignupTokenSeconds)
    ensures var token := env.sign(Claims(id, None, role), env.configSecret, issued, SignupTokenSeconds);
      Authenticate(users, Some("Bearer " + token), env, now) == Next(AttachedUser(id, users[id]))
  {
    var token := env.sign(Claims(id, None, role), env.configSecret, issued, SignupTokenSeconds);
    assert TokenShaped(token);
    BearerRoundTrip(token, None);
    assert "Bearer " + token + "" == "Bearer " + token;
  }

  /** From its `exp` on, the same token is refused as expired. */
  lemma SignupTokenExpires(users: map<Oid, User>, env: Env, id: Oid, role: string, issued: Millis, now: Millis)
    requires HonestCodec(env) && env.configSecret != ""
    requires now / 1000 >= ExpiresAt(issued, SignupTokenSeconds)
    ensures var token := env.sign(Claims(id, None, role), env.configSecret, issued, SignupTokenSeconds);
      Authenticate(users, Some("Bearer " + token), env, now) == Stop(Reply(401, Text("Token expired. Please login again")))
  {
    var token := env.sign(Claims(id, None, role), env.configSecret, issued, SignupTokenSeconds);
    assert TokenShaped(token);
    BearerRoundTrip(token, None);
    assert "Bearer " + token + "" == "Bearer " + token;
  }

  /** Deleting an account locks out every unexpired token for it: the gate re-reads the user. */
  lemma DeletedUserLockedOut(users: map<Oid, User>, env: Env, claims: Claims, issued: Millis, ttl: nat, now: Millis)
    requires HonestCodec(env) && env.configSecret != "" && claims.id !in users
    requires now / 1000 < ExpiresAt(issued, ttl)
    ensures var token := env.sign(claims, env.configSecret, issued, ttl);
      Authenticate(users, Some("Bearer " + token), env, now) == Stop(Reply(401, Text("User not found")))
  {
    var token := env.sign(claims, env.configSecret, issued, ttl);
    assert TokenShaped(token);
    BearerRoundTrip(token, None);
    assert "Bearer " + token + "" == "Bearer " + token;
  }

  /** A signin token passes the gate only if `process.env.JWT_SECRET` equals the
      configuration secret: with two different secrets it is always "Invalid token";
      with the same secret it lets its user in until it expires. */
  lemma SigninTokenNeedsSharedSecret(users: map<Oid, User>, env: Env, claims: Claims, issued: Millis, now: Millis)
    requires HonestCodec(env) && Truthy(env.envSecret)
    ensures var token := env.sign(claims, env.envSecret.value, issued, SigninTokenSeconds);
      var g := Authenticate(users, Some("Bearer " + token), env, now);
      && (env.envSecret.value != env.configSecret ==> g == Stop(Reply(401, Text("Invalid token"))))
      && (env.envSecret.value == env.configSecret && claims.id in users && now / 1000 < ExpiresAt(issued, SigninTokenSeconds) ==>
            g == Next(AttachedUser(claims.id, users[claims.id])))
  {
    var token := env.sign(claims, env.envSecret.value, issued, SigninTokenSeconds);
    assert TokenShaped(token);
    BearerRoundTrip(token, None);
    assert "Bearer " + token + "" == "Bearer " + token;
  }

  /** With an empty configuration secret the gate verifies nothing: every request that
      carries a token is refused as "Invalid token". */
  lemma EmptyConfigSecretAdmitsNobody(users: map<Oid, User>, env: Env, header: Option<string>, now: Millis)
    requires HonestCodec(env) && env.configSecret == ""
    ensures Authenticate(users, header, env, now).Stop?
    ensures Truthy(header) && ExtractToken(header.value) != "" ==>
      Authenticate(users, header, env, now) == Stop(Reply(401, Text("Invalid token")))
  {
  }
}
