/** The login handler `RetrieveTokenView.post` of app/common/views.py: body and form
    validation, the credential check (the same 401 for an unknown username and a
    wrong password), and the two token payloads with their expiry times. Password
    checking and token encoding are library code, given as abstract functions. */
module TokenView {
  import opened Base
  import opened Accounts
  import opened Forms
  import opened Responses
  import opened TokenTypes

  /** The expiry settings. `refreshTokenExpiryHours` keeps the source's name; the
      handler uses it as a number of days. */
  datatype Config = Config(accessTokenExpiryMinutes: nat, refreshTokenExpiryHours: nat)

  const SECONDS_PER_MINUTE := 60
  const SECONDS_PER_DAY := 86400

  const INVALID_CREDENTIALS := "Invalid credentials"

  /** The start of the message of the exception `objects.get` raises when several
      users share the username. */
  const MULTIPLE_USERS := "get() returned more than one CustomUser"

  /** The access token expires `accessTokenExpiryMinutes` minutes after `now` (seconds). */
  function AccessExpiry(config: Config, now: int): int {
    now + config.accessTokenExpiryMinutes * SECONDS_PER_MINUTE
  }

  /** The refresh token expires `refreshTokenExpiryHours` DAYS after `now`. */
  function RefreshExpiry(config: Config, now: int): int {
    now + config.refreshTokenExpiryHours * SECONDS_PER_DAY
  }

  /** The access payload: user id, username, expiry and the "access" tag. */
  function AccessPayload(user: User, exp: int): JsonObject {
    map["user_id" := JInt(user.id), "username" := JString(user.username), "exp" := JInt(exp), "type" := JString(ACCESS_TYPE)]
  }

  /** The refresh payload: user id, expiry and the "refresh" tag, but no username. */
  function RefreshPayload(user: User, exp: int): JsonObject {
    map["user_id" := JInt(user.id), "exp" := JInt(exp), "type" := JString(REFRESH_TYPE)]
  }

  lemma SingletonHasMember(ids: set<UserId>)
    requires |ids| == 1
    ensures exists id :: id in ids
  {
    if forall id :: id !in ids {
      assert false;
    }
  }

  lemma SingletonIsDisplay(ids: set<UserId>)
    requires |ids| == 1
    ensures exists id :: ids == {id}
  {
    SingletonHasMember(ids);
    var id :| id in ids;
    assert |ids - {id}| == 0;
    assert ids == {id};
  }

  /** The only member of a one-element set. */
  function TheOnly(ids: set<UserId>): (id: UserId)
    requires |ids| == 1
    ensures ids == {id}
  {
    SingletonIsDisplay(ids);
    var id :| ids == {id};
    id
  }

  /** `RetrieveTokenView.post`. `now` is the clock reading in seconds; `checkPassword`
      stands for `CustomUser.check_password` against the stored hash, `encode` for
      `jwt.encode` with the configured secret and algorithm. */
  function RetrieveToken(body: Option<JsonObject>, users: map<UserId, User>, fields: FieldRules,
                         checkPassword: (string, string) -> bool, encode: JsonObject -> string,
                         config: Config, now: int): (resp: Response)
    requires UsersKeyed(users)
    ensures resp.status in {200, 400, 401, 500}
    ensures resp.status == 400 <==> body.None? || RetrieveTokenForm(body.value, fields).LoginInvalid?
    ensures body.None? ==> resp == Response(400, ErrorMessage(INVALID_JSON))
    ensures body.Some? && RetrieveTokenForm(body.value, fields).LoginInvalid? ==>
              resp == Response(400, FieldErrors(RetrieveTokenForm(body.value, fields).errors))
    ensures resp.status == 401 ==> resp == Response(401, ErrorMessage(INVALID_CREDENTIALS))
    ensures resp.status == 200 ==>
              && resp.body.Tokens?
              && resp.body.userId in users
              && var user := users[resp.body.userId];
              && body.Some? && RetrieveTokenForm(body.value, fields) == LoginValid(user.username, RetrieveTokenForm(body.value, fields).password)
              && UsersNamed(users, user.username) == {user.id}
              && checkPassword(RetrieveTokenForm(body.value, fields).password, user.password)
              && resp.body.username == user.username
              && resp.body.access == encode(AccessPayload(user, AccessExpiry(config, now)))
              && resp.body.refresh == encode(RefreshPayload(user, RefreshExpiry(config, now)))
    ensures resp.status == 500 ==>
              && resp == Response(500, ErrorMessage(MULTIPLE_USERS))
              && body.Some? && RetrieveTokenForm(body.value, fields).LoginValid?
              && |UsersNamed(users, RetrieveTokenForm(body.value, fields).username)| > 1
  {
    if body.None? then
      Response(400, ErrorMessage(INVALID_JSON))
    else
      match RetrieveTokenForm(body.value, fields)
      case LoginInvalid(errors) =>
        Response(400, FieldErrors(errors))
      case LoginValid(username, password) =>
        var named := UsersNamed(users, username);
        if named == {} then
          Response(401, ErrorMessage(INVALID_CREDENTIALS))
        else if |named| > 1 then
          Response(500, ErrorMessage(MULTIPLE_USERS))
        else
          var user := users[TheOnly(named)];
          if !checkPassword(password, user.password) then
            Response(401, ErrorMessage(INVALID_CREDENTIALS))
          else
            Response(200, Tokens(
              encode(AccessPayload(user, AccessExpiry(config, now))),
              encode(RefreshPayload(user, RefreshExpiry(config, now))),
              user.username,
              user.id))
  }

  /** A valid form naming exactly one user, whose password checks, gets 200 with
      that user's tokens. */
  lemma SoleMatchingUserGetsTokens(
    body: Option<JsonObject>, users: map<UserId, User>, fields: FieldRules,
    checkPassword: (string, string) -> bool, encode: JsonObject -> string, config: Config, now: int, id: UserId)
    requires UsersKeyed(users)
    requires body.Some? && RetrieveTokenForm(body.value, fields).LoginValid?
    requires UsersNamed(users, RetrieveTokenForm(body.value, fields).username) == {id}
    requires checkPassword(RetrieveTokenForm(body.value, fields).password, users[id].password)
    ensures var resp := RetrieveToken(body, users, fields, checkPassword, encode, config, now);
            resp.status == 200 && resp.body.userId == id && resp.body.username == users[id].username
  {
    var named := UsersNamed(users, RetrieveTokenForm(body.value, fields).username);
    assert TheOnly(named) in named;
  }

  /** What a successful login's tokens carry, once decoded by a library that reads
      back what it signed: the access token names the user and the username, is of
      type "access" and expires the configured minutes after `now`; the refresh token
      names the user but not the username, is of type "refresh" and expires the
      hours setting, counted as days, after `now`. */
  lemma IssuedTokenPayloads(
    body: Option<JsonObject>, users: map<UserId, User>, fields: FieldRules,
    checkPassword: (string, string) -> bool, encode: JsonObject -> string, config: Config, now: int,
    decode: string -> Decoded)
    requires UsersKeyed(users)
    requires RetrieveToken(body, users, fields, checkPassword, encode, config, now).status == 200
    requires forall p :: decode(encode(p)) == Decoded(p)
    ensures var tokens := RetrieveToken(body, users, fields, checkPassword, encode, config, now).body;
            && decode(tokens.access).Decoded?
            && decode(tokens.refresh).Decoded?
            && var access := decode(tokens.access).payload;
            && var refresh := decode(tokens.refresh).payload;
            && access.Keys == {"user_id", "username", "exp", "type"}
            && access["user_id"] == JInt(tokens.userId) && access["username"] == JString(tokens.username)
            && access["type"] == JString(ACCESS_TYPE)
            && access["exp"] == JInt(now + config.accessTokenExpiryMinutes * 60)
            && refresh.Keys == {"user_id", "exp", "type"}
            && "username" !in refresh
            && refresh["user_id"] == JInt(tokens.userId) && refresh["type"] == JString(REFRESH_TYPE)
            && refresh["exp"] == JInt(now + config.refreshTokenExpiryHours * 86400)
  {
    var tokens := RetrieveToken(body, users, fields, checkPassword, encode, config, now).body;
    var user := users[tokens.userId];
    assert decode(tokens.access) == Decoded(AccessPayload(user, AccessExpiry(config, now)));
    assert decode(tokens.refresh) == Decoded(RefreshPayload(user, RefreshExpiry(config, now)));
  }

  /** The one 401 covers both credential failures alike: an unknown username and a
      wrong password for the only user of that name. Nothing else gives it. */
  lemma CredentialFailuresIndistinguishable(body: Option<JsonObject>, users: map<UserId, User>, fields: FieldRules,
                                            checkPassword: (string, string) -> bool, encode: JsonObject -> string,
                                            config: Config, now: int)
    requires UsersKeyed(users)
    requires body.Some? && RetrieveTokenForm(body.value, fields).LoginValid?
    ensures var form := RetrieveTokenForm(body.value, fields);
            var named := UsersNamed(users, form.username);
            RetrieveToken(body, users, fields, checkPassword, encode, config, now).status == 401 <==>
              named == {} || (|named| == 1 && exists id :: named == {id} && !checkPassword(form.password, users[id].password))
  {
    var form := RetrieveTokenForm(body.value, fields);
    var named := UsersNamed(users, form.username);
    if |named| == 1 {
      var id := TheOnly(named);
      forall other | named == {other}
        ensures other == id
      {
        assert other in named;
      }
    }
  }

  /** Two users sharing the username make the lookup raise, which the handler's
      catch-all turns into a 500. */
  lemma DuplicateUsernameIsServerError(body: Option<JsonObject>, users: map<UserId, User>, fields: FieldRules,
                                       checkPassword: (string, string) -> bool, encode: JsonObject -> string,
                                       config: Config, now: int, a: UserId, b: UserId)
    requires UsersKeyed(users)
    requires body.Some? && RetrieveTokenForm(body.value, fields).LoginValid?
    requires a in users && b in users && a != b
    requires users[a].username == users[b].username == RetrieveTokenForm(body.value, fields).username
    ensures RetrieveToken(body, users, fields, checkPassword, encode, config, now) == Response(500, ErrorMessage(MULTIPLE_USERS))
  {
    var named := UsersNamed(users, users[a].username);
    assert {a, b} <= named;
    assert |{a, b}| == 2;
    assert |named| >= 2 by {
      assert |named| >= |{a, b}| by {
        SubsetCardinality({a, b}, named);
      }
    }
  }

  lemma SubsetCardinality(small: set<UserId>, big: set<UserId>)
    requires small <= big
    ensures |small| <= |big|
  {
    assert big == small + (big - small);
  }
}
