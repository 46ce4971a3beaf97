/** The protected routes: each view of app/links/views.py and the private resolver of
    app/redirects/views.py behind `jwt_access_required`. A request the gate does not
    admit ends in the gate's 401 (or its unhandled exception) before any rule is
    looked up, and leaves the table and `request.user` as they were; an admitted one
    runs the view once, as the user the gate put on the request. */
module Endpoints {
  import opened Base
  import opened Accounts
  import opened Forms
  import opened LinkModels
  import opened Responses
  import opened TokenTypes
  import opened AccessGate
  import opened LinkViews
  import opened RedirectViews
  import opened TokenView

  /** POST on the rule collection: `UrlView.post` behind the gate. */
  method CreateEndpoint(req: Request, db: Database, decode: string -> Decoded, fields: FieldRules,
                        newId: RuleId, draw: string) returns (o: Outcome)
    requires db.Valid()
    requires newId !in db.rules
    requires IsUuid4Text(draw) && db.IdentifierFree(NewIdentifier(draw))
    modifies req, db
    ensures db.Valid()
    ensures var g := AccessRequired(req.authorization, db.users, decode);
            && (!g.Admit? ==> o == Refusal(g) && db.rules == old(db.rules) && req.user == old(req.user))
            && (g.Admit? ==>
                  && req.user == Some(g.user) && o.Respond?
                  && CreateEffect(old(db.rules), db.rules, o.response, db.users, g.user, req.body, fields, newId, draw))
  {
    var g := Authorize(req, db.users, decode);
    if !g.Admit? {
      return Refusal(g);
    }
    var resp := CreateRule(db, req.user.value, req.body, fields, newId, draw);
    o := Respond(resp);
  }

  /** GET on the rule list: `UrlListView.get` behind the gate. */
  method ListEndpoint(req: Request, db: Database, decode: string -> Decoded) returns (o: Outcome)
    requires db.Valid()
    modifies req
    ensures var g := AccessRequired(req.authorization, db.users, decode);
            && (!g.Admit? ==> o == Refusal(g) && req.user == old(req.user))
            && (g.Admit? ==>
                  && req.user == Some(g.user) && o.Respond? && o.response.status == 200
                  && o.response.body.RuleList?
                  && (forall i :: 0 <= i < |o.response.body.rules| ==>
                        OwnedBy(db.rules, o.response.body.rules[i].id, g.user) &&
                        o.response.body.rules[i] == AsDict(db.rules[o.response.body.rules[i].id], db.users))
                  && (forall id :: OwnedBy(db.rules, id, g.user) ==> AsDict(db.rules[id], db.users) in o.response.body.rules)
                  && (forall i, j :: 0 <= i < j < |o.response.body.rules| ==>
                        o.response.body.rules[i].id != o.response.body.rules[j].id))
  {
    var g := Authorize(req, db.users, decode);
    if !g.Admit? {
      return Refusal(g);
    }
    var resp := ListRules(db, req.user.value);
    o := Respond(resp);
  }

  /** GET on one rule: `UrlDetailView.get` behind the gate. */
  method DetailEndpoint(req: Request, db: Database, decode: string -> Decoded, rawId: string, parse: IdParser)
    returns (o: Outcome)
    requires db.Valid()
    modifies req
    ensures var g := AccessRequired(req.authorization, db.users, decode);
            && (!g.Admit? ==> o == Refusal(g) && req.user == old(req.user))
            && (g.Admit? ==> req.user == Some(g.user) && o == DetailGet(db, g.user, rawId, parse))
  {
    var g := Authorize(req, db.users, decode);
    if !g.Admit? {
      return Refusal(g);
    }
    o := DetailGet(db, req.user.value, rawId, parse);
  }

  /** PATCH on one rule: `UrlDetailView.patch` behind the gate. */
  method PatchEndpoint(req: Request, db: Database, decode: string -> Decoded, rawId: string, parse: IdParser,
                       fields: FieldRules, draw: string) returns (o: Outcome)
    requires db.Valid()
    requires IsUuid4Text(draw)
    modifies req, db
    ensures db.Valid()
    ensures var g := AccessRequired(req.authorization, db.users, decode);
            && (!g.Admit? ==> o == Refusal(g) && db.rules == old(db.rules) && req.user == old(req.user))
            && (g.Admit? ==>
                  && req.user == Some(g.user)
                  && PatchEffect(old(db.rules), db.rules, o, db.users, g.user, rawId, parse, req.body, fields))
  {
    var g := Authorize(req, db.users, decode);
    if !g.Admit? {
      return Refusal(g);
    }
    o := PatchRule(db, req.user.value, rawId, parse, req.body, fields, draw);
  }

  /** DELETE on one rule: `UrlDetailView.delete` behind the gate. */
  method DeleteEndpoint(req: Request, db: Database, decode: string -> Decoded, rawId: string, parse: IdParser)
    returns (o: Outcome)
    requires db.Valid()
    modifies req, db
    ensures db.Valid()
    ensures var g := AccessRequired(req.authorization, db.users, decode);
            && (!g.Admit? ==> o == Refusal(g) && db.rules == old(db.rules) && req.user == old(req.user))
            && (g.Admit? ==>
                  && req.user == Some(g.user)
                  && DeleteEffect(old(db.rules), db.rules, o, g.user, rawId, parse))
  {
    var g := Authorize(req, db.users, decode);
    if !g.Admit? {
      return Refusal(g);
    }
    o := DeleteRule(db, req.user.value, rawId, parse);
  }

  /** GET on a private identifier: `PrivateRedirectView.get` behind the gate. It
      never changes the table (it may not modify it). */
  method PrivateRedirectEndpoint(req: Request, db: Database, decode: string -> Decoded, identifier: string)
    returns (o: Outcome)
    requires db.Valid()
    modifies req
    ensures var g := AccessRequired(req.authorization, db.users, decode);
            && (!g.Admit? ==> o == Refusal(g) && req.user == old(req.user))
            && (g.Admit? ==> req.user == Some(g.user) && o == Respond(PrivateRedirect(db, identifier)))
  {
    var g := Authorize(req, db.users, decode);
    if !g.Admit? {
      return Refusal(g);
    }
    o := Respond(PrivateRedirect(db, identifier));
  }

  /** Login and the gate fit together: when the token library reads back what it
      signed (the token is genuine and unexpired) and tokens contain no space, the
      access token of a successful login, sent as "Bearer <token>", admits the user
      who logged in, while the refresh token is refused as the wrong type. */
  lemma LoginTokensAtTheGate(
    body: Option<JsonObject>, users: map<UserId, User>, fields: FieldRules,
    checkPassword: (string, string) -> bool, encode: JsonObject -> string, config: Config, now: int,
    decode: string -> Decoded)
    requires UsersKeyed(users)
    requires RetrieveToken(body, users, fields, checkPassword, encode, config, now).status == 200
    requires forall p :: decode(encode(p)) == Decoded(p)
    requires forall p :: ' ' !in encode(p)
    ensures var tokens := RetrieveToken(body, users, fields, checkPassword, encode, config, now).body;
            && AccessRequired(Some("Bearer " + tokens.access), users, decode) == Admit(users[tokens.userId])
            && AccessRequired(Some("Bearer " + tokens.refresh), users, decode) == Deny(Unauthorized(TOKEN_TYPE_ERROR))
  {
    var tokens := RetrieveToken(body, users, fields, checkPassword, encode, config, now).body;
    var user := users[tokens.userId];
    BearerTokenReadsBack(BEARER_SCHEME, tokens.access);
    BearerTokenReadsBack(BEARER_SCHEME, tokens.refresh);
    var access := AccessPayload(user, AccessExpiry(config, now));
    var refresh := RefreshPayload(user, RefreshExpiry(config, now));
    assert decode(tokens.access) == Decoded(access);
    assert decode(tokens.refresh) == Decoded(refresh);
    assert Get(refresh, "type") == JString(REFRESH_TYPE);
  }
}
