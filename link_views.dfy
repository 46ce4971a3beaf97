/** The link-management handlers of app/links/views.py, for a caller the access gate
    has already resolved: create, list, get, partial update and delete of the
    caller's own redirect rules. Each mutating handler is a method on the store
    whose effect on the table and whose response are stated by a predicate over
    the table before and after. */
module LinkViews {
  import opened Base
  import opened Accounts
  import opened Forms
  import opened LinkModels
  import opened Responses

  /** `UrlView.post`: malformed JSON and form errors answer 400 and store nothing;
      otherwise one new rule, owned by the caller, with the cleaned URL and privacy
      flag and a fresh identifier, is stored and returned with 201. */
  ghost predicate CreateEffect(
    before: map<RuleId, RedirectRule>, after: map<RuleId, RedirectRule>, resp: Response,
    users: map<UserId, User>, caller: User, body: Option<JsonObject>, fields: FieldRules,
    newId: RuleId, draw: string)
    requires IsUuid4Text(draw)
    requires caller.id in users
  {
    if body.None? then
      resp == Response(400, ErrorMessage(INVALID_JSON)) && after == before
    else
      match UrlsForm(body.value, fields)
      case UrlsInvalid(errors) =>
        resp == Response(400, FieldErrors(errors)) && after == before
      case UrlsValid(url, isPrivate) =>
        var rule := RedirectRule(newId, url, isPrivate, NewIdentifier(draw), Some(caller.id));
        after == before[newId := rule] && resp == Response(201, RuleBody(AsDict(rule, users)))
  }

  /** `UrlDetailView.patch`: an id that is not a UUID raises before anything else;
      ownership is checked before the body is read; then malformed JSON and form
      errors answer 400; otherwise only the fields present in the body are changed,
      the rule is saved and returned with 200. */
  ghost predicate PatchEffect(
    before: map<RuleId, RedirectRule>, after: map<RuleId, RedirectRule>, o: Outcome,
    users: map<UserId, User>, caller: User, rawId: string, parse: IdParser,
    body: Option<JsonObject>, fields: FieldRules)
    requires caller.id in users
  {
    if parse(rawId).None? then
      o == Unhandled(INVALID_ID_ERROR) && after == before
    else
      var id := parse(rawId).value;
      if !OwnedBy(before, id, caller) then
        o == Respond(NOT_FOUND) && after == before
      else if body.None? then
        o == Respond(Response(400, ErrorMessage(INVALID_JSON))) && after == before
      else
        match UrlsPatchForm(body.value, fields)
        case UrlsInvalid(errors) =>
          o == Respond(Response(400, FieldErrors(errors))) && after == before
        case UrlsValid(url, isPrivate) =>
          var was := before[id];
          var rule := was.(redirectUrl := if "redirect_url" in body.value then url else was.redirectUrl,
                           isPrivate := if "is_private" in body.value then isPrivate else was.isPrivate);
          after == before[id := rule] && o == Respond(Response(200, RuleBody(AsDict(rule, users))))
  }

  /** `UrlDetailView.delete`: an id that is not a UUID raises; a rule the caller does
      not own is not found; an owned one is removed and the answer is 204 with an
      empty object. */
  ghost predicate DeleteEffect(
    before: map<RuleId, RedirectRule>, after: map<RuleId, RedirectRule>, o: Outcome,
    caller: User, rawId: string, parse: IdParser)
  {
    if parse(rawId).None? then
      o == Unhandled(INVALID_ID_ERROR) && after == before
    else if !OwnedBy(before, parse(rawId).value, caller) then
      o == Respond(NOT_FOUND) && after == before
    else
      o == Respond(Response(204, EmptyObject)) && after == before - {parse(rawId).value}
  }

  /** `UrlView.post`. The id and identifier the two uuid4 calls produce are inputs;
      the source does not retry on a collision, so they must be fresh. */
  method CreateRule(db: Database, caller: User, body: Option<JsonObject>, fields: FieldRules,
                    newId: RuleId, draw: string) returns (resp: Response)
    requires db.Valid()
    requires caller.id in db.users
    requires newId !in db.rules
    requires IsUuid4Text(draw) && db.IdentifierFree(NewIdentifier(draw))
    modifies db
    ensures db.Valid()
    ensures CreateEffect(old(db.rules), db.rules, resp, db.users, caller, body, fields, newId, draw)
  {
    if body.None? {
      return Response(400, ErrorMessage(INVALID_JSON));
    }
    var form := UrlsForm(body.value, fields);
    if form.UrlsInvalid? {
      return Response(400, FieldErrors(form.errors));
    }
    db.Save(NewRule(newId, form.redirectUrl, form.isPrivate, Some(caller.id)), draw);
    resp := Response(201, RuleBody(AsDict(db.rules[newId], db.users)));
  }

  /** `UrlListView.get`: the representations of exactly the caller's rules, private
      ones included, each once, in whatever order the table yields them. */
  method ListRules(db: Database, caller: User) returns (resp: Response)
    requires db.Valid()
    ensures resp.status == 200 && resp.body.RuleList?
    ensures forall i :: 0 <= i < |resp.body.rules| ==>
              OwnedBy(db.rules, resp.body.rules[i].id, caller) &&
              resp.body.rules[i] == AsDict(db.rules[resp.body.rules[i].id], db.users)
    ensures forall id :: OwnedBy(db.rules, id, caller) ==> AsDict(db.rules[id], db.users) in resp.body.rules
    ensures forall i, j :: 0 <= i < j < |resp.body.rules| ==> resp.body.rules[i].id != resp.body.rules[j].id
  {
    var views: seq<RuleView> := [];
    var remaining := db.rules.Keys;
    while remaining != {}
      invariant remaining <= db.rules.Keys
      invariant forall i :: 0 <= i < |views| ==>
                  OwnedBy(db.rules, views[i].id, caller) && views[i].id !in remaining &&
                  views[i] == AsDict(db.rules[views[i].id], db.users)
      invariant forall id :: OwnedBy(db.rules, id, caller) && id !in remaining ==>
                  AsDict(db.rules[id], db.users) in views
      invariant forall i, j :: 0 <= i < j < |views| ==> views[i].id != views[j].id
      decreases remaining
    {
      var id :| id in remaining;
      assert db.RowOk(id);
      if db.rules[id].owner == Some(caller.id) {
        views := views + [AsDict(db.rules[id], db.users)];
      }
      remaining := remaining - {id};
    }
    resp := Response(200, RuleList(views));
  }

  /** `UrlDetailView.get`: an id that is not a UUID raises; otherwise 200 with the
      rule when the caller owns it, else the 404. */
  function DetailGet(db: Database, caller: User, rawId: string, parse: IdParser): (o: Outcome)
    reads db
    requires db.Valid()
    ensures o.Unhandled? <==> parse(rawId).None?
    ensures o.Unhandled? ==> o.exception == INVALID_ID_ERROR
    ensures o.Respond? ==> (o.response.status == 200 <==> OwnedBy(db.rules, parse(rawId).value, caller))
    ensures o.Respond? && o.response.status == 200 ==>
              o.response.body == RuleBody(AsDict(db.rules[parse(rawId).value], db.users))
    ensures o.Respond? && o.response.status != 200 ==> o.response == NOT_FOUND
  {
    match parse(rawId)
    case None => Unhandled(INVALID_ID_ERROR)
    case Some(id) =>
      match db.GetById(id, caller)
      case None => Respond(NOT_FOUND)
      case Some(rule) =>
        assert db.RowOk(id);
        Respond(Response(200, RuleBody(AsDict(rule, db.users))))
  }

  /** `UrlDetailView.patch`. The hook's uuid4 draw is an input; it is never used,
      since a stored rule already has an identifier. */
  method PatchRule(db: Database, caller: User, rawId: string, parse: IdParser, body: Option<JsonObject>,
                   fields: FieldRules, draw: string) returns (o: Outcome)
    requires db.Valid()
    requires caller.id in db.users
    requires IsUuid4Text(draw)
    modifies db
    ensures db.Valid()
    ensures PatchEffect(old(db.rules), db.rules, o, db.users, caller, rawId, parse, body, fields)
    ensures db.rules.Keys == old(db.rules).Keys
    ensures forall k :: k in db.rules ==>
              db.rules[k].id == old(db.rules)[k].id &&
              db.rules[k].owner == old(db.rules)[k].owner &&
              db.rules[k].redirectIdentifier == old(db.rules)[k].redirectIdentifier
    ensures forall k :: k in db.rules && parse(rawId) != Some(k) ==> db.rules[k] == old(db.rules)[k]
  {
    var parsed := parse(rawId);
    if parsed.None? {
      return Unhandled(INVALID_ID_ERROR);
    }
    var id := parsed.value;
    var found := db.GetById(id, caller);
    if found.None? {
      return Respond(NOT_FOUND);
    }
    if body.None? {
      return Respond(Response(400, ErrorMessage(INVALID_JSON)));
    }
    var data := body.value;
    var form := UrlsPatchForm(data, fields);
    if form.UrlsInvalid? {
      return Respond(Response(400, FieldErrors(form.errors)));
    }
    var rule := found.value;
    if "redirect_url" in data {
      rule := rule.(redirectUrl := form.redirectUrl);
    }
    if "is_private" in data {
      rule := rule.(isPrivate := form.isPrivate);
    }
    assert db.RowOk(id);
    db.Save(rule, draw);
    o := Respond(Response(200, RuleBody(AsDict(rule, db.users))));
  }

  /** `UrlDetailView.delete`. */
  method DeleteRule(db: Database, caller: User, rawId: string, parse: IdParser) returns (o: Outcome)
    requires db.Valid()
    modifies db
    ensures db.Valid()
    ensures DeleteEffect(old(db.rules), db.rules, o, caller, rawId, parse)
  {
    var parsed := parse(rawId);
    if parsed.None? {
      return Unhandled(INVALID_ID_ERROR);
    }
    var found := db.GetById(parsed.value, caller);
    if found.None? {
      return Respond(NOT_FOUND);
    }
    db.Delete(parsed.value);
    o := Respond(Response(204, EmptyObject));
  }
}
