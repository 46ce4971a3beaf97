/** The two resolution handlers of app/redirects/views.py: a read-only lookup by
    identifier followed by a 302 that carries the rule's representation, or the
    404. The public one hides private rules; the private one, reachable only
    through the access gate, does not check ownership. */
module RedirectViews {
  import opened Base
  import opened LinkModels
  import opened Responses

  /** `PrivateRedirectView.get` once the gate has admitted the caller: any stored
      rule, private or not and whoever owns it, is returned with 302. */
  function PrivateRedirect(db: Database, identifier: string): (resp: Response)
    reads db
    requires db.Valid()
    ensures resp.status == 302 <==> !db.IdentifierFree(identifier)
    ensures resp.status != 302 ==> resp == NOT_FOUND
    ensures resp.status == 302 ==>
              resp.body.RuleBody? && resp.body.rule.id in db.rules &&
              db.rules[resp.body.rule.id].redirectIdentifier == identifier &&
              resp.body.rule == AsDict(db.rules[resp.body.rule.id], db.users)
  {
    match db.GetByIdentifier(identifier)
    case None => NOT_FOUND
    case Some(rule) =>
      assert db.RowOk(rule.id);
      Response(302, RuleBody(AsDict(rule, db.users)))
  }

  /** `PublicRedirectView.get`: 302 exactly for a stored rule that is not private;
      an absent identifier and a private rule get the same 404. */
  function PublicRedirect(db: Database, identifier: string): (resp: Response)
    reads db
    requires db.Valid()
    ensures resp.status == 302 <==>
              exists id :: id in db.rules && db.rules[id].redirectIdentifier == identifier && !db.rules[id].isPrivate
    ensures resp.status != 302 ==> resp == NOT_FOUND
    ensures resp.status == 302 ==>
              resp.body.RuleBody? && resp.body.rule.id in db.rules &&
              db.rules[resp.body.rule.id].redirectIdentifier == identifier &&
              !resp.body.rule.isPrivate &&
              resp.body.rule == AsDict(db.rules[resp.body.rule.id], db.users)
  {
    match db.GetByIdentifier(identifier)
    case None => NOT_FOUND
    case Some(rule) =>
      assert db.RowOk(rule.id);
      if rule.isPrivate then
        assert forall id :: id in db.rules && db.rules[id].redirectIdentifier == identifier ==> id == rule.id by {
          forall id | id in db.rules && db.rules[id].redirectIdentifier == identifier {
            db.IdentifiersUnique(id, rule.id);
          }
        }
        NOT_FOUND
      else
        Response(302, RuleBody(AsDict(rule, db.users)))
  }

  /** The public path answers a private rule's identifier exactly as it answers an
      identifier no rule has, while the private path resolves it. */
  lemma PrivateRuleHiddenOnlyPublicly(db: Database, id: RuleId, absent: string)
    requires db.Valid()
    requires id in db.rules && db.rules[id].isPrivate
    requires db.IdentifierFree(absent)
    ensures PublicRedirect(db, db.rules[id].redirectIdentifier) == PublicRedirect(db, absent)
    ensures PrivateRedirect(db, db.rules[id].redirectIdentifier) == Response(302, RuleBody(AsDict(db.rules[id], db.users)))
  {
    db.GetByIdentifierFindsEachRule(id);
    assert db.RowOk(id);
  }

  /** The public path is the private path with private rules filtered out: where
      the public path resolves, the private path gives the same response. */
  lemma PublicIsFilteredPrivate(db: Database, identifier: string)
    requires db.Valid()
    ensures PublicRedirect(db, identifier) ==
              if PrivateRedirect(db, identifier).status == 302 && PrivateRedirect(db, identifier).body.rule.isPrivate
              then NOT_FOUND
              else PrivateRedirect(db, identifier)
  {
  }
}
