/** Redirect rules and their table (app/links/models.py): the record, its public
    representation, identifier assignment by the pre-save hook, and the store with
    the manager's two lookups. */
module LinkModels {
  import opened Base
  import opened Accounts

  /** The primary key: a UUID, held as its canonical text. */
  type RuleId = string

  /** The UUID field's conversion of a lookup argument taken from the URL: the
      canonical text of the UUID the argument denotes (any case, with or without
      hyphens or braces), or None when it denotes no UUID. The parsing rules are
      library code; the conversion is a parameter. */
  type IdParser = string -> Option<RuleId>

  /** The exception the conversion raises for text that is not a UUID. */
  const INVALID_ID_ERROR := "ValidationError"

  /** One row of the redirect-rule table. `owner` is the nullable user foreign key;
      the timestamps are not modelled. A new row starts with identifier "". */
  datatype RedirectRule = RedirectRule(
    id: RuleId,
    redirectUrl: string,
    isPrivate: bool,
    redirectIdentifier: string,
    owner: Option<UserId>)

  /** A new rule as `RedirectRule.objects.create(user=..., redirect_url=..., is_private=...)`
      builds it before saving: no identifier yet. */
  function NewRule(id: RuleId, redirectUrl: string, isPrivate: bool, owner: Option<UserId>): RedirectRule {
    RedirectRule(id, redirectUrl, isPrivate, "", owner)
  }

  /** `max_length` of the identifier column. */
  const IDENTIFIER_MAX_LENGTH := 10

  predicate IsLowerHex(c: char) {
    '0' <= c <= '9' || 'a' <= c <= 'f'
  }

  predicate IsHyphenPosition(i: int) {
    i == 8 || i == 13 || i == 18 || i == 23
  }

  /** `str(uuid.uuid4())`: the canonical 8-4-4-4-12 lower-case hex text of a version-4
      UUID (section 3 and section 4.4 of RFC 4122): version digit 4, variant digit
      one of 8, 9, a, b. */
  predicate IsUuid4Text(s: string) {
    && |s| == 36
    && (forall i :: 0 <= i < |s| ==> if IsHyphenPosition(i) then s[i] == '-' else IsLowerHex(s[i]))
    && s[14] == '4'
    && s[19] in "89ab"
  }

  /** The shape of every assigned identifier: 8 hex digits, a hyphen, 1 hex digit. */
  predicate IsIdentifier(s: string) {
    && |s| == 10
    && s[8] == '-'
    && (forall i :: 0 <= i < |s| && i != 8 ==> IsLowerHex(s[i]))
  }

  /** `str(uuid.uuid4())[:10]`. */
  function NewIdentifier(draw: string): (s: string)
    requires IsUuid4Text(draw)
    ensures IsIdentifier(s)
    ensures 0 < |s| <= IDENTIFIER_MAX_LENGTH
    ensures s <= draw
  {
    draw[..10]
  }

  /** `redirect_identifier_pre_save`: assigns an identifier from the uuid4 draw when the
      rule has none, and leaves the rule alone otherwise. Nothing else changes. */
  function PreSave(rule: RedirectRule, draw: string): (r: RedirectRule)
    requires IsUuid4Text(draw)
    ensures r == rule.(redirectIdentifier := r.redirectIdentifier)
    ensures rule.redirectIdentifier != "" ==> r == rule
    ensures rule.redirectIdentifier == "" ==> IsIdentifier(r.redirectIdentifier) && r.redirectIdentifier <= draw
  {
    if rule.redirectIdentifier == "" then rule.(redirectIdentifier := NewIdentifier(draw)) else rule
  }

  /** Running the hook again, with any other draw, changes nothing. */
  lemma PreSaveIdempotent(rule: RedirectRule, draw: string, draw': string)
    requires IsUuid4Text(draw) && IsUuid4Text(draw')
    ensures PreSave(PreSave(rule, draw), draw') == PreSave(rule, draw)
  {
  }

  /** The representation `as_dict` returns (the timestamps are not modelled). */
  datatype RuleView = RuleView(
    id: RuleId,
    redirectUrl: string,
    isPrivate: bool,
    redirectIdentifier: string,
    user: Option<UserView>)

  /** `RedirectRule.as_dict`: the rule's own fields, and the owner only as its
      `{username}` view, or null for an ownerless rule. */
  function AsDict(rule: RedirectRule, users: map<UserId, User>): RuleView
    requires rule.owner.Some? ==> rule.owner.value in users
  {
    RuleView(rule.id, rule.redirectUrl, rule.isPrivate, rule.redirectIdentifier,
             if rule.owner.Some? then Some(UserAsDict(users[rule.owner.value])) else None)
  }

  /** The representation depends on the owner's username only: the stored password
      hash of the owner (or any other user) never reaches it. */
  lemma AsDictIgnoresPasswords(rule: RedirectRule, users: map<UserId, User>, users': map<UserId, User>)
    requires rule.owner.Some? ==> rule.owner.value in users && rule.owner.value in users'
    requires rule.owner.Some? ==> users[rule.owner.value].username == users'[rule.owner.value].username
    ensures AsDict(rule, users) == AsDict(rule, users')
  {
  }

  /** The rule stored under `id` belongs to `user`. */
  predicate OwnedBy(rules: map<RuleId, RedirectRule>, id: RuleId, user: User) {
    id in rules && rules[id].owner == Some(user.id)
  }

  /** The redirect-rule table with its unique index on `redirect_identifier`, next to
      the user table it references. */
  class Database {
    const users: map<UserId, User>
    var rules: map<RuleId, RedirectRule>
    var index: map<string, RuleId>

    /** A stored row: under its own key, with an assigned identifier that the index
        maps back to it, and an owner that exists. */
    ghost predicate RowOk(id: RuleId)
      reads this
      requires id in rules
    {
      var r := rules[id];
      && r.id == id
      && IsIdentifier(r.redirectIdentifier)
      && r.redirectIdentifier in index && index[r.redirectIdentifier] == id
      && (r.owner.Some? ==> r.owner.value in users)
    }

    ghost predicate Valid()
      reads this
    {
      && UsersKeyed(users)
      && (forall id :: id in rules ==> RowOk(id))
      && (forall s :: s in index ==> index[s] in rules && rules[index[s]].redirectIdentifier == s)
    }

    /** No stored rule uses identifier `s`. */
    predicate IdentifierFree(s: string)
      reads this
    {
      forall id :: id in rules ==> rules[id].redirectIdentifier != s
    }

    constructor (users: map<UserId, User>)
      requires UsersKeyed(users)
      ensures Valid()
      ensures this.users == users && rules == map[]
    {
      this.users := users;
      rules := map[];
      index := map[];
    }

    /** Identifiers are unique across the table. */
    lemma IdentifiersUnique(a: RuleId, b: RuleId)
      requires Valid()
      requires a in rules && b in rules
      requires rules[a].redirectIdentifier == rules[b].redirectIdentifier
      ensures a == b
    {
      assert RowOk(a) && RowOk(b);
    }

    /** `RedirectRuleManager.get_by_id`: the rule with this id, only when it belongs
        to `user`; a rule of another owner, or an ownerless one, is not found. */
    function GetById(id: RuleId, user: User): (r: Option<RedirectRule>)
      reads this
      ensures r.Some? <==> id in rules && rules[id].owner == Some(user.id)
      ensures r.Some? ==> r.value == rules[id]
    {
      if OwnedBy(rules, id, user) then Some(rules[id]) else None
    }

    /** `RedirectRuleManager.get_by_identifier`: the rule with this identifier,
        whoever owns it and whether or not it is private. */
    function GetByIdentifier(s: string): (r: Option<RedirectRule>)
      reads this
      requires Valid()
      ensures r.Some? <==> !IdentifierFree(s)
      ensures r.Some? ==> r.value.id in rules && rules[r.value.id] == r.value && r.value.redirectIdentifier == s
    {
      if s in index then
        Some(rules[index[s]])
      else
        assert forall id :: id in rules ==> RowOk(id);
        None
    }

    /** `get_by_identifier` finds every stored rule by its own identifier. */
    lemma GetByIdentifierFindsEachRule(id: RuleId)
      requires Valid()
      requires id in rules
      ensures GetByIdentifier(rules[id].redirectIdentifier) == Some(rules[id])
    {
      var found := GetByIdentifier(rules[id].redirectIdentifier);
      IdentifiersUnique(id, found.value.id);
    }

    /** `Model.save()`: runs the pre-save hook, then writes the row. The caller never
        changes an existing identifier (the field is not editable), and the saved
        identifier must not belong to another row (the unique constraint). */
    method Save(rule: RedirectRule, draw: string)
      requires Valid()
      requires IsUuid4Text(draw)
      requires rule.owner.Some? ==> rule.owner.value in users
      requires rule.id in rules ==> rule.redirectIdentifier == rules[rule.id].redirectIdentifier
      requires rule.id !in rules ==> rule.redirectIdentifier == "" && IdentifierFree(NewIdentifier(draw))
      modifies this
      ensures Valid()
      ensures rules == old(rules)[rule.id := PreSave(rule, draw)]
      ensures rule.id in old(rules) ==> rules[rule.id].redirectIdentifier == old(rules)[rule.id].redirectIdentifier
    {
      var saved := PreSave(rule, draw);
      if rule.id in rules {
        assert RowOk(rule.id);
        rules := rules[rule.id := saved];
        assert RowOk(rule.id);
      } else {
        rules := rules[rule.id := saved];
        index := index[saved.redirectIdentifier := rule.id];
      }
    }

    /** `Model.delete()`: removes exactly this row. */
    method Delete(id: RuleId)
      requires Valid()
      requires id in rules
      modifies this
      ensures Valid()
      ensures rules == old(rules) - {id}
    {
      assert RowOk(id);
      index := index - {rules[id].redirectIdentifier};
      rules := rules - {id};
    }
  }
}
