# Redirect-rule service, modelled in Dafny

This project models the core of a small Django service. Users log in for a pair of JSON Web Tokens. With the access token they manage their own redirect rules: a target URL, a privacy flag and a short generated identifier. Anyone can resolve a public rule by its identifier. A private rule resolves only through an authenticated path.

Modules, one concern each:

- `Base`: optional values, JSON values (`Option<map<string, Json>>` for a request body, where `None` means the body did not parse), and Python's `dict.get` and `str.startswith`.
- `Accounts`: the user table (app/custom_users/models.py). Usernames are not unique.
- `Forms`: the request forms.
  - Django's empty values, required fields and checkbox handling are modelled exactly.
  - Text conversion, URL conversion and URL validation are abstract functions (`FieldRules`).
- `LinkModels`: the redirect-rule record, `as_dict`, the identifier pre-save hook, and the store class `Database`.
  - `Database` holds the rule table, its unique index on the identifier, and the owner-scoped and identifier lookups.
  - The uuid4 draws for the primary key and the identifier are inputs, under freshness preconditions. The source has no collision retry; the unique constraint would raise.
- `LinkViews`: create, list, get, patch and delete for a caller who is already resolved.
  - The mutating handlers are methods on the store.
  - Each handler's effect on the table and its response are stated as a predicate over the table before and after.
- `RedirectViews`: the public and the private resolver. Both are read-only.
- `TokenTypes`, `AccessGate`: the `jwt_access_required` decorator.
  - It is a pure decision over the Authorization header and an abstract decode result, followed by the method `Authorize`, which sets `request.user`.
- `TokenView`: the login handler.
  - Password checking and token encoding are abstract functions.
  - The clock is an integer `now` in seconds.
- `Endpoints`: each protected handler behind the gate, and a lemma that ties login to the gate.

Behaviour kept as the code has it:

- The decorator catches `django.contrib.auth.models.User.DoesNotExist` (app/common/api/decorators.py:40). The lookup raises `CustomUser.DoesNotExist` (line 32). So a valid access token for an unknown user ends in an unhandled exception (`Raise`/`Unhandled`), not in the 401 "User not found". `AccessRequired` proves that this 401 is never produced.
- The refresh token's expiry adds `REFRESH_TOKEN_EXPIRY_HOURS` as a number of days (app/common/views.py:43). `RefreshExpiry` multiplies it by 86400 seconds.
- A PATCH whose body has `redirect_url` as an empty value passes `UrlsPatchForm` (the field is optional). It stores the cleaned value "". `PatchEffect` states this.
- Two users with the same username make the login lookup raise. The catch-all turns that into a 500.
- A rule id in the URL that is not a UUID makes the owner-scoped lookup raise `ValidationError`. Only `DoesNotExist` is caught (app/links/models.py:12), so the get, patch and delete handlers end in an unhandled exception. A UUID written differently from the stored text still finds its rule.

## Model

| member | source | states |
|---|---|---|
| Accounts.UsersNamed | app/custom_users/models.py:8 | the users matching a username are exactly the table rows with that username; there may be several, because the column is not unique |
| Forms.CleanText | app/common/views.py:31-36 | a missing or empty text field cleans to ""; any other value cleans to its text conversion |
| Forms.CleanUrl | app/links/forms.py:5-10 | a missing, empty or blank-converting value is an error exactly when the field is required, and otherwise cleans to ""; any other value is accepted exactly when its converted URL passes validation, and cleans to that URL |
| Forms.CleanBoolean | app/links/forms.py:6 | a missing `is_private` is false, a JSON boolean is taken as is, and "false" is false |
| Forms.UrlsForm | app/links/forms.py:4-6 | the create form fails only on `redirect_url`: always when it is missing or blank, otherwise exactly when its converted URL fails validation; on success it yields that URL and the cleaned flag |
| Forms.UrlsPatchForm | app/links/forms.py:9-11 | a missing or blank `redirect_url` is valid and cleans to "" with the cleaned flag; any other fails exactly when its converted URL fails validation, and otherwise cleans to that URL |
| Forms.RetrieveTokenForm | app/common/views.py:31-36 | the login form is valid iff both fields are non-blank; its errors name exactly the blank fields |
| LinkModels.NewIdentifier | app/links/models.py:59 | a generated identifier is the first 10 characters of the uuid4 text: 8 lower-case hex digits, '-', one hex digit, within the column's max length |
| LinkModels.PreSave | app/links/models.py:56-59 | the hook changes only the identifier; it keeps a non-empty one and fills an empty one from the draw |
| LinkModels.PreSaveIdempotent | app/links/models.py:56-59 | running the hook again, with any draw, changes nothing, so re-saving never changes an identifier |
| LinkModels.AsDictIgnoresPasswords | app/links/models.py:44-53 | the representation of a rule depends on its owner only through the owner's username: users that differ in anything else, the password hash included, give the same representation |
| LinkModels.Database.constructor | app/links/models.py:22-42 | an empty rule table over a keyed user table is a valid store |
| LinkModels.Database.IdentifiersUnique | app/links/models.py:30-35 | in a valid store, two rules with the same identifier are the same rule |
| LinkModels.Database.GetById | app/links/models.py:9-13 | a rule is returned iff one with that id exists and is owned by the given user, and it is that rule |
| LinkModels.Database.GetByIdentifier | app/links/models.py:15-19 | a rule is returned iff some stored rule has that identifier, whatever its owner or privacy, and it is that stored rule |
| LinkModels.Database.GetByIdentifierFindsEachRule | app/links/models.py:15-19 | every stored rule is found by its own identifier |
| LinkModels.Database.Save | app/links/models.py:30-59 | saving runs the hook and writes exactly that row; the identifier of an existing row is kept, and the store stays valid with unique identifiers |
| LinkModels.Database.Delete | app/links/views.py:103 | deleting removes exactly that row and keeps the store valid |
| LinkViews.CreateRule | app/links/views.py:11-37 | malformed JSON gives 400 "Invalid JSON" and form errors give 400 with the errors, both leaving the table unchanged; otherwise exactly one new rule is added, owned by the caller with the cleaned URL and flag and a fresh identifier, and returned with 201 |
| LinkViews.ListRules | app/links/views.py:40-50 | 200 with the representations of exactly the caller's rules, private ones included, each once, and no one else's |
| LinkViews.DetailGet | app/links/views.py:53-66 | an id that is not a UUID raises `ValidationError`; otherwise 200 with the rule iff the caller owns the rule the id denotes, else 404 "RedirectRule not found" |
| LinkViews.PatchRule | app/links/views.py:68-94 | an id that is not a UUID raises with the table unchanged; a rule the caller does not own gives 404 before the body is read; then JSON and form errors give 400; otherwise only the fields present in the body change; id, owner and identifier never change, and no other row changes |
| LinkViews.DeleteRule | app/links/views.py:96-104 | an id that is not a UUID raises, and a rule the caller does not own gives 404, both with the table unchanged; otherwise exactly that rule is removed and the answer is 204 with an empty object |
| RedirectViews.PrivateRedirect | app/redirects/views.py:8-20 | 302 with the rule's representation iff some rule has the identifier, private or not, with no ownership check; otherwise the 404 |
| RedirectViews.PublicRedirect | app/redirects/views.py:23-34 | 302 with the representation iff a non-private rule has the identifier; otherwise the 404 |
| RedirectViews.PrivateRuleHiddenOnlyPublicly | app/redirects/views.py:12-28 | on the public path a private rule's identifier gets the same response as an absent identifier; the private path resolves it |
| RedirectViews.PublicIsFilteredPrivate | app/redirects/views.py:12-28 | the public resolver is the private one with private rules turned into the 404 |
| AccessGate.Split | app/common/api/decorators.py:19 | splitting on a character always yields at least one field |
| AccessGate.JoinSplit | app/common/api/decorators.py:19 | the fields join back to the string, and no field contains the separator |
| AccessGate.SplitAfterWord | app/common/api/decorators.py:19 | a separator-free word followed by the separator splits into that word, then the rest's fields |
| AccessGate.FirstFieldIsLongestPrefix | app/common/api/decorators.py:19 | the first field is the longest separator-free prefix |
| AccessGate.BearerToken | app/common/api/decorators.py:19 | the token is what follows the scheme and its space, up to the next space or the end; "Bearer " alone gives "" |
| AccessGate.BearerTokenReadsBack | app/common/api/decorators.py:14-19 | "Bearer t" or "Token t" passes the prefix check and yields t, for any t without a space |
| AccessGate.ResolveUser | app/common/api/decorators.py:31-32 | the payload's `user_id` resolves iff it is an integer that is in the user table, and then to that user |
| AccessGate.AccessRequired | app/common/api/decorators.py:11-43 | a missing or wrong header gives 401; every refusal is a 401 and never "User not found"; admission requires a decodable access-type token whose `user_id` is a stored user, and admits that user; the only exception is `CustomUser.DoesNotExist`, for an access-type token naming no stored user |
| AccessGate.HeaderCheckedFirst | app/common/api/decorators.py:14-17 | a bad header is refused whatever the token or the user table |
| AccessGate.DecodeFailuresRefused | app/common/api/decorators.py:36-39 | an expired token gives 401 "Token expired"; any other decode failure gives 401 "Invalid token" |
| AccessGate.WrongTypeRefused | app/common/api/decorators.py:28-29 | a decoded token whose type is not "access" gives 401 "Invalid token type" |
| AccessGate.AdmitsExactlyKnownUsers | app/common/api/decorators.py:31-41 | a well-formed access token admits exactly the user its `user_id` names; an unknown user raises `CustomUser.DoesNotExist` instead of answering 401 |
| AccessGate.Authorize | app/common/api/decorators.py:31-34 | the wrapper decides as `AccessRequired`; on admission it sets `request.user` to the admitted user, otherwise it leaves it unchanged |
| AccessGate.RefusalOutcomes | app/common/api/decorators.py:28-41 | a request the gate turns away ends in a 401 other than "User not found", or unhandled with `CustomUser.DoesNotExist`, and the latter exactly for a decoded access-type token whose `user_id` resolves to no user (a token of another type is refused with 401 first) |
| TokenView.TheOnly | app/common/views.py:38 | `objects.get` on exactly one match returns that match |
| TokenView.RetrieveToken | app/common/views.py:26-82 | the status is 200, 400, 401 or 500; 400 iff the JSON is malformed (body "Invalid JSON") or the form is invalid (body: the form's field errors); every 401 is "Invalid credentials"; a 500 happens only for a valid form whose username several users share; a 200 carries the tokens of the only user with that username whose password checks, with the two payloads |
| TokenView.SoleMatchingUserGetsTokens | app/common/views.py:35-73 | a valid form whose username names exactly one user, with a password that checks, gets 200 with that user's id and username |
| TokenView.IssuedTokenPayloads | app/common/views.py:42-55 | decoded, a successful login's access token carries exactly user_id, username, type "access" and an expiry the configured minutes after now; its refresh token carries exactly user_id, type "refresh" and an expiry the hours setting, counted as days, after now, and no username |
| TokenView.CredentialFailuresIndistinguishable | app/common/views.py:38-76 | for a valid form, the 401 happens iff the username is unknown or its only user's password does not check; both cases give the same response |
| TokenView.DuplicateUsernameIsServerError | app/common/views.py:81-82 | two users sharing the submitted username give a 500 |
| Endpoints.CreateEndpoint | app/links/views.py:11-37 | the gate's refusal, with the table and `request.user` unchanged, or the create effect as the admitted user |
| Endpoints.ListEndpoint | app/links/views.py:40-50 | the gate's refusal, or 200 listing the representation of each of the admitted user's rules exactly once, and nothing else |
| Endpoints.DetailEndpoint | app/links/views.py:53-66 | the gate's refusal, or the detail outcome for the admitted user |
| Endpoints.PatchEndpoint | app/links/views.py:68-94 | the gate's refusal with the table unchanged, or the patch effect as the admitted user, an invalid id raising included |
| Endpoints.DeleteEndpoint | app/links/views.py:96-104 | the gate's refusal with the table unchanged, or the delete effect as the admitted user, an invalid id raising included |
| Endpoints.PrivateRedirectEndpoint | app/redirects/views.py:8-20 | without admission the gate's refusal (a 401, or the unhandled `CustomUser.DoesNotExist`) and no lookup; with it the private resolver's response; the store is never modified |
| Endpoints.LoginTokensAtTheGate | app/common/views.py:45-73 | if decoding inverts encoding and tokens contain no space, a successful login's access token, sent as "Bearer <token>", admits that user, and its refresh token is refused as "Invalid token type" |

## Left out

- JWT signing, encoding and decoding (PyJWT) and the secret and algorithm settings. Encoding and decoding are abstract functions. Decoding yields a payload, `Expired` or `Invalid`.
- Password hashing: `make_password`, `check_password` with its rehash setter, and the users' pre-save hook that rehashes on every save. Password checking is an abstract predicate.
- Django's URL parsing and validation, and `str()`/strip on form values. These are the abstract `FieldRules`.
- The JSON decoder. A body is a parsed object or "malformed", and "malformed" answers 400 "Invalid JSON". JSON floats and bodies that parse to a non-object are not modelled. Neither is a body that is not valid UTF-8: there `json.loads` raises `UnicodeDecodeError`, which is not a `JSONDecodeError`. The login's catch-all then answers 500 (app/common/views.py:81-82), and create and patch let it escape (app/links/views.py:17, 77).
- The `created_at`/`modified_at` timestamps. They are absent from the records and from `as_dict`.
- The naive local clock. `now` is one integer in seconds; the source reads the clock twice.
- uuid4 randomness. The primary key and the identifier draw are inputs. Their freshness is a precondition, because the source would raise on a collision.
- Concurrency, transactions and locking. Requests are handled one at a time.
- The user table is fixed: the core never writes it.
- Routing (app/*/urls.py), admin registration and the test client.
- The UUID field's parsing of a rule id taken from the URL. It accepts any case, braces, `urn:uuid:` and missing hyphens. It is the parameter `IdParser`, which yields the canonical text, or nothing for text that is not a UUID. In that case the handler raises `ValidationError`, which is modelled as an unhandled outcome.
- The login form's module (common/forms.py) is not part of this model. The form is modelled as two required text fields, as its use in app/common/views.py:31-36 implies.
- AccessGate.ResolveUser: only a JSON integer `user_id` resolves; any other value raises `CustomUser.DoesNotExist`, as an unknown user does. Django's integer lookup applies `int()`: a numeric string or a JSON `true` would resolve (to that number, or to user 1), a non-numeric string would raise `ValueError`, and a list or object `TypeError`. Only a hand-made token reaches these cases: issued tokens carry an integer `user_id`.
- TokenView.RetrieveToken: the 500 message for duplicate usernames is only the fixed start of the exception text. The count the library appends is not modelled.
- AccessGate.BearerToken: tokens are `seq<char>`. Header text is not checked for the characters HTTP allows.
- LinkModels.PreSave: the hook mutates the instance in place in the source. It is modelled as a function on the record value, which `Database.Save` applies before writing.
