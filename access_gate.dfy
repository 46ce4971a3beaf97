/** The access gate `jwt_access_required` of app/common/api/decorators.py: a decision
    over the Authorization header and the decoded token that either refuses the
    request with 401, lets an exception escape, or sets `request.user` and lets the
    wrapped view run. */
module AccessGate {
  import opened Base
  import opened Accounts
  import opened Responses
  import opened TokenTypes

  /** Python's `str.split(sep)` with an explicit one-character separator: every
      separator ends a field, and empty fields are kept. */
  function Split(s: string, sep: char): (fields: seq<string>)
    ensures |fields| >= 1
    decreases |s|
  {
    if s == [] then [""]
    else if s[0] == sep then [""] + Split(s[1..], sep)
    else
      var rest := Split(s[1..], sep);
      [[s[0]] + rest[0]] + rest[1..]
  }

  /** `sep.join(fields)`. */
  function Join(fields: seq<string>, sep: char): string
    requires |fields| >= 1
    decreases |fields|
  {
    if |fields| == 1 then fields[0] else fields[0] + [sep] + Join(fields[1..], sep)
  }

  /** Splitting loses nothing: joining the fields back gives the string, and no
      field contains the separator. */
  lemma {:induction false} JoinSplit(s: string, sep: char)
    ensures Join(Split(s, sep), sep) == s
    ensures forall i :: 0 <= i < |Split(s, sep)| ==> sep !in Split(s, sep)[i]
    decreases |s|
  {
    if s != [] {
      var rest := Split(s[1..], sep);
      JoinSplit(s[1..], sep);
      if s[0] == sep {
        assert Split(s, sep)[1..] == rest;
      } else {
        var fields := Split(s, sep);
        assert fields[1..] == rest[1..];
        if |rest| > 1 {
          assert Join(rest, sep) == rest[0] + [sep] + Join(rest[1..], sep);
        }
        assert s == [s[0]] + s[1..];
        forall i | 0 <= i < |fields|
          ensures sep !in fields[i]
        {
          if i > 0 {
            assert fields[i] == rest[i];
          }
        }
      }
    }
  }

  /** A word without the separator, the separator, then the rest: the word is the
      first field and the rest's fields follow. */
  lemma {:induction false} SplitAfterWord(word: string, rest: string, sep: char)
    requires sep !in word
    ensures Split(word + [sep] + rest, sep) == [word] + Split(rest, sep)
    decreases |word|
  {
    var s := word + [sep] + rest;
    if word == [] {
      assert s[1..] == rest;
    } else {
      assert s[1..] == word[1..] + [sep] + rest;
      SplitAfterWord(word[1..], rest, sep);
      assert [word[0]] + word[1..] == word;
    }
  }

  /** The first field is the longest prefix free of the separator. */
  lemma {:induction false} FirstFieldIsLongestPrefix(s: string, sep: char)
    ensures Split(s, sep)[0] <= s
    ensures sep !in Split(s, sep)[0]
    ensures |Split(s, sep)[0]| < |s| ==> s[|Split(s, sep)[0]|] == sep
    decreases |s|
  {
    if s != [] && s[0] != sep {
      FirstFieldIsLongestPrefix(s[1..], sep);
    }
  }

  const BEARER_SCHEME := "Bearer"
  const TOKEN_SCHEME := "Token"

  /** `request.headers.get("Authorization", '')`. */
  function HeaderText(authorization: Option<string>): string {
    authorization.GetOr("")
  }

  /** The header starts with "Bearer " or with "Token ". */
  predicate HasAuthPrefix(header: string) {
    StartsWith(header, BEARER_SCHEME + " ") || StartsWith(header, TOKEN_SCHEME + " ")
  }

  /** The header after its scheme and the space. */
  function AfterScheme(header: string): string
    requires HasAuthPrefix(header)
  {
    if StartsWith(header, BEARER_SCHEME + " ") then header[|BEARER_SCHEME| + 1..] else header[|TOKEN_SCHEME| + 1..]
  }

  /** `auth_header.split(" ")[1]`: what follows the scheme, up to the next space or
      the end; "Bearer " followed by nothing gives the empty token. */
  function BearerToken(header: string): (token: string)
    requires HasAuthPrefix(header)
    ensures token <= AfterScheme(header)
    ensures ' ' !in token
    ensures |token| < |AfterScheme(header)| ==> AfterScheme(header)[|token|] == ' '
  {
    var scheme := if StartsWith(header, BEARER_SCHEME + " ") then BEARER_SCHEME else TOKEN_SCHEME;
    assert header == scheme + [' '] + AfterScheme(header);
    SplitAfterWord(scheme, AfterScheme(header), ' ');
    FirstFieldIsLongestPrefix(AfterScheme(header), ' ');
    Split(header, ' ')[1]
  }

  /** A token without spaces behind either scheme is read back unchanged. */
  lemma BearerTokenReadsBack(scheme: string, token: string)
    requires scheme == BEARER_SCHEME || scheme == TOKEN_SCHEME
    requires ' ' !in token
    ensures HasAuthPrefix(scheme + " " + token)
    ensures BearerToken(scheme + " " + token) == token
  {
    var header := scheme + " " + token;
    assert header[..|scheme| + 1] == scheme + " ";
    if scheme == TOKEN_SCHEME {
      assert header[0] == 'T' && (BEARER_SCHEME + " ")[0] == 'B';
    }
    assert AfterScheme(header) == token;
  }

  const HEADER_ERROR := "Authorization header must start with Bearer or Token"
  const TOKEN_TYPE_ERROR := "Invalid token type"
  const EXPIRED_ERROR := "Token expired"
  const INVALID_ERROR := "Invalid token"
  const USER_NOT_FOUND_ERROR := "User not found"

  /** The exception `CustomUser.objects.get` raises for an unknown id: no clause of
      the gate catches it (the last clause names a different class). */
  const USER_DOES_NOT_EXIST := "CustomUser.DoesNotExist"

  function Unauthorized(message: string): Response {
    Response(401, ErrorMessage(message))
  }

  /** The gate's verdict: run the view as this user, refuse, or raise. */
  datatype Gate = Admit(user: User) | Deny(response: Response) | Raise(exception: string)

  /** The decoded payload claims an access token (`payload.get("type") == ACCESS_TYPE`). */
  predicate IsAccessClaim(payload: JsonObject) {
    Get(payload, "type") == JString(ACCESS_TYPE)
  }

  /** `CustomUser.objects.get(id=payload.get("user_id"))`: only an integer id that is
      in the table resolves. */
  function ResolveUser(payload: JsonObject, users: map<UserId, User>): (u: Option<User>)
    ensures u.Some? <==> Get(payload, "user_id").JInt? && Get(payload, "user_id").i in users
    ensures u.Some? ==> u.value == users[Get(payload, "user_id").i]
  {
    match Get(payload, "user_id")
    case JInt(id) => if id in users then Some(users[id]) else None
    case _ => None
  }

  /** `jwt_access_required.wrapper` up to the call of the view. The checks run in the
      source's order: header prefix, then decoding (expired before any other
      failure), then the token type, then the user. */
  function AccessRequired(authorization: Option<string>, users: map<UserId, User>, decode: string -> Decoded): (g: Gate)
    requires UsersKeyed(users)
    ensures !HasAuthPrefix(HeaderText(authorization)) ==> g == Deny(Unauthorized(HEADER_ERROR))
    ensures g.Deny? ==> g.response.status == 401 && g.response != Unauthorized(USER_NOT_FOUND_ERROR)
    ensures g.Raise? ==>
              && g.exception == USER_DOES_NOT_EXIST
              && HasAuthPrefix(HeaderText(authorization))
              && decode(BearerToken(HeaderText(authorization))).Decoded?
              && IsAccessClaim(decode(BearerToken(HeaderText(authorization))).payload)
              && ResolveUser(decode(BearerToken(HeaderText(authorization))).payload, users).None?
    ensures g.Admit? ==>
              && HasAuthPrefix(HeaderText(authorization))
              && decode(BearerToken(HeaderText(authorization))).Decoded?
              && IsAccessClaim(decode(BearerToken(HeaderText(authorization))).payload)
              && g.user.id in users && users[g.user.id] == g.user
              && Get(decode(BearerToken(HeaderText(authorization))).payload, "user_id") == JInt(g.user.id)
  {
    var header := HeaderText(authorization);
    if !HasAuthPrefix(header) then
      Deny(Unauthorized(HEADER_ERROR))
    else
      match decode(BearerToken(header))
      case Expired => Deny(Unauthorized(EXPIRED_ERROR))
      case Invalid => Deny(Unauthorized(INVALID_ERROR))
      case Decoded(payload) =>
        if !IsAccessClaim(payload) then
          Deny(Unauthorized(TOKEN_TYPE_ERROR))
        else
          match ResolveUser(payload, users)
          case None => Raise(USER_DOES_NOT_EXIST)
          case Some(user) => Admit(user)
  }

  /** A bad header is refused before the token is decoded or any user looked up. */
  lemma HeaderCheckedFirst(authorization: Option<string>, users: map<UserId, User>, decode: string -> Decoded,
                           users': map<UserId, User>, decode': string -> Decoded)
    requires UsersKeyed(users) && UsersKeyed(users')
    requires !HasAuthPrefix(HeaderText(authorization))
    ensures AccessRequired(authorization, users, decode) == AccessRequired(authorization, users', decode')
  {
  }

  /** Each decoding failure has its own 401 message, and an expired token is never
      reported as merely invalid. */
  lemma DecodeFailuresRefused(authorization: Option<string>, users: map<UserId, User>, decode: string -> Decoded)
    requires UsersKeyed(users)
    requires HasAuthPrefix(HeaderText(authorization))
    ensures decode(BearerToken(HeaderText(authorization))) == Expired ==>
              AccessRequired(authorization, users, decode) == Deny(Unauthorized(EXPIRED_ERROR))
    ensures decode(BearerToken(HeaderText(authorization))) == Invalid ==>
              AccessRequired(authorization, users, decode) == Deny(Unauthorized(INVALID_ERROR))
  {
  }

  /** A decoded token whose type is not "access" (a refresh token, or none) is refused. */
  lemma WrongTypeRefused(authorization: Option<string>, users: map<UserId, User>, decode: string -> Decoded)
    requires UsersKeyed(users)
    requires HasAuthPrefix(HeaderText(authorization))
    requires decode(BearerToken(HeaderText(authorization))).Decoded?
    requires !IsAccessClaim(decode(BearerToken(HeaderText(authorization))).payload)
    ensures AccessRequired(authorization, users, decode) == Deny(Unauthorized(TOKEN_TYPE_ERROR))
  {
  }

  /** The gate admits exactly when the header, the token and its type are in order
      and the payload's `user_id` names a stored user, and then admits that user;
      an access token for an unknown user raises instead of answering 401. */
  lemma AdmitsExactlyKnownUsers(authorization: Option<string>, users: map<UserId, User>, decode: string -> Decoded)
    requires UsersKeyed(users)
    requires HasAuthPrefix(HeaderText(authorization))
    requires decode(BearerToken(HeaderText(authorization))).Decoded?
    requires IsAccessClaim(decode(BearerToken(HeaderText(authorization))).payload)
    ensures var payload := decode(BearerToken(HeaderText(authorization))).payload;
            AccessRequired(authorization, users, decode) ==
              if ResolveUser(payload, users).Some? then Admit(ResolveUser(payload, users).value)
              else Raise(USER_DOES_NOT_EXIST)
  {
  }

  /** An HTTP request as the views see it. The header and body are fixed; the gate
      sets `user`. */
  class Request {
    const authorization: Option<string>
    const body: Option<JsonObject>
    var user: Option<User>

    constructor (authorization: Option<string>, body: Option<JsonObject>)
      ensures this.authorization == authorization && this.body == body && user == None
    {
      this.authorization := authorization;
      this.body := body;
      user := None;
    }
  }

  /** The wrapper's own work: decide, and on admission set `request.user` to the
      resolved user (the view then runs once, as that user). */
  method Authorize(req: Request, users: map<UserId, User>, decode: string -> Decoded) returns (g: Gate)
    requires UsersKeyed(users)
    modifies req
    ensures g == AccessRequired(req.authorization, users, decode)
    ensures g.Admit? ==> req.user == Some(g.user)
    ensures !g.Admit? ==> req.user == old(req.user)
  {
    g := AccessRequired(req.authorization, users, decode);
    if g.Admit? {
      req.user := Some(g.user);
    }
  }

  /** What the request ends in when the gate does not admit it. */
  function Refusal(g: Gate): Outcome
    requires !g.Admit?
  {
    if g.Deny? then Respond(g.response) else Unhandled(g.exception)
  }

  /** A request the gate turns away ends either in a 401 that is never "User not
      found", or in the unhandled `CustomUser.DoesNotExist`, and the latter exactly
      for a decoded access-type token whose `user_id` names no stored user; the
      wrapped view never runs. */
  lemma RefusalOutcomes(authorization: Option<string>, users: map<UserId, User>, decode: string -> Decoded)
    requires UsersKeyed(users)
    requires !AccessRequired(authorization, users, decode).Admit?
    ensures var o := Refusal(AccessRequired(authorization, users, decode));
            && (o.Respond? ==> o.response.status == 401 && o.response != Unauthorized(USER_NOT_FOUND_ERROR))
            && (o.Unhandled? ==> o.exception == USER_DOES_NOT_EXIST)
            && (o.Unhandled? <==>
                  && HasAuthPrefix(HeaderText(authorization))
                  && decode(BearerToken(HeaderText(authorization))).Decoded?
                  && IsAccessClaim(decode(BearerToken(HeaderText(authorization))).payload)
                  && ResolveUser(decode(BearerToken(HeaderText(authorization))).payload, users).None?)
  {
  }
}
