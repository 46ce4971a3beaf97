/** The JSON responses the views send, and the outcome of a request whose
    exception escapes the view (the framework then answers with a server error). */
module Responses {
  import opened Accounts
  import opened LinkModels

  /** The body of a `JsonResponse`. */
  datatype Body =
    | ErrorMessage(error: string)          // {"error": "..."}
    | FieldErrors(errors: set<string>)     // {"errors": {...}}, by the names of the fields in error
    | RuleBody(rule: RuleView)             // one rule's `as_dict`
    | RuleList(rules: seq<RuleView>)       // a list of `as_dict`s
    | EmptyObject                          // {}
    | Tokens(access: string, refresh: string, username: string, userId: UserId)

  datatype Response = Response(status: int, body: Body)

  /** What a request ends in: a response, or an exception no handler catches. */
  datatype Outcome = Respond(response: Response) | Unhandled(exception: string)

  const INVALID_JSON := "Invalid JSON"
  const RULE_NOT_FOUND := "RedirectRule not found"

  /** The 404 every rule lookup answers with when it finds nothing. */
  const NOT_FOUND := Response(404, ErrorMessage(RULE_NOT_FOUND))
}
