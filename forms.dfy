/** The request forms: `UrlsForm` and `UrlsPatchForm` (app/links/forms.py) and the
    login form of app/common/views.py. Django's field cleaning is modelled down to
    three steps it delegates to library code, given as the abstract `FieldRules`:
    text conversion (`str()` then strip), URL conversion (text, then a default
    scheme) and URL validation. Which values count as empty, which fields are
    required and how a checkbox value becomes a boolean are modelled exactly. */
module Forms {
  import opened Base

  datatype FieldRules = FieldRules(
    text: Json -> string,       // CharField.to_python on a non-empty value
    url: Json -> string,        // URLField.to_python on a non-empty value
    validUrl: string -> bool)   // URLValidator

  /** The outcome of cleaning one field: the cleaned value, or a field error. */
  datatype Cleaned<T> = Clean(value: T) | Rejected

  /** Django's `Field.empty_values`: None, "", [] and {}. */
  predicate IsEmptyValue(j: Json) {
    j == JNull || j == JString("") || j == JArray([]) || j == JObject(map[])
  }

  /** A CharField's cleaned text: "" for a missing or empty value, otherwise the
      conversion of the value. */
  function CleanText(data: JsonObject, name: string, rules: FieldRules): (s: string)
    ensures IsEmptyValue(Get(data, name)) ==> s == ""
    ensures !IsEmptyValue(Get(data, name)) ==> s == rules.text(data[name])
  {
    var j := Get(data, name);
    if IsEmptyValue(j) then "" else rules.text(j)
  }

  /** The field is missing or empty, or its value converts to "". */
  predicate IsBlankUrl(data: JsonObject, name: string, rules: FieldRules) {
    IsEmptyValue(Get(data, name)) || rules.url(Get(data, name)) == ""
  }

  /** A URLField: a value that is empty, or converts to "", is an error exactly when
      the field is required and cleans to "" otherwise; any other value is accepted
      exactly when its conversion passes URL validation, and cleans to that conversion. */
  function CleanUrl(data: JsonObject, name: string, required: bool, rules: FieldRules): (r: Cleaned<string>)
    ensures r.Clean? && r.value != "" ==> rules.validUrl(r.value)
    ensures r.Clean? && r.value == "" ==> !required
    ensures IsBlankUrl(data, name, rules) ==> (r.Rejected? <==> required) && (r.Clean? ==> r.value == "")
    ensures !IsBlankUrl(data, name, rules) ==>
              && name in data
              && (r.Clean? <==> rules.validUrl(rules.url(data[name])))
              && (r.Clean? ==> r.value == rules.url(data[name]))
  {
    var j := Get(data, name);
    var s := if IsEmptyValue(j) then "" else rules.url(j);
    if s == "" then
      if required then Rejected else Clean("")
    else if rules.validUrl(s) then Clean(s)
    else Rejected
  }

  /** CheckboxInput reading a form value: the strings "true" and "false" (in any
      ASCII case) become booleans, everything else is passed on. */
  function CheckboxValue(j: Json): Json {
    match j
    case JString(s) =>
      if AsciiLower(s) == "true" then JBool(true)
      else if AsciiLower(s) == "false" then JBool(false)
      else j
    case _ => j
  }

  /** Python truthiness of a JSON value. */
  predicate Truthy(j: Json) {
    match j
    case JNull => false
    case JBool(b) => b
    case JInt(i) => i != 0
    case JString(s) => s != ""
    case JArray(items) => items != []
    case JObject(fields) => fields != map[]
  }

  /** A `BooleanField(required=False)` behind a CheckboxInput: a missing key is
      false and the field never reports an error. */
  function CleanBoolean(data: JsonObject, name: string): (b: bool)
    ensures name !in data ==> !b
    ensures name in data && data[name].JBool? ==> b == data[name].b
    ensures name in data && data[name] == JString("false") ==> !b
  {
    name in data && Truthy(CheckboxValue(data[name]))
  }

  datatype UrlsFormResult =
    | UrlsValid(redirectUrl: string, isPrivate: bool)
    | UrlsInvalid(errors: set<string>)

  /** `UrlsForm`: `redirect_url` is a required URLField, `is_private` an optional
      BooleanField. Only `redirect_url` can be in error. */
  function UrlsForm(data: JsonObject, rules: FieldRules): (r: UrlsFormResult)
    ensures r.UrlsInvalid? ==> r.errors == {"redirect_url"}
    ensures r.UrlsValid? ==> r.redirectUrl != "" && rules.validUrl(r.redirectUrl)
    ensures r.UrlsValid? ==> r.isPrivate == CleanBoolean(data, "is_private")
    ensures IsBlankUrl(data, "redirect_url", rules) ==> r.UrlsInvalid?
    ensures !IsBlankUrl(data, "redirect_url", rules) ==>
              && (r.UrlsValid? <==> rules.validUrl(rules.url(data["redirect_url"])))
              && (r.UrlsValid? ==> r.redirectUrl == rules.url(data["redirect_url"]))
  {
    match CleanUrl(data, "redirect_url", true, rules)
    case Rejected => UrlsInvalid({"redirect_url"})
    case Clean(u) => UrlsValid(u, CleanBoolean(data, "is_private"))
  }

  /** `UrlsPatchForm`: both fields optional; a missing URL cleans to "". */
  function UrlsPatchForm(data: JsonObject, rules: FieldRules): (r: UrlsFormResult)
    ensures r.UrlsInvalid? ==> r.errors == {"redirect_url"} && "redirect_url" in data
    ensures r.UrlsValid? && r.redirectUrl != "" ==> rules.validUrl(r.redirectUrl)
    ensures r.UrlsValid? ==> r.isPrivate == CleanBoolean(data, "is_private")
    ensures IsBlankUrl(data, "redirect_url", rules) ==> r == UrlsValid("", CleanBoolean(data, "is_private"))
    ensures !IsBlankUrl(data, "redirect_url", rules) ==>
              && (r.UrlsValid? <==> rules.validUrl(rules.url(data["redirect_url"])))
              && (r.UrlsValid? ==> r.redirectUrl == rules.url(data["redirect_url"]))
  {
    match CleanUrl(data, "redirect_url", false, rules)
    case Rejected => UrlsInvalid({"redirect_url"})
    case Clean(u) => UrlsValid(u, CleanBoolean(data, "is_private"))
  }

  datatype LoginFormResult =
    | LoginValid(username: string, password: string)
    | LoginInvalid(errors: set<string>)

  /** The login form: `username` and `password`, both required text fields. The
      errors name exactly the fields that are missing or blank. */
  function RetrieveTokenForm(data: JsonObject, rules: FieldRules): (r: LoginFormResult)
    ensures r.LoginValid? <==> CleanText(data, "username", rules) != "" && CleanText(data, "password", rules) != ""
    ensures r.LoginValid? ==> r.username == CleanText(data, "username", rules) && r.password == CleanText(data, "password", rules)
    ensures r.LoginInvalid? ==> r.errors != {} && r.errors <= {"username", "password"}
    ensures r.LoginInvalid? ==> ("username" in r.errors <==> CleanText(data, "username", rules) == "")
    ensures r.LoginInvalid? ==> ("password" in r.errors <==> CleanText(data, "password", rules) == "")
  {
    var username := CleanText(data, "username", rules);
    var password := CleanText(data, "password", rules);
    if username != "" && password != "" then LoginValid(username, password)
    else LoginInvalid((if username == "" then {"username"} else {}) + (if password == "" then {"password"} else {}))
  }
}
