/**
 * The application error classes, the mapping from a data-service error to
 * one of them, and the rule-based form field validator
 * (src/lib/error-handling.ts).
 */
module ErrorHandling {
  import opened Text

  /** The error classes; each subclass fixes its code and HTTP status. */
  datatype ErrorClass =
    | WorldWeaver      // the base class
    | Validation
    | Authentication
    | Authorization
    | NotFound
    | Conflict
    | RateLimit

  datatype AppError = AppError(
    cls: ErrorClass,
    message: string,
    code: Option<string>,
    statusCode: Option<int>)

  /** The code a subclass constructor passes to the base class. */
  function ClassCode(cls: ErrorClass): string
    requires cls != WorldWeaver
  {
    match cls
    case Validation => "VALIDATION_ERROR"
    case Authentication => "AUTH_ERROR"
    case Authorization => "AUTHORIZATION_ERROR"
    case NotFound => "NOT_FOUND"
    case Conflict => "CONFLICT"
    case RateLimit => "RATE_LIMIT"
  }

  /** The HTTP status a subclass constructor passes to the base class. */
  function ClassStatus(cls: ErrorClass): int
    requires cls != WorldWeaver
  {
    match cls
    case Validation => 400
    case Authentication => 401
    case Authorization => 403
    case NotFound => 404
    case Conflict => 409
    case RateLimit => 429
  }

  /** An error object as the constructors build it: a subclass always carries its own code and status. */
  predicate WellFormed(e: AppError)
  {
    e.cls != WorldWeaver ==> e.code == Some(ClassCode(e.cls)) && e.statusCode == Some(ClassStatus(e.cls))
  }

  /** `new WorldWeaverError(message, code)` */
  function BaseError(message: string, code: Option<string>): AppError
  {
    AppError(WorldWeaver, message, code, None)
  }

  /** `new ValidationError(message)` */
  function ValidationError(message: string): (e: AppError)
    ensures WellFormed(e) && e.cls == Validation && e.message == message
  {
    AppError(Validation, message, Some("VALIDATION_ERROR"), Some(400))
  }

  /** `new AuthenticationError(message)`; the default message is 'Authentication required'. */
  function AuthenticationError(message: string): (e: AppError)
    ensures WellFormed(e) && e.cls == Authentication && e.message == message
  {
    AppError(Authentication, message, Some("AUTH_ERROR"), Some(401))
  }

  /** `new AuthorizationError()` with its default message. */
  function AuthorizationError(): (e: AppError)
    ensures WellFormed(e) && e.cls == Authorization
  {
    AppError(Authorization, "Access denied", Some("AUTHORIZATION_ERROR"), Some(403))
  }

  /** `new NotFoundError(resource)`: the message is "<resource> not found". */
  function NotFoundError(resource: string): (e: AppError)
    ensures WellFormed(e) && e.cls == NotFound && e.message == resource + " not found"
  {
    AppError(NotFound, resource + " not found", Some("NOT_FOUND"), Some(404))
  }

  /** `new ConflictError(message)` */
  function ConflictError(message: string): (e: AppError)
    ensures WellFormed(e) && e.cls == Conflict && e.message == message
  {
    AppError(Conflict, message, Some("CONFLICT"), Some(409))
  }

  /** `new RateLimitError()` with its default message. */
  function RateLimitError(): (e: AppError)
    ensures WellFormed(e) && e.cls == RateLimit
  {
    AppError(RateLimit, "Rate limit exceeded", Some("RATE_LIMIT"), Some(429))
  }

  /** Each subclass has its own status, so the status identifies the class. */
  lemma StatusIdentifiesClass(a: ErrorClass, b: ErrorClass)
    requires a != WorldWeaver && b != WorldWeaver
    ensures ClassStatus(a) == ClassStatus(b) <==> a == b
    ensures ClassCode(a) == ClassCode(b) <==> a == b
  {
  }

  // ---------------------------------------------------------------------
  // parseSupabaseError

  /**
   * What the parser reads of a thrown service error: `code` and `message`,
   * each possibly missing. `None` for the whole error is `null`/`undefined`.
   */
  datatype RawError = RawError(code: Option<string>, message: Option<string>)

  /** `error.code` is truthy (present and not the empty string). */
  predicate HasCode(e: RawError)
  {
    e.code.Some? && e.code.value != []
  }

  /** `error.message?.includes(needle)` */
  predicate MessageIncludes(e: RawError, needle: string)
  {
    e.message.Some? && Contains(e.message.value, needle)
  }

  /** `error.message || fallback` */
  function MessageOr(e: RawError, fallback: string): string
  {
    if e.message.Some? && e.message.value != [] then e.message.value else fallback
  }

  /** True of the three message fragments that mark a failed sign-in. */
  predicate IsAuthMessage(e: RawError)
  {
    MessageIncludes(e, "Invalid login credentials")
    || MessageIncludes(e, "Email not confirmed")
    || MessageIncludes(e, "User not found")
  }

  function ParseSupabaseError(error: Option<RawError>): (r: AppError)
    ensures WellFormed(r)
    ensures error == None ==> r == BaseError("Unknown error occurred", None)
    // with a code, the code alone picks the class
    ensures r.cls == Conflict <==> error.Some? && HasCode(error.value) && error.value.code.value == "23505"
    ensures r.cls == Validation <==>
              error.Some? && HasCode(error.value) && error.value.code.value in {"23503", "23502"}
    ensures r.cls == NotFound <==> error.Some? && HasCode(error.value) && error.value.code.value == "PGRST116"
    ensures r.cls == Authorization <==> error.Some? && HasCode(error.value) && error.value.code.value == "42501"
    // without a code, the message decides
    ensures r.cls == Authentication <==> error.Some? && !HasCode(error.value) && IsAuthMessage(error.value)
    ensures r.cls != RateLimit
    // an unknown code is kept on the base error
    ensures r.cls == WorldWeaver && error.Some? && HasCode(error.value) ==>
              r.code == error.value.code && r.message == MessageOr(error.value, "Database error")
    ensures r.cls == WorldWeaver && error.Some? && !HasCode(error.value) ==> r.code == None
    // the fixed message of each known code
    ensures error.Some? && HasCode(error.value) ==>
              var c := error.value.code.value;
              && (c == "23505" ==> r.message == "A record with this information already exists")
              && (c == "23503" ==> r.message == "Referenced record does not exist")
              && (c == "23502" ==> r.message == "Required field is missing")
              && (c == "PGRST116" ==> r.message == "Resource not found")
              && (c == "42501" ==> r.message == "Access denied")
    // without a code, the first matching fragment picks the message
    ensures error.Some? && !HasCode(error.value) ==>
              var e := error.value;
              if MessageIncludes(e, "Invalid login credentials") then r.message == "Invalid email or password"
              else if MessageIncludes(e, "Email not confirmed") then r.message == "Please confirm your email address"
              else if MessageIncludes(e, "User not found") then r.message == "User not found"
              else if MessageIncludes(e, "fetch") then r.message == "Network error. Please check your connection."
              else r.message == MessageOr(e, "An unexpected error occurred")
  {
    match error
    case None => BaseError("Unknown error occurred", None)
    case Some(e) =>
      if HasCode(e) then
        var c := e.code.value;
        if c == "23505" then ConflictError("A record with this information already exists")
        else if c == "23503" then ValidationError("Referenced record does not exist")
        else if c == "23502" then ValidationError("Required field is missing")
        else if c == "PGRST116" then NotFoundError("Resource")
        else if c == "42501" then AuthorizationError()
        else BaseError(MessageOr(e, "Database error"), e.code)
      else if MessageIncludes(e, "Invalid login credentials") then
        AuthenticationError("Invalid email or password")
      else if MessageIncludes(e, "Email not confirmed") then
        AuthenticationError("Please confirm your email address")
      else if MessageIncludes(e, "User not found") then
        AuthenticationError("User not found")
      else if MessageIncludes(e, "fetch") then
        BaseError("Network error. Please check your connection.", None)
      else
        BaseError(MessageOr(e, "An unexpected error occurred"), None)
  }

  /** A code decides the result on its own: two errors with the same code parse alike, whatever their messages. */
  lemma CodeDecides(a: RawError, b: RawError)
    requires HasCode(a) && a.code == b.code
    requires a.code.value in {"23505", "23503", "23502", "PGRST116", "42501"}
    ensures ParseSupabaseError(Some(a)) == ParseSupabaseError(Some(b))
  {
  }

  /** Without a code, the message fragments are tried in a fixed order: a sign-in failure beats a network failure. */
  lemma AuthBeforeNetwork(e: RawError)
    requires !HasCode(e) && IsAuthMessage(e) && MessageIncludes(e, "fetch")
    ensures ParseSupabaseError(Some(e)).cls == Authentication
  {
  }

  /** A message mentioning `fetch` (and no code or sign-in fragment) is reported as a network failure. */
  lemma FetchIsNetworkError(e: RawError)
    requires !HasCode(e) && !IsAuthMessage(e) && MessageIncludes(e, "fetch")
    ensures ParseSupabaseError(Some(e)) == BaseError("Network error. Please check your connection.", None)
  {
  }

  // ---------------------------------------------------------------------
  // validateField / validateSchema

  /** The JavaScript values a form field can hold, as far as truthiness and `typeof` go. */
  datatype JsValue =
    | Undefined
    | Null
    | Bool(b: bool)
    | Num(n: int)
    | Str(s: string)
    | Object            // arrays and other objects: always truthy

  predicate Truthy(v: JsValue)
  {
    match v
    case Undefined => false
    case Null => false
    case Bool(b) => b
    case Num(n) => n != 0
    case Str(s) => s != []
    case Object => true
  }

  /**
   * A validation rule. A missing length bound is `None`; the regular
   * expression and the custom rule are opaque functions.
   */
  datatype ValidationRule = ValidationRule(
    required: bool,
    minLength: Option<nat>,
    maxLength: Option<nat>,
    pattern: Option<string -> bool>,
    custom: Option<JsValue -> Option<string>>)

  const RequiredMessage := "This field is required"
  const FormatMessage := "Invalid format"

  function TooShortMessage(n: nat): string { "Must be at least " + NatToString(n) + " characters" }
  function TooLongMessage(n: nat): string { "Must be no more than " + NatToString(n) + " characters" }

  /** A bound given as 0 is falsy, so it is ignored like a missing one. */
  predicate BoundSet(b: Option<nat>)
  {
    b.Some? && b.value != 0
  }

  function BoundValue(b: Option<nat>): nat
  {
    if b.Some? then b.value else 0
  }

  /** The `required` check passes. */
  predicate MeetsRequired(v: JsValue, rules: ValidationRule)
  {
    !rules.required || (Truthy(v) && !(v.Str? && IsBlank(v.s)))
  }

  /** The length and pattern checks, which apply only to non-empty strings, pass. */
  predicate MeetsStringRules(v: JsValue, rules: ValidationRule)
  {
    !(v.Str? && v.s != []) ||
      (&& (BoundSet(rules.minLength) ==> |v.s| >= rules.minLength.value)
       && (BoundSet(rules.maxLength) ==> |v.s| <= rules.maxLength.value)
       && (rules.pattern.Some? ==> rules.pattern.value(v.s)))
  }

  /** A non-empty string shorter than a set minimum. */
  predicate TooShort(v: JsValue, rules: ValidationRule)
  {
    v.Str? && v.s != [] && BoundSet(rules.minLength) && |v.s| < rules.minLength.value
  }

  /** A non-empty string longer than a set maximum. */
  predicate TooLong(v: JsValue, rules: ValidationRule)
  {
    v.Str? && v.s != [] && BoundSet(rules.maxLength) && |v.s| > rules.maxLength.value
  }

  /** A non-empty string the pattern rejects. */
  predicate BadFormat(v: JsValue, rules: ValidationRule)
  {
    v.Str? && v.s != [] && rules.pattern.Some? && !rules.pattern.value(v.s)
  }

  /** The string checks pass exactly when none of the three failures occurs. */
  lemma StringRulesSplit(v: JsValue, rules: ValidationRule)
    ensures MeetsStringRules(v, rules) <==> !TooShort(v, rules) && !TooLong(v, rules) && !BadFormat(v, rules)
  {
  }

  function ValidateField(value: JsValue, rules: ValidationRule): (r: Option<string>)
    // the built-in checks come first and their messages are fixed
    ensures !MeetsRequired(value, rules) ==> r == Some(RequiredMessage)
    ensures MeetsRequired(value, rules) && !MeetsStringRules(value, rules) ==>
              r.Some? && r.value in {FormatMessage,
                                     TooShortMessage(BoundValue(rules.minLength)),
                                     TooLongMessage(BoundValue(rules.maxLength))}
    // among the string checks the order is minimum length, maximum length, pattern
    ensures MeetsRequired(value, rules) && TooShort(value, rules) ==>
              r == Some(TooShortMessage(rules.minLength.value))
    ensures MeetsRequired(value, rules) && !TooShort(value, rules) && TooLong(value, rules) ==>
              r == Some(TooLongMessage(rules.maxLength.value))
    ensures MeetsRequired(value, rules) && !TooShort(value, rules) && !TooLong(value, rules) && BadFormat(value, rules) ==>
              r == Some(FormatMessage)
    // once they pass, the custom rule's answer is the result, verbatim
    ensures MeetsRequired(value, rules) && MeetsStringRules(value, rules) ==>
              r == (if rules.custom.Some? then rules.custom.value(value) else None)
  {
    if rules.required && (!Truthy(value) || (value.Str? && IsBlank(value.s))) then
      Some(RequiredMessage)
    else if value.Str? && value.s != [] && BoundSet(rules.minLength) && |value.s| < rules.minLength.value then
      Some(TooShortMessage(rules.minLength.value))
    else if value.Str? && value.s != [] && BoundSet(rules.maxLength) && |value.s| > rules.maxLength.value then
      Some(TooLongMessage(rules.maxLength.value))
    else if value.Str? && value.s != [] && rules.pattern.Some? && !rules.pattern.value(value.s) then
      Some(FormatMessage)
    else if rules.custom.Some? then
      rules.custom.value(value)
    else
      None
  }

  /** A failed `required` check hides every other rule. */
  lemma RequiredWins(value: JsValue, rules: ValidationRule, other: ValidationRule)
    requires rules.required && !MeetsRequired(value, rules)
    requires other.required
    ensures ValidateField(value, other) == ValidateField(value, rules) == Some(RequiredMessage)
  {
  }

  /** Falsy values fail `required`, including 0 and false. */
  lemma FalsyIsMissing(rules: ValidationRule)
    requires rules.required
    ensures ValidateField(Num(0), rules) == Some(RequiredMessage)
    ensures ValidateField(Bool(false), rules) == Some(RequiredMessage)
    ensures ValidateField(Str("  "), rules) == Some(RequiredMessage)
  {
    assert AllSpace("  ");
  }

  /** The first failing string rule wins: a too-short value is reported as such whatever the later rules say. */
  lemma MinLengthBeforeMaxAndPattern(value: JsValue, rules: ValidationRule, later: ValidationRule)
    requires MeetsRequired(value, rules) && value.Str? && value.s != []
    requires BoundSet(rules.minLength) && |value.s| < rules.minLength.value
    requires later.required == rules.required && later.minLength == rules.minLength
    ensures ValidateField(value, later) == ValidateField(value, rules) == Some(TooShortMessage(rules.minLength.value))
  {
  }

  /** A bound of 0 behaves exactly like a missing bound. */
  lemma ZeroBoundIsAbsent(value: JsValue, rules: ValidationRule)
    ensures ValidateField(value, rules.(minLength := Some(0))) == ValidateField(value, rules.(minLength := None))
    ensures ValidateField(value, rules.(maxLength := Some(0))) == ValidateField(value, rules.(maxLength := None))
  {
  }

  /** `data[field]`: a key that is not there reads as `undefined`. */
  function Lookup(data: map<string, JsValue>, field: string): JsValue
  {
    if field in data then data[field] else Undefined
  }

  /**
   * The entry `validateSchema` records for one field: the message, unless it
   * is null or the empty string (`if (error)` skips both).
   */
  function FieldError(data: map<string, JsValue>, field: string, rules: ValidationRule): (r: Option<string>)
    ensures r.Some? ==> r.value != [] && r == ValidateField(Lookup(data, field), rules)
    ensures r.None? ==> ValidateField(Lookup(data, field), rules) in {None, Some([])}
  {
    var e := ValidateField(Lookup(data, field), rules);
    if e.Some? && e.value != [] then e else None
  }

  /** The field names of a schema are distinct, as the keys of an object are. */
  predicate DistinctFields(schema: seq<(string, ValidationRule)>)
  {
    forall i, j | 0 <= i < j < |schema| :: schema[i].0 != schema[j].0
  }

  /** The fields of `schema` that `validateSchema` reports. */
  function FailingFields(data: map<string, JsValue>, schema: seq<(string, ValidationRule)>): set<string>
  {
    set i | 0 <= i < |schema| && FieldError(data, schema[i].0, schema[i].1).Some? :: schema[i].0
  }

  method ValidateSchema(data: map<string, JsValue>, schema: seq<(string, ValidationRule)>)
    returns (errors: map<string, string>)
    requires DistinctFields(schema)
    ensures errors.Keys == FailingFields(data, schema)
    ensures forall i | 0 <= i < |schema| && schema[i].0 in errors ::
              Some(errors[schema[i].0]) == FieldError(data, schema[i].0, schema[i].1)
  {
    errors := map[];
    for n := 0 to |schema|
      invariant errors.Keys == FailingFields(data, schema[..n])
      invariant forall i | 0 <= i < n && schema[i].0 in errors ::
                  Some(errors[schema[i].0]) == FieldError(data, schema[i].0, schema[i].1)
    {
      var (field, rules) := schema[n];
      var error := ValidateField(Lookup(data, field), rules);
      if error.Some? && error.value != [] {
        errors := errors[field := error.value];
      }
      assert schema[..n + 1][..n] == schema[..n];
    }
    assert schema[..|schema|] == schema;
  }

  /** A data key that is not a schema field is never reported. */
  lemma OnlySchemaFieldsReported(data: map<string, JsValue>, schema: seq<(string, ValidationRule)>, key: string)
    requires forall i | 0 <= i < |schema| :: schema[i].0 != key
    ensures key !in FailingFields(data, schema)
  {
  }
}
