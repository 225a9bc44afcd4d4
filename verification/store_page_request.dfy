/** The inbound request that creates a page, its two required-field rules,
    and the validation entry point that reports failures as data. */
module StorePageRequests {
  import opened Wrappers
  import opened AppError
  import opened Validation

  /** One free-form block of page content. */
  datatype ComponentContent = ComponentContent(id: string, name: string, identifier: string, content: string)

  /** The body of a store-page request. */
  datatype StorePageRequest = StorePageRequest(
    name: string,
    identifier: string,
    componentContent: seq<ComponentContent>)

  const NameRequired: string := "The name is a required field."
  const IdentifierRequired: string := "The identifier is a required field."

  /** The rules declared on the request: `name` and `identifier` must each
      hold at least one character. `componentContent` carries none. */
  const StorePageRules: seq<LengthRule> :=
    [LengthRule("name", 1, NameRequired), LengthRule("identifier", 1, IdentifierRequired)]

  /** The request's fields as the rules see them, by field name. */
  function RuleFields(req: StorePageRequest): map<string, string> {
    map["name" := req.name, "identifier" := req.identifier]
  }

  /** The failure a required-field rule records for an empty value. */
  function Required(message: string): ErrorsKind {
    FieldKind([FieldError("length", Some(message), 1, "")])
  }

  /** What the two rules record: one failure for each empty required field,
      and nothing else. */
  lemma StorePageFailures(req: StorePageRequest)
    ensures Check(StorePageRules, RuleFields(req)).errors ==
              (if req.name == "" then map["name" := Required(NameRequired)] else map[])
              + (if req.identifier == "" then map["identifier" := Required(IdentifierRequired)] else map[])
  {
    var fields := RuleFields(req);
    var errors := Check(StorePageRules, fields).errors;
    var expected := (if req.name == "" then map["name" := Required(NameRequired)] else map[])
                    + (if req.identifier == "" then map["identifier" := Required(IdentifierRequired)] else map[]);
    // Presence: an entry exists exactly when a rule on the field fails.
    CheckIsPerFieldFailures(StorePageRules, fields, "name");
    CheckIsPerFieldFailures(StorePageRules, fields, "identifier");
    FailuresOnNonEmpty(StorePageRules, fields, "name");
    FailuresOnNonEmpty(StorePageRules, fields, "identifier");
    assert Violates(StorePageRules[0], fields) <==> req.name == "";
    assert Violates(StorePageRules[1], fields) <==> req.identifier == "";
    // Contents: each field's failures are its own rule's, when that fails.
    assert StorePageRules[1..][1..] == [];
    assert FailuresOn(StorePageRules, fields, "name") ==
             (if req.name == "" then [FieldError("length", Some(NameRequired), 1, "")] else []);
    assert FailuresOn(StorePageRules, fields, "identifier") ==
             (if req.identifier == "" then [FieldError("length", Some(IdentifierRequired), 1, "")] else []);
    // No other field carries a rule, so no other field has an entry.
    assert errors.Keys == expected.Keys;
  }

  /** The derived `validate()`: `Ok` when no rule fails, otherwise `Err` with
      the collected failures. */
  function Validate(req: StorePageRequest): (r: Result<(), ValidationErrors>)
    ensures r.Success? <==> req.name != "" && req.identifier != ""
    ensures r.Failure? ==> r.error.errors.Keys <= {"name", "identifier"}
    ensures r.Failure? ==> ("name" in r.error.errors <==> req.name == "")
    ensures r.Failure? ==> ("identifier" in r.error.errors <==> req.identifier == "")
    ensures r.Failure? && req.name == "" ==> r.error.errors["name"] == Required(NameRequired)
    ensures r.Failure? && req.identifier == "" ==> r.error.errors["identifier"] == Required(IdentifierRequired)
  {
    var errors := Check(StorePageRules, RuleFields(req));
    StorePageFailures(req);
    if errors.errors == map[] then Success(()) else Failure(errors)
  }

  /** `StorePageRequest::validate_errors`: runs the rules and returns the
      collection as it is, empty when nothing failed. The walk over the
      entries visits every plain-field failure and skips nested groupings; it
      changes nothing. */
  method ValidateErrors(req: StorePageRequest) returns (r: Result<ValidationErrors, Error>)
    ensures r.Success?
    ensures r.value.errors == map[] <==> req.name != "" && req.identifier != ""
    ensures r.value.errors.Keys <= {"name", "identifier"}
    ensures "name" in r.value.errors <==> req.name == ""
    ensures "identifier" in r.value.errors <==> req.identifier == ""
    ensures req.name == "" ==> r.value.errors["name"] == Required(NameRequired)
    ensures req.identifier == "" ==> r.value.errors["identifier"] == Required(IdentifierRequired)
    ensures r.value == (match Validate(req) case Success(_) => NoErrors case Failure(e) => e)
  {
    var list := match Validate(req)
                case Success(_) => NoErrors
                case Failure(errors) => errors;
    var pending := list.errors.Keys;
    while pending != {}
      invariant pending <= list.errors.Keys
      decreases pending
    {
      var field :| field in pending;
      match list.errors[field] {
        case FieldKind(fieldErrors) =>
          for i := 0 to |fieldErrors| {
          }
        case StructKind(_) =>
        case ListKind(_) =>
      }
      pending := pending - {field};
    }
    r := Success(list);
  }

  /** The content blocks carry no rules: two requests that agree on `name`
      and `identifier` validate alike. */
  lemma ComponentContentIsNotValidated(a: StorePageRequest, b: StorePageRequest)
    requires a.name == b.name && a.identifier == b.identifier
    ensures Validate(a) == Validate(b)
  {
  }
}
