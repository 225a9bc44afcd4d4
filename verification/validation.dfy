/** The semantics of declarative `length(min = ..)` field rules: a small rule
    interpreter producing the field-indexed error collection that a derived
    `validate()` reports. */
module Validation {
  import opened Wrappers

  /** One failed rule on one field: its code, its message, and the parameters
      recorded with it (the required minimum and the offending value). */
  datatype FieldError = FieldError(code: string, message: Option<string>, min: nat, value: string)

  /** Field name to the failures recorded for it. */
  datatype ValidationErrors = ValidationErrors(errors: map<string, ErrorsKind>)

  /** The failures of one entry: a plain field's list of failures, or the
      collection of a nested struct or of a list's elements. */
  datatype ErrorsKind =
    | FieldKind(list: seq<FieldError>)
    | StructKind(nested: ValidationErrors)
    | ListKind(elements: map<nat, ValidationErrors>)

  /** `ValidationErrors::new()`. */
  const NoErrors: ValidationErrors := ValidationErrors(map[])

  /** `#[validate(length(min = .., message = ..))]` on the string field
      `field`. */
  datatype LengthRule = LengthRule(field: string, min: nat, message: string)

  /** A rule fails when the value it guards has fewer than `min` characters. */
  predicate Violates(rule: LengthRule, fields: map<string, string>) {
    rule.field in fields && |fields[rule.field]| < rule.min
  }

  /** The failure a violated length rule records. */
  function LengthError(rule: LengthRule, fields: map<string, string>): FieldError
    requires rule.field in fields
  {
    FieldError("length", Some(rule.message), rule.min, fields[rule.field])
  }

  /** The plain-field failures already recorded for `field`. */
  function Recorded(acc: ValidationErrors, field: string): seq<FieldError> {
    if field in acc.errors && acc.errors[field].FieldKind? then acc.errors[field].list else []
  }

  /** Runs the rules in declaration order, appending each failure to its
      field's list (`ValidationErrors::add`); a field gets an entry only once a
      rule on it fails. */
  function Check(rules: seq<LengthRule>, fields: map<string, string>): (r: ValidationErrors)
    ensures forall f :: f in r.errors ==> r.errors[f].FieldKind? && |r.errors[f].list| > 0
    ensures forall f :: f in r.errors ==> exists i :: 0 <= i < |rules| && rules[i].field == f
  {
    if |rules| == 0 then NoErrors
    else
      var acc := Check(rules[..|rules| - 1], fields);
      var rule := rules[|rules| - 1];
      if Violates(rule, fields) then
        ValidationErrors(acc.errors[rule.field := FieldKind(Recorded(acc, rule.field) + [LengthError(rule, fields)])])
      else
        acc
  }

  /** Reference definition, one field at a time: the failures of the rules on
      `field` that fail, in rule order. */
  function FailuresOn(rules: seq<LengthRule>, fields: map<string, string>, field: string): seq<FieldError> {
    if |rules| == 0 then []
    else
      var rule := rules[0];
      (if rule.field == field && Violates(rule, fields) then [LengthError(rule, fields)] else [])
      + FailuresOn(rules[1..], fields, field)
  }

  /** Extending the rule list by one rule extends each field's failures by at
      most that rule's. */
  lemma {:induction false} FailuresOnSnoc(rules: seq<LengthRule>, rule: LengthRule,
                                          fields: map<string, string>, field: string)
    ensures FailuresOn(rules + [rule], fields, field) ==
              FailuresOn(rules, fields, field)
              + (if rule.field == field && Violates(rule, fields) then [LengthError(rule, fields)] else [])
  {
    if |rules| == 0 {
      assert rules + [rule] == [rule];
    } else {
      assert (rules + [rule])[1..] == rules[1..] + [rule];
      FailuresOnSnoc(rules[1..], rule, fields, field);
    }
  }

  /** The error collection holds an entry for a field exactly when some rule
      on it fails, and that entry lists exactly those failures, in rule
      order. */
  lemma {:induction false} CheckIsPerFieldFailures(rules: seq<LengthRule>, fields: map<string, string>, field: string)
    ensures field in Check(rules, fields).errors <==> |FailuresOn(rules, fields, field)| > 0
    ensures field in Check(rules, fields).errors ==>
              Check(rules, fields).errors[field] == FieldKind(FailuresOn(rules, fields, field))
  {
    if |rules| > 0 {
      var init := rules[..|rules| - 1];
      var rule := rules[|rules| - 1];
      assert init + [rule] == rules;
      CheckIsPerFieldFailures(init, fields, field);
      FailuresOnSnoc(init, rule, fields, field);
    }
  }

  /** A field's failures are non-empty exactly when one of its rules fails. */
  lemma {:induction false} FailuresOnNonEmpty(rules: seq<LengthRule>, fields: map<string, string>, field: string)
    ensures |FailuresOn(rules, fields, field)| > 0 <==>
              exists i :: 0 <= i < |rules| && rules[i].field == field && Violates(rules[i], fields)
  {
    if |rules| > 0 {
      FailuresOnNonEmpty(rules[1..], fields, field);
      if |FailuresOn(rules[1..], fields, field)| > 0 {
        var i :| 0 <= i < |rules[1..]| && rules[1..][i].field == field && Violates(rules[1..][i], fields);
        assert rules[i + 1] == rules[1..][i];
      }
      if exists i :: 0 <= i < |rules| && rules[i].field == field && Violates(rules[i], fields) {
        var i :| 0 <= i < |rules| && rules[i].field == field && Violates(rules[i], fields);
        if i > 0 {
          assert rules[1..][i - 1] == rules[i];
        }
      }
    }
  }
}
