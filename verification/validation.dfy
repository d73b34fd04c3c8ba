/** The declarative field validator `validate(data, rules)` (todo.jsx and
    todo.js, identical in both): every field carries an ordered list of
    rules, the first failing rule of a field records that field's message,
    and the call succeeds when no field recorded one. */
module Validation {
  import opened Base
  import opened Text
  import opened Seqs

  /** The rule strings `'required'`, `'email'`, `'minLength:N'`,
      `'maxLength:N'` and `'match:field'` as a closed set of variants. */
  datatype Rule = Required | Email | MinLength(min: nat) | MaxLength(max: nat) | Match(other: string)

  /** One entry of the rules object: a field name and its ordered rules. */
  datatype FieldRules = FieldRules(field: string, rules: seq<Rule>)

  /** The data object: field name to submitted string. */
  type Data = map<string, string>

  datatype FieldError = FieldError(field: string, message: string)

  /** `{ success, errors }`, the errors object given as its entries in
      insertion order (the order `Object.values` reports them in). */
  datatype Validation = Validation(success: bool, errors: seq<FieldError>)

  /** `data[field]`; a field the data object lacks reads as `undefined`. */
  function ValueOf(data: Data, field: string): Option<string> {
    if field in data then Some(data[field]) else None
  }

  /** A value JavaScript treats as truthy: a non-empty string. */
  predicate Truthy(v: Option<string>) {
    v.Some? && v.value != []
  }

  /** Whether `rule` rejects the value `v` of a field of `data`. */
  predicate Fails(rule: Rule, v: Option<string>, data: Data) {
    match rule
    case Required => !Truthy(v) || Trim(v.value) == []
    case Email => Truthy(v) && !IsEmail(v.value)
    case MinLength(n) => Truthy(v) && |v.value| < n
    case MaxLength(n) => Truthy(v) && |v.value| > n
    case Match(other) => v != ValueOf(data, other)
  }

  /** The message a failing rule records. */
  function Message(rule: Rule): (m: string)
    ensures m != []
  {
    match rule
    case Required => "Required field"
    case Email => "Invalid email format"
    case MinLength(n) => "Must be at least " + Decimal(n) + " characters"
    case MaxLength(n) => "Must be " + Decimal(n) + " characters or less"
    case Match(_) => "Passwords do not match"
  }

  /** The inner loop with its `break`: the first rule that rejects `v`. */
  function FirstFailure(rules: seq<Rule>, v: Option<string>, data: Data): (r: Option<Rule>)
    ensures r.None? <==> forall j | 0 <= j < |rules| :: !Fails(rules[j], v, data)
    ensures r.Some? ==> exists i :: FirstAt(rules, rule => Fails(rule, v, data), i) && rules[i] == r.value
  {
    Find(rules, rule => Fails(rule, v, data))
  }

  /** The message one field records, if any of its rules fails. */
  function FieldMessage(data: Data, fr: FieldRules): (r: Option<string>)
    ensures r.None? <==> forall j | 0 <= j < |fr.rules| :: !Fails(fr.rules[j], ValueOf(data, fr.field), data)
    ensures r.Some? ==> exists i :: FirstAt(fr.rules, rule => Fails(rule, ValueOf(data, fr.field), data), i)
                                   && r.value == Message(fr.rules[i])
    ensures r.Some? ==> r.value != []
  {
    match FirstFailure(fr.rules, ValueOf(data, fr.field), data)
    case None => None
    case Some(rule) => Some(Message(rule))
  }

  /** Field names are distinct, as the keys of an object literal are. */
  predicate DistinctFields(rules: seq<FieldRules>) {
    forall i, j | 0 <= i < j < |rules| :: rules[i].field != rules[j].field
  }

  predicate DistinctErrorFields(errors: seq<FieldError>) {
    forall i, j | 0 <= i < j < |errors| :: errors[i].field != errors[j].field
  }

  /** `errors[field]`: the message recorded for `field`, if any. */
  function ErrorFor(errors: seq<FieldError>, field: string): Option<string> {
    if errors == [] then None
    else if errors[0].field == field then Some(errors[0].message)
    else ErrorFor(errors[1..], field)
  }

  ghost predicate NamesField(rules: seq<FieldRules>, field: string) {
    exists i :: 0 <= i < |rules| && rules[i].field == field
  }

  /** `validate(data, rules)`: each field of `rules`, in order, records the
      message of its first failing rule; `success` says no field recorded one.
      What the outcome means is stated by `ValidateSpec`. */
  function Validate(data: Data, rules: seq<FieldRules>): (r: Validation)
    requires DistinctFields(rules)
    ensures r.success <==> r.errors == []
  {
    if rules == [] then Validation(true, [])
    else
      var rest := Validate(data, rules[1..]);
      match FieldMessage(data, rules[0])
      case None => rest
      case Some(m) => Validation(false, [FieldError(rules[0].field, m)] + rest.errors)
  }

  /** The outcome of `validate`: it succeeds exactly when no field's rules
      fail, it records for every field the message of that field's first
      failing rule (and nothing for a field whose rules all pass), and it
      records nothing else, at most once per field. */
  lemma {:induction false} ValidateSpec(data: Data, rules: seq<FieldRules>)
    requires DistinctFields(rules)
    ensures var r := Validate(data, rules);
      && (r.success <==> forall i | 0 <= i < |rules| :: FieldMessage(data, rules[i]).None?)
      && (forall i | 0 <= i < |rules| :: ErrorFor(r.errors, rules[i].field) == FieldMessage(data, rules[i]))
      && (forall k | 0 <= k < |r.errors| :: NamesField(rules, r.errors[k].field))
      && DistinctErrorFields(r.errors)
  {
    if rules != [] {
      assert DistinctFields(rules[1..]);
      ValidateSpec(data, rules[1..]);
      ValidateCons(data, rules, Validate(data, rules[1..]), Validate(data, rules));
    }
  }

  /** The step of `Validate`: what holds of the later fields' outcome `rest`
      holds of the outcome `r` once the first field is checked. */
  lemma ValidateCons(data: Data, rules: seq<FieldRules>, rest: Validation, r: Validation)
    requires rules != [] && DistinctFields(rules)
    requires rest.success <==> rest.errors == []
    requires rest.success <==> forall i | 1 <= i < |rules| :: FieldMessage(data, rules[i]).None?
    requires forall i | 1 <= i < |rules| :: ErrorFor(rest.errors, rules[i].field) == FieldMessage(data, rules[i])
    requires forall k | 0 <= k < |rest.errors| :: NamesField(rules[1..], rest.errors[k].field)
    requires DistinctErrorFields(rest.errors)
    requires r == match FieldMessage(data, rules[0])
      case None => rest
      case Some(m) => Validation(false, [FieldError(rules[0].field, m)] + rest.errors)
    ensures r.success <==> r.errors == []
    ensures r.success <==> forall i | 0 <= i < |rules| :: FieldMessage(data, rules[i]).None?
    ensures forall i | 0 <= i < |rules| :: ErrorFor(r.errors, rules[i].field) == FieldMessage(data, rules[i])
    ensures forall k | 0 <= k < |r.errors| :: NamesField(rules, r.errors[k].field)
    ensures DistinctErrorFields(r.errors)
  {
    OtherFields(rules, rest.errors);
    match FieldMessage(data, rules[0])
    case None =>
      assert r == rest;
    case Some(m) =>
      ErrorCons(rules, rest.errors, m);
  }

  /** Recording the first field's message in front of the later fields'
      entries: each field still reads its own entry. */
  lemma {:induction false} ErrorCons(rules: seq<FieldRules>, errors: seq<FieldError>, m: string)
    requires rules != [] && DistinctFields(rules)
    requires forall k | 0 <= k < |errors| :: errors[k].field != rules[0].field
    requires DistinctErrorFields(errors)
    ensures var all := [FieldError(rules[0].field, m)] + errors;
      && ErrorFor(all, rules[0].field) == Some(m)
      && (forall i | 1 <= i < |rules| :: ErrorFor(all, rules[i].field) == ErrorFor(errors, rules[i].field))
      && DistinctErrorFields(all)
  {
    var all := [FieldError(rules[0].field, m)] + errors;
    assert all[1..] == errors;
    forall i, j | 0 <= i < j < |all| ensures all[i].field != all[j].field {
      if i > 0 {
        assert all[i] == errors[i - 1] && all[j] == errors[j - 1];
      }
    }
  }

  /** The errors recorded for the fields after the first never name the first
      field, and the first field's entry does not hide theirs. */
  lemma {:induction false} OtherFields(rules: seq<FieldRules>, errors: seq<FieldError>)
    requires rules != [] && DistinctFields(rules)
    requires forall k | 0 <= k < |errors| :: NamesField(rules[1..], errors[k].field)
    ensures ErrorFor(errors, rules[0].field) == None
    ensures forall k | 0 <= k < |errors| :: errors[k].field != rules[0].field
    ensures forall k | 0 <= k < |errors| :: NamesField(rules, errors[k].field)
    ensures forall i, m | 1 <= i < |rules| ::
      ErrorFor([FieldError(rules[0].field, m)] + errors, rules[i].field) == ErrorFor(errors, rules[i].field)
  {
    forall k | 0 <= k < |errors|
      ensures errors[k].field != rules[0].field && NamesField(rules, errors[k].field)
    {
      var i :| 0 <= i < |rules[1..]| && rules[1..][i].field == errors[k].field;
      assert rules[i + 1].field == errors[k].field;
    }
    AbsentField(errors, rules[0].field);
  }

  /** A field no entry names has no recorded message. */
  lemma {:induction false} AbsentField(errors: seq<FieldError>, field: string)
    requires forall k | 0 <= k < |errors| :: errors[k].field != field
    ensures ErrorFor(errors, field) == None
  {
    if errors != [] {
      AbsentField(errors[1..], field);
    }
  }

  /** A form of one, two or three fields passes exactly when each field does. */
  lemma ValidateFields(data: Data, rules: seq<FieldRules>)
    requires 1 <= |rules| <= 3 && DistinctFields(rules)
    ensures Validate(data, rules).success <==>
      && FieldMessage(data, rules[0]).None?
      && (|rules| > 1 ==> FieldMessage(data, rules[1]).None?)
      && (|rules| > 2 ==> FieldMessage(data, rules[2]).None?)
  {
    ValidateSpec(data, rules);
  }

  /** The message surfaced to the user, `Object.values(errors)[0]`. */
  function Surfaced(r: Validation): string
    requires !r.success && r.errors != []
  {
    r.errors[0].message
  }

  /** The surfaced message is that of the first field, in rules order, that
      recorded one. */
  lemma {:induction false} SurfacedIsFirstErroredField(data: Data, rules: seq<FieldRules>)
    requires DistinctFields(rules)
    requires !Validate(data, rules).success
    ensures exists i ::
      && 0 <= i < |rules|
      && (forall j | 0 <= j < i :: FieldMessage(data, rules[j]).None?)
      && FieldMessage(data, rules[i]) == Some(Surfaced(Validate(data, rules)))
  {
    var r := Validate(data, rules);
    if FieldMessage(data, rules[0]).Some? {
      assert FieldMessage(data, rules[0]) == Some(Surfaced(r));
    } else {
      var tail := rules[1..];
      assert DistinctFields(tail);
      assert r == Validate(data, tail);
      SurfacedIsFirstErroredField(data, tail);
      var i :| && 0 <= i < |tail|
               && (forall j | 0 <= j < i :: FieldMessage(data, tail[j]).None?)
               && FieldMessage(data, tail[i]) == Some(Surfaced(r));
      assert forall j | 0 <= j < i + 1 :: FieldMessage(data, rules[j]).None? by {
        forall j | 0 <= j < i + 1 ensures FieldMessage(data, rules[j]).None? {
          if j > 0 {
            assert rules[j] == tail[j - 1];
          }
        }
      }
      assert rules[i + 1] == tail[i];
    }
  }

  /** The surfaced message is never empty, so an empty `error` means the
      validation passed. */
  lemma SurfacedNonEmpty(data: Data, rules: seq<FieldRules>)
    requires DistinctFields(rules)
    requires !Validate(data, rules).success
    ensures Surfaced(Validate(data, rules)) != []
  {
    SurfacedIsFirstErroredField(data, rules);
  }

  /** `required` rejects exactly the empty and the white-space-only strings. */
  lemma RequiredRejectsBlank(value: string, data: Data)
    ensures Fails(Required, Some(value), data) <==> IsBlank(value)
  {
    TrimEmptyIffBlank(value);
  }

  /** `email`, `minLength` and `maxLength` never reject an empty or absent value. */
  lemma FormatRulesSkipEmpty(rule: Rule, data: Data)
    requires rule.Email? || rule.MinLength? || rule.MaxLength?
    ensures !Fails(rule, Some(""), data) && !Fails(rule, None, data)
  {
  }
}
