/** `ViolationAdminForm` (customs_registry/forms.py): the fields required for
    each violation type, and the errors `clean()` adds for the ones left
    empty. */
module ViolationForms {
  import opened Wrappers
  import opened Text
  import opened RegistryModels

  /** The form's fields (`fields = '__all__'`), in model order. */
  datatype Field =
    | ViolationType | CompanyName | CompanyBossFullname | Address | Phone
    | ViolatorName | ViolatorSurname | FatherName | DateOfBirth | PlaceOfBirth
    | PassportNumber | PassportIssueDate | Nationality | ViolatorAddress

  const AllFields: seq<Field> := [
    ViolationType, CompanyName, CompanyBossFullname, Address, Phone,
    ViolatorName, ViolatorSurname, FatherName, DateOfBirth, PlaceOfBirth,
    PassportNumber, PassportIssueDate, Nationality, ViolatorAddress]

  lemma AllFieldsListed(f: Field)
    ensures f in AllFields
  {
  }

  /** A value in `cleaned_data`; `Empty` is a field that cleaned to None. */
  datatype Value = Empty | TextValue(text: string) | DateValue(date: Date) | CountryValue(country: Country)

  /** Python truthiness of a cleaned value: None and '' are falsy, a date
      and a model instance are truthy. */
  predicate IsTruthy(v: Value) {
    match v
    case Empty => false
    case TextValue(s) => s != ""
    case DateValue(_) => true
    case CountryValue(_) => true
  }

  /** `cleaned_data.get(f)`. */
  function Get(cleaned: map<Field, Value>, f: Field): Value {
    if f in cleaned then cleaned[f] else Empty
  }

  /** `cleaned_data.get('violation_type')` as text, when it is text. */
  function CleanedType(cleaned: map<Field, Value>): Option<string> {
    match Get(cleaned, ViolationType)
    case TextValue(s) => Some(s)
    case _ => None
  }

  /** The fields `set_required_fields` marks required for a type. */
  function RequiredFields(violationType: Option<string>): set<Field> {
    if violationType == Some(LegalEntityCode) then {CompanyName, Address}
    else if violationType.Some? && IsPersonCode(violationType.value) then
      {ViolatorName, ViolatorSurname, DateOfBirth, PlaceOfBirth, ViolatorAddress}
    else {}
  }

  /** The fields `clean()` reports: required for the cleaned type and falsy. */
  function MissingRequired(cleaned: map<Field, Value>): set<Field> {
    set f | f in RequiredFields(CleanedType(cleaned)) && !IsTruthy(Get(cleaned, f))
  }

  const LegalEntityMessage: string := "This field is required for legal entity."
  const PersonMessage: string := "This field is required for individual/official."

  function MessageFor(violationType: Option<string>): string {
    if violationType == Some(LegalEntityCode) then LegalEntityMessage else PersonMessage
  }

  function ErrorsOf(errors: map<Field, seq<string>>, f: Field): seq<string> {
    if f in errors then errors[f] else []
  }

  class ViolationAdminForm {
    /** `field.required` for every field of the form. */
    var required: map<Field, bool>
    /** `cleaned_data` as left by field cleaning. */
    var cleanedData: map<Field, Value>
    /** The form's error dictionary. */
    var errors: map<Field, seq<string>>

    ghost predicate Valid()
      reads this
    {
      forall f :: f in required
    }

    /** `__init__`: the model's own required flags (only the type is
        non-blank), then `set_required_fields(instance.violation_type)`. */
    constructor (instanceType: Option<string>, cleaned: map<Field, Value>)
      ensures Valid() && cleanedData == cleaned && errors == map[]
      ensures forall f :: required[f] <==> f in RequiredFields(instanceType)
    {
      required := map f | f in AllFields :: f == ViolationType;
      cleanedData := cleaned;
      errors := map[];
      new;
      forall f ensures f in required {
        AllFieldsListed(f);
      }
      SetRequiredFields(instanceType);
    }

    /** `set_required_fields`: every field optional, then the type's fields
        required. */
    method SetRequiredFields(violationType: Option<string>)
      requires Valid()
      modifies this
      ensures Valid() && cleanedData == old(cleanedData) && errors == old(errors)
      ensures forall f :: required[f] <==> f in RequiredFields(violationType)
    {
      var fields := AllFields;
      var i := 0;
      while i < |fields|
        invariant 0 <= i <= |fields|
        invariant Valid() && cleanedData == old(cleanedData) && errors == old(errors)
        invariant forall j :: 0 <= j < i ==> !required[fields[j]]
      {
        required := required[fields[i] := false];
        i := i + 1;
      }
      assert forall f :: !required[f] by {
        forall f ensures !required[f] {
          AllFieldsListed(f);
        }
      }
      if violationType == Some(LegalEntityCode) {
        required := required[CompanyName := true];
        required := required[Address := true];
      } else if violationType == Some(IndividualCode) || violationType == Some(OfficialCode) {
        required := required[ViolatorName := true];
        required := required[ViolatorSurname := true];
        required := required[DateOfBirth := true];
        required := required[PlaceOfBirth := true];
        required := required[ViolatorAddress := true];
      }
    }

    /** Django's `add_error(field, message)`: appends the message and drops
        the field from `cleaned_data`. */
    method AddError(f: Field, message: string)
      modifies this
      ensures required == old(required)
      ensures errors == old(errors)[f := ErrorsOf(old(errors), f) + [message]]
      ensures cleanedData == old(cleanedData) - {f}
    {
      errors := errors[f := ErrorsOf(errors, f) + [message]];
      cleanedData := cleanedData - {f};
    }

    /** One `if not cleaned_data.get(f): self.add_error(f, message)` step of
        `clean`; `checked` lists the fields examined before this one. */
    method RequireTruthy(f: Field, message: string, ghost errors0: map<Field, seq<string>>,
                         ghost cleaned0: map<Field, Value>, ghost checked: seq<Field>)
      requires f !in checked
      requires errors == ErrorsAfter(errors0, FalsyAmong(cleaned0, checked), message)
      requires cleanedData == cleaned0 - FalsyAmong(cleaned0, checked)
      modifies this
      ensures required == old(required)
      ensures errors == ErrorsAfter(errors0, FalsyAmong(cleaned0, checked + [f]), message)
      ensures cleanedData == cleaned0 - FalsyAmong(cleaned0, checked + [f])
    {
      ghost var added := FalsyAmong(cleaned0, checked);
      assert Get(cleanedData, f) == Get(cleaned0, f);
      if !IsTruthy(Get(cleanedData, f)) {
        AddError(f, message);
        ErrorsAfterStep(errors0, added, f, message);
        assert FalsyAmong(cleaned0, checked + [f]) == added + {f};
      } else {
        assert FalsyAmong(cleaned0, checked + [f]) == added;
      }
    }

    /** The legal-entity branch of `clean`: the company name, then the
        address. */
    method CheckLegalEntity(ghost errors0: map<Field, seq<string>>, ghost cleaned0: map<Field, Value>)
      requires errors == ErrorsAfter(errors0, FalsyAmong(cleaned0, []), LegalEntityMessage)
      requires cleanedData == cleaned0 - FalsyAmong(cleaned0, [])
      modifies this
      ensures required == old(required)
      ensures errors == ErrorsAfter(errors0, FalsyAmong(cleaned0, [CompanyName, Address]), LegalEntityMessage)
      ensures cleanedData == cleaned0 - FalsyAmong(cleaned0, [CompanyName, Address])
    {
      ghost var checked: seq<Field> := [];
      RequireTruthy(CompanyName, LegalEntityMessage, errors0, cleaned0, checked);
      checked := checked + [CompanyName];
      RequireTruthy(Address, LegalEntityMessage, errors0, cleaned0, checked);
      checked := checked + [Address];
      assert checked == [CompanyName, Address];
    }

    /** The individual/official branch of `clean`: the five person fields
        in model order. */
    method CheckPerson(ghost errors0: map<Field, seq<string>>, ghost cleaned0: map<Field, Value>)
      requires errors == ErrorsAfter(errors0, FalsyAmong(cleaned0, []), PersonMessage)
      requires cleanedData == cleaned0 - FalsyAmong(cleaned0, [])
      modifies this
      ensures required == old(required)
      ensures errors == ErrorsAfter(errors0, FalsyAmong(cleaned0,
        [ViolatorName, ViolatorSurname, DateOfBirth, PlaceOfBirth, ViolatorAddress]), PersonMessage)
      ensures cleanedData == cleaned0 - FalsyAmong(cleaned0,
        [ViolatorName, ViolatorSurname, DateOfBirth, PlaceOfBirth, ViolatorAddress])
    {
      ghost var checked: seq<Field> := [];
      RequireTruthy(ViolatorName, PersonMessage, errors0, cleaned0, checked);
      checked := checked + [ViolatorName];
      RequireTruthy(ViolatorSurname, PersonMessage, errors0, cleaned0, checked);
      checked := checked + [ViolatorSurname];
      RequireTruthy(DateOfBirth, PersonMessage, errors0, cleaned0, checked);
      checked := checked + [DateOfBirth];
      RequireTruthy(PlaceOfBirth, PersonMessage, errors0, cleaned0, checked);
      checked := checked + [PlaceOfBirth];
      RequireTruthy(ViolatorAddress, PersonMessage, errors0, cleaned0, checked);
      checked := checked + [ViolatorAddress];
      assert checked == [ViolatorName, ViolatorSurname, DateOfBirth, PlaceOfBirth, ViolatorAddress];
    }

    /** `clean`: one error for each field the cleaned type requires and that
        is falsy; returns `cleaned_data`. */
    method Clean() returns (result: map<Field, Value>)
      modifies this
      ensures required == old(required)
      ensures result == cleanedData
      ensures cleanedData == old(cleanedData) - MissingRequired(old(cleanedData))
      ensures errors == ErrorsAfter(old(errors), MissingRequired(old(cleanedData)),
                                    MessageFor(CleanedType(old(cleanedData))))
    {
      ghost var errors0, cleaned0 := errors, cleanedData;
      var violationType := CleanedType(cleanedData);
      ErrorsAfterNone(errors0, MessageFor(violationType));
      assert FalsyAmong(cleaned0, []) == {};
      if violationType == Some(LegalEntityCode) {
        CheckLegalEntity(errors0, cleaned0);
        MissingOfLegalEntity(cleaned0);
      } else if violationType.Some? && IsPersonCode(violationType.value) {
        CheckPerson(errors0, cleaned0);
        MissingOfPerson(cleaned0);
      } else {
        UnknownTypeNoErrors(cleaned0);
      }
      result := cleanedData;
    }
  }

  /** The fields of `fields` whose cleaned value is falsy. */
  function FalsyAmong(cleaned: map<Field, Value>, fields: seq<Field>): set<Field> {
    set f | f in fields && !IsTruthy(Get(cleaned, f))
  }

  /** For a legal entity `clean()` tests the company name, then the address. */
  lemma MissingOfLegalEntity(cleaned: map<Field, Value>)
    requires CleanedType(cleaned) == Some(LegalEntityCode)
    ensures MissingRequired(cleaned) == FalsyAmong(cleaned, [CompanyName, Address])
  {
  }

  /** For an individual or an official `clean()` tests the five person
      fields in model order. */
  lemma MissingOfPerson(cleaned: map<Field, Value>)
    requires CleanedType(cleaned).Some? && IsPersonCode(CleanedType(cleaned).value)
    ensures MissingRequired(cleaned) == FalsyAmong(cleaned,
      [ViolatorName, ViolatorSurname, DateOfBirth, PlaceOfBirth, ViolatorAddress])
  {
  }

  /** The error dictionary after one message was added for each field of
      `missing`. */
  function ErrorsAfter(errors: map<Field, seq<string>>, missing: set<Field>, message: string)
    : map<Field, seq<string>>
  {
    map f | f in errors.Keys + missing :: ErrorsOf(errors, f) + (if f in missing then [message] else [])
  }

  /** After `clean()` a field carries one new message exactly when it was
      reported; every other field keeps its earlier messages. */
  lemma ErrorsAfterMeaning(errors: map<Field, seq<string>>, missing: set<Field>, message: string, f: Field)
    ensures f in missing ==> ErrorsOf(ErrorsAfter(errors, missing, message), f) == ErrorsOf(errors, f) + [message]
    ensures f !in missing ==> ErrorsOf(ErrorsAfter(errors, missing, message), f) == ErrorsOf(errors, f)
    ensures f in ErrorsAfter(errors, missing, message) <==> f in errors || f in missing
  {
    if f !in missing && f in errors {
      assert ErrorsOf(ErrorsAfter(errors, missing, message), f) == errors[f] + [];
    }
  }

  lemma ErrorsAfterNone(errors: map<Field, seq<string>>, message: string)
    ensures ErrorsAfter(errors, {}, message) == errors
  {
    var r := ErrorsAfter(errors, {}, message);
    assert r.Keys == errors.Keys;
    forall f | f in r ensures r[f] == errors[f] {
      assert r[f] == ErrorsOf(errors, f) + [];
    }
  }

  lemma ErrorsAfterStep(errors: map<Field, seq<string>>, added: set<Field>, f: Field, message: string)
    requires f !in added
    ensures ErrorsAfter(errors, added + {f}, message)
         == ErrorsAfter(errors, added, message)[f := ErrorsOf(ErrorsAfter(errors, added, message), f) + [message]]
  {
    var before := ErrorsAfter(errors, added, message);
    var after := ErrorsAfter(errors, added + {f}, message);
    var stepped := before[f := ErrorsOf(before, f) + [message]];
    assert ErrorsOf(before, f) == ErrorsOf(errors, f);
    assert after.Keys == stepped.Keys;
    forall g | g in after ensures after[g] == stepped[g] {
    }
  }

  // ---------------------------------------------------------------------
  // Properties of the rules
  // ---------------------------------------------------------------------

  /** A legal entity requires exactly the company name and the address. */
  lemma LegalEntityRequired()
    ensures RequiredFields(Some(LegalEntityCode)) == {CompanyName, Address}
    ensures |RequiredFields(Some(LegalEntityCode))| == 2
  {
  }

  /** An individual or an official requires exactly five person fields;
      the father name and the passport fields stay optional. */
  lemma PersonRequired(t: string)
    requires IsPersonCode(t)
    ensures RequiredFields(Some(t)) ==
      {ViolatorName, ViolatorSurname, DateOfBirth, PlaceOfBirth, ViolatorAddress}
    ensures |RequiredFields(Some(t))| == 5
    ensures FatherName !in RequiredFields(Some(t)) && PassportNumber !in RequiredFields(Some(t))
  {
  }

  /** No type, or a type outside the three choices, requires nothing. */
  lemma OtherTypeRequiresNothing(t: Option<string>)
    requires t.None? || (t.value != LegalEntityCode && !IsPersonCode(t.value))
    ensures RequiredFields(t) == {}
  {
  }

  /** When the form was built on an instance of the type it is submitted
      with, `clean()` reports a field exactly when the form flags it
      required and its value is None or empty. `required` is the form's
      flags as the constructor leaves them. */
  lemma CleanReportsExactly(instanceType: Option<string>, required: map<Field, bool>,
                            cleaned: map<Field, Value>, f: Field)
    requires forall g :: g in required && (required[g] <==> g in RequiredFields(instanceType))
    requires CleanedType(cleaned) == instanceType
    ensures f in MissingRequired(cleaned) <==> required[f] && !IsTruthy(Get(cleaned, f))
  {
  }

  /** The flags follow the instance's stored type, `clean()` the submitted
      one: a legal entity resubmitted as an individual keeps the company
      fields flagged, yet `clean()` reports the person fields instead. */
  lemma FlagsFollowInstanceType()
    ensures var cleaned := map[ViolationType := TextValue(IndividualCode)];
      CompanyName in RequiredFields(Some(LegalEntityCode))
      && CompanyName !in MissingRequired(cleaned)
      && MissingRequired(cleaned) == {ViolatorName, ViolatorSurname, DateOfBirth, PlaceOfBirth, ViolatorAddress}
  {
    var cleaned := map[ViolationType := TextValue(IndividualCode)];
    assert CleanedType(cleaned) == Some(IndividualCode);
    MissingOfPerson(cleaned);
  }

  /** Optional fields never produce an error, whatever the type. */
  lemma OptionalFieldsNeverReported(cleaned: map<Field, Value>)
    ensures FatherName !in MissingRequired(cleaned)
    ensures PassportNumber !in MissingRequired(cleaned)
    ensures ViolationType !in MissingRequired(cleaned)
    ensures CompanyBossFullname !in MissingRequired(cleaned)
  {
  }

  /** A cleaned type outside the three choices (or none) adds no error. */
  lemma UnknownTypeNoErrors(cleaned: map<Field, Value>)
    requires CleanedType(cleaned).None?
      || (CleanedType(cleaned).value != LegalEntityCode && !IsPersonCode(CleanedType(cleaned).value))
    ensures MissingRequired(cleaned) == {}
  {
  }

  /** The data `clean()` returns keeps every truthy value: only fields that
      were None or empty are dropped. */
  lemma CleanKeepsTruthyValues(cleaned: map<Field, Value>, f: Field)
    requires f in cleaned && IsTruthy(cleaned[f])
    ensures f in cleaned - MissingRequired(cleaned)
    ensures (cleaned - MissingRequired(cleaned))[f] == cleaned[f]
  {
  }

  /** A form whose every required field is filled reports no error. */
  lemma FilledFormHasNoErrors(cleaned: map<Field, Value>)
    requires forall f :: f in RequiredFields(CleanedType(cleaned)) ==> IsTruthy(Get(cleaned, f))
    ensures MissingRequired(cleaned) == {}
  {
  }
}
