/** The pre-save rule on Violation (customs_registry/signals.py,
    `reset_fields_on_violation_type_change`): when an existing violation is
    saved with a different type, the field group that no longer applies is
    set to None on the instance before it is written. */
module ViolationSignals {
  import opened Wrappers
  import opened RegistryModels

  /** The Violation model instance handed to the signal. */
  class ViolationInstance {
    var pk: Option<nat>
    var record: Violation

    constructor (pk: Option<nat>, record: Violation)
      ensures this.pk == pk && this.record == record
    {
      this.pk := pk;
      this.record := record;
    }
  }

  // ---------------------------------------------------------------------
  // The two field groups
  // ---------------------------------------------------------------------

  /** The legal-entity fields the rule clears. */
  predicate CompanyCleared(v: Violation) {
    v.companyName == None && v.address == None && v.phone == None
  }

  /** The person fields the rule clears. */
  predicate PersonCleared(v: Violation) {
    v.violatorName == None && v.violatorSurname == None && v.fatherName == None
    && v.dateOfBirth == None && v.placeOfBirth == None && v.passportNumber == None
    && v.passportIssueDate == None && v.nationality == None && v.violatorAddress == None
  }

  predicate SameCompany(a: Violation, b: Violation) {
    a.companyName == b.companyName && a.address == b.address && a.phone == b.phone
  }

  predicate SamePerson(a: Violation, b: Violation) {
    a.violatorName == b.violatorName && a.violatorSurname == b.violatorSurname
    && a.fatherName == b.fatherName && a.dateOfBirth == b.dateOfBirth
    && a.placeOfBirth == b.placeOfBirth && a.passportNumber == b.passportNumber
    && a.passportIssueDate == b.passportIssueDate && a.nationality == b.nationality
    && a.violatorAddress == b.violatorAddress
  }

  /** The fields neither group contains. */
  predicate SameCommon(a: Violation, b: Violation) {
    a.violationType == b.violationType && a.companyBossFullname == b.companyBossFullname
  }

  // ---------------------------------------------------------------------
  // The rule
  // ---------------------------------------------------------------------

  /** The record the rule leaves, given the type stored in the database. */
  function ResetFields(storedType: string, v: Violation): Violation {
    if storedType == v.violationType then v
    else if storedType == LegalEntityCode || IsPersonCode(v.violationType) then
      v.(companyName := None, address := None, phone := None)
    else if v.violationType == LegalEntityCode then
      v.(violatorName := None, violatorSurname := None, fatherName := None,
         dateOfBirth := None, placeOfBirth := None, passportNumber := None,
         passportIssueDate := None, nationality := None, violatorAddress := None)
    else v
  }

  datatype SignalError = DoesNotExist

  /** The receiver. `stored` is the Violation table by primary key; a pk
      that is set but missing makes `objects.get` raise, which aborts the
      save with the instance untouched. */
  method ResetFieldsOnViolationTypeChange(instance: ViolationInstance, stored: map<nat, Violation>)
    returns (r: Outcome<SignalError>)
    modifies instance
    ensures instance.pk == old(instance.pk)
    ensures !HasPk(instance.pk) ==> r == Pass && instance.record == old(instance.record)
    ensures HasPk(instance.pk) && instance.pk.value !in stored ==>
      r == Fail(DoesNotExist) && instance.record == old(instance.record)
    ensures HasPk(instance.pk) && instance.pk.value in stored ==>
      r == Pass
      && instance.record == ResetFields(stored[instance.pk.value].violationType, old(instance.record))
  {
    if HasPk(instance.pk) {
      var key := instance.pk.value;
      if key !in stored {
        return Fail(DoesNotExist);
      }
      var original := stored[key];
      if original.violationType != instance.record.violationType {
        if original.violationType == LegalEntityCode || IsPersonCode(instance.record.violationType) {
          instance.record := instance.record.(companyName := None);
          instance.record := instance.record.(address := None);
          instance.record := instance.record.(phone := None);
        } else if instance.record.violationType == LegalEntityCode {
          instance.record := instance.record.(violatorName := None);
          instance.record := instance.record.(violatorSurname := None);
          instance.record := instance.record.(fatherName := None);
          instance.record := instance.record.(dateOfBirth := None);
          instance.record := instance.record.(placeOfBirth := None);
          instance.record := instance.record.(passportNumber := None);
          instance.record := instance.record.(passportIssueDate := None);
          instance.record := instance.record.(nationality := None);
          instance.record := instance.record.(violatorAddress := None);
        }
      }
    }
    return Pass;
  }

  // ---------------------------------------------------------------------
  // Properties of the rule
  // ---------------------------------------------------------------------

  /** An unchanged type changes nothing. */
  lemma SameTypeUnchanged(storedType: string, v: Violation)
    requires storedType == v.violationType
    ensures ResetFields(storedType, v) == v
  {
  }

  /** Leaving a legal entity, or becoming an individual or an official,
      clears exactly the company group. */
  lemma ClearsCompanyGroup(storedType: string, v: Violation)
    requires storedType != v.violationType
    requires storedType == LegalEntityCode || IsPersonCode(v.violationType)
    ensures var r := ResetFields(storedType, v);
            CompanyCleared(r) && SamePerson(r, v) && SameCommon(r, v)
  {
  }

  /** Becoming a legal entity from any other type clears exactly the nine
      person fields. */
  lemma ClearsPersonGroup(storedType: string, v: Violation)
    requires storedType != v.violationType && v.violationType == LegalEntityCode
    ensures var r := ResetFields(storedType, v);
            PersonCleared(r) && SameCompany(r, v) && SameCommon(r, v)
  {
  }

  /** At most one group is touched, and the type and the company boss are
      never touched. */
  lemma AtMostOneGroup(storedType: string, v: Violation)
    ensures var r := ResetFields(storedType, v);
            SameCommon(r, v) && (SameCompany(r, v) || SamePerson(r, v))
  {
  }

  /** Switching between individual and official keeps every person field. */
  lemma PersonSwitchKeepsPerson(storedType: string, v: Violation)
    requires IsPersonCode(storedType) && IsPersonCode(v.violationType)
    requires storedType != v.violationType
    ensures var r := ResetFields(storedType, v);
            SamePerson(r, v) && CompanyCleared(r)
  {
  }

  /** From a person to a type outside the three choices nothing is cleared. */
  lemma PersonToUnknownUnchanged(storedType: string, v: Violation)
    requires IsPersonCode(storedType)
    requires v.violationType != LegalEntityCode && !IsPersonCode(v.violationType)
    ensures ResetFields(storedType, v) == v
  {
  }

  /** After a change of type the group that does not apply to the new type
      is empty. */
  lemma InapplicableGroupEmpty(storedType: string, v: Violation)
    requires storedType != v.violationType
    ensures var r := ResetFields(storedType, v);
            (IsPersonCode(v.violationType) ==> CompanyCleared(r))
            && (v.violationType == LegalEntityCode ==> PersonCleared(r))
  {
  }

  /** Running the rule again against the same stored type changes nothing more. */
  lemma ResetIdempotent(storedType: string, v: Violation)
    ensures ResetFields(storedType, ResetFields(storedType, v)) == ResetFields(storedType, v)
  {
  }

  /** A create (no primary key) never modifies the instance. */
  method CreateIsUntouched(record: Violation, stored: map<nat, Violation>) returns (after: Violation)
    ensures after == record
  {
    var instance := new ViolationInstance(None, record);
    var r := ResetFieldsOnViolationTypeChange(instance, stored);
    after := instance.record;
  }
}
