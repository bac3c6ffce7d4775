/** The adoption form of Adoption_controller.ts: the field rules of
    `adoptionSchema` and the steps of `submit` up to the notification
    (validate, require the manager's phone, build the message). The
    configured phone and the current time are parameters. */
module AdoptionController {
  import opened JsString
  import opened AdoptionModels

  /** The form as the page hands it over. */
  datatype FormData = FormData(
    plantId: string,
    plantCommonName: string,
    adopterName: string,
    phone: string,
    address: Option<string>,
    city: Option<string>,
    reason: string,
    consent: bool)

  /** The fields of the form, each of which the schema may reject. */
  datatype Field = PlantId | PlantCommonName | AdopterName | Phone | Address | City | Reason | Consent

  /** The rule of one field: a minimum length for the required strings,
      `true` for the consent flag, and no rule for address and city. */
  predicate FieldOk(d: FormData, f: Field) {
    match f
    case PlantId => |d.plantId| >= 1
    case PlantCommonName => |d.plantCommonName| >= 1
    case AdopterName => |d.adopterName| >= 2
    case Phone => |d.phone| >= 6
    case Address => true
    case City => true
    case Reason => |d.reason| >= 10
    case Consent => d.consent
  }

  /** `adoptionSchema.safeParse(d)`: the fields it reports, all of them at
      once. */
  function Issues(d: FormData): (r: set<Field>)
    ensures forall f :: f in r <==> !FieldOk(d, f)
  {
    (if |d.plantId| < 1 then {PlantId} else {})
    + (if |d.plantCommonName| < 1 then {PlantCommonName} else {})
    + (if |d.adopterName| < 2 then {AdopterName} else {})
    + (if |d.phone| < 6 then {Phone} else {})
    + (if |d.reason| < 10 then {Reason} else {})
    + (if !d.consent then {Consent} else {})
  }

  predicate IsValid(d: FormData) {
    Issues(d) == {}
  }

  /** The schema accepts a form exactly when every length rule holds and
      consent was given; address and city never matter. */
  lemma ValidExactly(d: FormData)
    ensures IsValid(d) <==>
              |d.plantId| >= 1 && |d.plantCommonName| >= 1 && |d.adopterName| >= 2
              && |d.phone| >= 6 && |d.reason| >= 10 && d.consent
    ensures forall a, c :: IsValid(d.(address := a, city := c)) <==> IsValid(d)
  {
    if !IsValid(d) {
      var f :| f in Issues(d);
      assert !FieldOk(d, f);
    }
    forall a, c ensures IsValid(d.(address := a, city := c)) <==> IsValid(d) {
      var e := d.(address := a, city := c);
      assert forall f :: FieldOk(e, f) <==> FieldOk(d, f);
      if !IsValid(e) {
        var f :| f in Issues(e);
      }
      if !IsValid(d) {
        var f :| f in Issues(d);
      }
    }
  }

  /** The phone rule counts characters only: any six of them will do. */
  lemma PhoneIsNotChecked(d: FormData)
    ensures FieldOk(d.(phone := "abc-+!"), Phone)
    ensures !FieldOk(d.(phone := "12345"), Phone)
  {
  }

  /** What `submit` ends in: the schema's rejection, the missing-phone
      error, or a message for the manager's phone. */
  datatype Outcome =
    | Rejected(issues: set<Field>)
    | MissingManagerPhone
    | Notify(phone: string, message: string)

  /** `parsed.address || undefined`: the empty string becomes absent. */
  function Present(x: Option<string>): (r: Option<string>)
    ensures r.Some? ==> r == x && r.value != ""
    ensures x.Some? && x.value != "" ==> r == x
  {
    if x.Some? && x.value != "" then x else None
  }

  /** The record `submit` builds from a valid form: no id, no date. */
  function ToAdoption(d: FormData): Adoption {
    Adoption(None, d.plantId, d.plantCommonName, d.adopterName, d.phone,
             Present(d.address), Present(d.city), d.reason, d.consent, None)
  }

  /** `submit`: reject an invalid form first, then require a non-empty
      manager phone, and only then build the message. */
  function Submit(d: FormData, managerPhone: Option<string>, now: string): (r: Outcome)
    ensures r.Rejected? <==> !IsValid(d)
    ensures r.Rejected? ==> r.issues == Issues(d) && r.issues != {}
    ensures r.MissingManagerPhone? <==> IsValid(d) && (managerPhone.None? || managerPhone.value == "")
    ensures r.Notify? ==> managerPhone == Some(r.phone) && r.phone != ""
  {
    if !IsValid(d) then Rejected(Issues(d))
    else if managerPhone.None? || managerPhone.value == "" then MissingManagerPhone
    else Notify(managerPhone.value, BuildWhatsAppMessage(ToAdoption(d), now))
  }

  /** Dropping an empty address or city changes nothing in the message:
      the manager reads the form's fields as they were typed, and the
      date is the time of submission. */
  lemma SubmitMessage(d: FormData, managerPhone: string, now: string)
    requires IsValid(d) && managerPhone != ""
    ensures var a := Adoption(None, d.plantId, d.plantCommonName, d.adopterName, d.phone,
                              d.address, d.city, d.reason, d.consent, None);
            Submit(d, Some(managerPhone), now) == Notify(managerPhone, BuildWhatsAppMessage(a, now))
    ensures EndsWith(Submit(d, Some(managerPhone), now).message, "\n" + DATE_LABEL + now)
  {
    var a := Adoption(None, d.plantId, d.plantCommonName, d.adopterName, d.phone,
                      d.address, d.city, d.reason, d.consent, None);
    assert MessageLines(ToAdoption(d), now) == MessageLines(a, now) by {
      assert OrEmpty(Present(d.address)) == OrEmpty(d.address);
      assert OrEmpty(Present(d.city)) == OrEmpty(d.city);
    }
  }
}
