/**
 * The decision validateField takes for one form control, from its id, its
 * `required` attribute and its raw value. The checks run in a fixed order:
 * required-and-empty, then a malformed email, then a malformed phone number.
 */
module Validation {
  import opened Text
  import opened Patterns

  datatype Outcome = Valid | Invalid(message: string)

  const RequiredMessage: string := "This field is required"
  const EmailMessage: string := "Please enter a valid email address"
  const PhoneMessage: string := "Please enter a valid phone number"

  /** validateField's decision on the already trimmed value: the required
      test comes first and holds for any id; the email and phone tests apply
      only to a non-empty value of the control with that id. */
  function Decide(id: string, required: bool, value: string): (o: Outcome)
    ensures o == Invalid(RequiredMessage) <==> required && value == ""
    ensures o == Invalid(EmailMessage)
            <==> id == "email" && value != "" && !MatchesEmailPattern(value)
    ensures o == Invalid(PhoneMessage)
            <==> id == "phone" && value != "" && !MatchesPhonePattern(value)
    ensures o.Valid? || o == Invalid(RequiredMessage) || o == Invalid(EmailMessage)
            || o == Invalid(PhoneMessage)
  {
    EmailTestMatchesPattern(value);
    assert |RequiredMessage| != |EmailMessage| && |EmailMessage| != |PhoneMessage|
           && |RequiredMessage| != |PhoneMessage|;
    if required && value == "" then Invalid(RequiredMessage)
    else if id == "email" && value != "" && !IsValidEmail(value) then Invalid(EmailMessage)
    else if id == "phone" && value != "" && !IsValidPhone(value) then Invalid(PhoneMessage)
    else Valid
  }

  /** validateField's decision on the raw value, which it trims first. A
      value that is empty or all whitespace fails exactly when the control is
      required, whatever its id; any other value of a control that is neither
      the email nor the phone control passes. */
  function Check(id: string, required: bool, raw: string): (o: Outcome)
    ensures o == Invalid(RequiredMessage) <==> required && AllWhitespace(raw)
    ensures o == Invalid(EmailMessage)
            <==> id == "email" && !AllWhitespace(raw) && !MatchesEmailPattern(Trim(raw))
    ensures o == Invalid(PhoneMessage)
            <==> id == "phone" && !AllWhitespace(raw) && !MatchesPhonePattern(Trim(raw))
    ensures id != "email" && id != "phone" ==> (o.Valid? <==> !(required && AllWhitespace(raw)))
  {
    Decide(id, required, Trim(raw))
  }

  /** Whitespace around a value never changes the outcome: re-validating the
      trimmed value gives the same answer. */
  lemma CheckSeesOnlyTrimmedValue(id: string, required: bool, raw: string)
    ensures Check(id, required, raw) == Check(id, required, Trim(raw))
  {
    TrimIdempotent(raw);
  }

  /** Example values. */
  lemma RequiredExamples()
    ensures Check("name", true, "") == Invalid(RequiredMessage)
    ensures Check("message", true, " \t ") == Invalid(RequiredMessage)
    ensures Check("subject", false, "") == Valid
  {
  }

  lemma EmailExampleValid()
    ensures Decide("email", true, "a@b.com") == Valid
  {
    var v := "a@b.com";
    assert v[..1] == "a" && v[2..3] == "b" && v[4..] == "com";
    assert EmailSplit(v, 1, 3);
  }

  lemma EmailExampleNoAt()
    ensures Decide("email", true, "not-an-email") == Invalid(EmailMessage)
  {
    var v := "not-an-email";
    assert forall k :: 0 <= k < |v| ==> v[k] != '@';
    assert !IsValidEmail(v);
  }

  lemma EmailExampleTwoAts()
    ensures Decide("email", true, "a@b@c.com") == Invalid(EmailMessage)
  {
    var v := "a@b@c.com";
    assert FirstIndexOf(v, '@') == 1;
    assert v[2..][1] == '@';
    assert !IsValidEmail(v);
  }

  lemma PhoneExamples()
    ensures Decide("phone", false, "") == Valid
    ensures Decide("phone", false, "+1 (555) 010-2030") == Valid
    ensures Decide("phone", false, "+") == Invalid(PhoneMessage)
    ensures Decide("phone", false, "555+1") == Invalid(PhoneMessage)
  {
    assert "+1 (555) 010-2030"[1..] == "1 (555) 010-2030";
    assert AllPhoneChars("1 (555) 010-2030");
    assert !IsPhoneChar("555+1"[3]);
  }
}
