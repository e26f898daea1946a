/** The customer form of public/submit-script.js: `validateField`, the per-field rule chain
    over the trimmed value, and the loop of `handleFormSubmit` that validates every required
    input before anything is sent. */
module Submit {
  import opened Wrappers
  import opened Text
  import opened Validation

  /** The `type` of an input; every type other than `email` and `tel` is plain text here. */
  datatype FieldKind = PlainField | EmailField | TelField

  /** An input: its type, its `required` attribute and its raw value. */
  datatype Field = Field(kind: FieldKind, required: bool, value: string)

  /** What `validateField` decides: the returned flag and the message it shows. */
  datatype FieldCheck = FieldCheck(valid: bool, message: string)

  const RequiredMessage: string := "This field is required"
  const EmailMessage: string := "Please enter a valid email address"
  const PhoneMessage: string := "Please enter a valid phone number"

  /** The characters of `[\d\s\-\+\(\)\.]`. */
  predicate IsPhoneChar(c: char) {
    IsDigit(c) || IsWhitespace(c) || c == '-' || c == '+' || c == '(' || c == ')' || c == '.'
  }

  /** `/^[\d\s\-\+\(\)\.]+$/.test(v)` */
  predicate PhoneCharsOnly(v: string) {
    v != [] && forall k :: 0 <= k < |v| ==> IsPhoneChar(v[k])
  }

  /** The phone rule: allowed characters only, and at least ten digits once the rest is
      stripped. */
  predicate PhoneAcceptable(v: string) {
    PhoneCharsOnly(v) && |Digits(v)| >= 10
  }

  /** What the form accepts for one field, stated rule by rule rather than as a chain: a
      required field must not trim to nothing, and a non-empty trimmed value must fit its
      type. */
  predicate FieldAcceptable(f: Field) {
    var v := Trim(f.value);
    && !(f.required && v == [])
    && (f.kind == EmailField && v != [] ==> IsEmail(v))
    && (f.kind == TelField && v != [] ==> PhoneAcceptable(v))
  }

  /** `validateField(field)`: the first failing rule of the chain sets the message; the flag
      is true exactly when the field is acceptable, and then there is no message. */
  function ValidateField(f: Field): (r: FieldCheck)
    ensures r.valid <==> FieldAcceptable(f)
    ensures r.valid <==> r.message == []
    ensures f.required && IsBlank(f.value) ==> r == FieldCheck(false, RequiredMessage)
    ensures !r.valid ==> r.message in {RequiredMessage, EmailMessage, PhoneMessage}
    ensures r.message == EmailMessage ==> f.kind == EmailField
    ensures r.message == PhoneMessage ==> f.kind == TelField
  {
    var value := Trim(f.value);
    if f.required && value == [] then FieldCheck(false, RequiredMessage)
    else if f.kind == EmailField && value != [] then
      if IsEmail(value) then FieldCheck(true, "") else FieldCheck(false, EmailMessage)
    else if f.kind == TelField && value != [] then
      if !PhoneCharsOnly(value) || |Digits(value)| < 10 then FieldCheck(false, PhoneMessage)
      else FieldCheck(true, "")
    else FieldCheck(true, "")
  }

  /** Whether every input passes. */
  ghost predicate AllAcceptable(inputs: seq<Field>) {
    forall i :: 0 <= i < |inputs| ==> FieldAcceptable(inputs[i])
  }

  /** The `forEach` of `handleFormSubmit`: every input is validated, none skipped after a
      failure, and the form may be sent exactly when all passed. */
  method HandleFormSubmit(inputs: seq<Field>) returns (isFormValid: bool, checks: seq<FieldCheck>)
    ensures |checks| == |inputs|
    ensures forall i :: 0 <= i < |inputs| ==> checks[i] == ValidateField(inputs[i])
    ensures isFormValid <==> AllAcceptable(inputs)
  {
    isFormValid := true;
    checks := [];
    var i := 0;
    while i < |inputs|
      invariant 0 <= i <= |inputs|
      invariant |checks| == i
      invariant forall j :: 0 <= j < i ==> checks[j] == ValidateField(inputs[j])
      invariant isFormValid <==> forall j :: 0 <= j < i ==> FieldAcceptable(inputs[j])
    {
      var check := ValidateField(inputs[i]);
      checks := checks + [check];
      if !check.valid {
        isFormValid := false;
      }
      i := i + 1;
    }
  }

  /** The inputs `input[required], textarea[required]` selects. The script names only the
      selector and the `FormData` keys; the list below (name, phone, e-mail and device, in
      that order, with those input types, and a description that is not required) is an
      assumption about the page's markup, which is not part of this model. */
  function FormInputs(name: string, phone: string, email: string, deviceName: string): seq<Field>
  {
    [Field(PlainField, true, name), Field(TelField, true, phone), Field(EmailField, true, email),
     Field(PlainField, true, deviceName)]
  }

  /** The body the form posts: the raw, untrimmed values. */
  function FormSubmission(name: string, phone: string, email: string, deviceName: string,
                          description: string): Submission
  {
    Submission(Some(name), Some(phone), Some(email), Some(deviceName), Some(description))
  }

  /** A form the page accepts is accepted by the server too, as long as the e-mail has no
      white space around it. */
  lemma ClientAcceptedIsServerAccepted(name: string, phone: string, email: string,
                                       deviceName: string, description: string)
    requires AllAcceptable(FormInputs(name, phone, email, deviceName))
    requires email == Trim(email)
    ensures Acceptable(FormSubmission(name, phone, email, deviceName, description))
  {
    var inputs := FormInputs(name, phone, email, deviceName);
    assert FieldAcceptable(inputs[0]) && FieldAcceptable(inputs[1]);
    assert FieldAcceptable(inputs[2]) && FieldAcceptable(inputs[3]);
  }

  /** The page checks the trimmed e-mail and the server the raw one. A no-break space
      (U+00A0) before `a@b.co` is white space to `trim()` and to `\s`, but not ASCII white
      space, so an e-mail input keeps it: the page accepts the value and the server's format
      rule rejects it. */
  lemma EmailWithNoBreakSpace()
    ensures ValidateField(Field(EmailField, true, "\U{00A0}a@b.co")).valid
    ensures InvalidEmail in Violations(Submission(Some("Ana"), Some("5551234567"),
                                                 Some("\U{00A0}a@b.co"), Some("Laptop"), None))
  {
    assert Trim("\U{00A0}a@b.co") == "a@b.co" by {
      assert TrimStart("\U{00A0}a@b.co") == TrimStart("a@b.co");
      TrimOfTrimmed("a@b.co");
    }
    SampleEmailAccepted();
    SampleEmailLeadingNoBreakSpace();
    assert !IsBlank("\U{00A0}a@b.co");
  }
}
