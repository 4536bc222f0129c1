/**
 * The business rules of the quote form: the premium calculator, the
 * per-step validator and the name of the exported quote document.
 */
module Utils {
  import opened Wrappers
  import opened JsStrings
  import opened JsNumbers
  import opened Types

  // ---------------------------------------------------------------------
  // Quote calculator
  // ---------------------------------------------------------------------

  /** The base premium of each offered coverage type. */
  const BasePrices: map<string, nat> :=
    map["third-party" := 500, "third-party-fire-theft" := 800, "comprehensive" := 1500]

  /** The base premium of a coverage type: its table entry, 0 for any other text. */
  function BasePrice(coverageType: string): nat {
    if coverageType in BasePrices then BasePrices[coverageType] else 0
  }

  /** `parseFloat(vehicleValue) || 0`: the parsed value, or 0 when the text
      does not parse. */
  function LenientValue(vehicleValue: string): real {
    match ParseFloat(vehicleValue)
    case Some(v) => v
    case None => 0.0
  }

  /** The premium before the usage surcharge: base price plus 5% of the value. */
  function Subtotal(form: FormData): real {
    BasePrice(form.coverageType) as real + LenientValue(form.vehicleValue) * 0.05
  }

  /** The exact annual premium before it is printed: commercial use is
      charged 1.3 times the subtotal, every other usage the subtotal. */
  function QuoteTotal(form: FormData): real {
    if form.vehicleUsage == "commercial" then Subtotal(form) * 1.3 else Subtotal(form)
  }

  /** The printed premium. */
  function QuoteText(form: FormData): string {
    ToFixed2(QuoteTotal(form))
  }

  /** `calculateQuote`: the base price is set by successive tests of the
      coverage type, then 5% of the vehicle value is added and the commercial
      multiplier applied; the total is printed with two decimals. */
  method CalculateQuote(form: FormData) returns (quote: string)
    ensures quote == QuoteText(form)
    ensures IsFixed2Text(quote)
  {
    var basePrice := 0;
    if form.coverageType == "third-party" { basePrice := 500; }
    if form.coverageType == "third-party-fire-theft" { basePrice := 800; }
    if form.coverageType == "comprehensive" { basePrice := 1500; }
    var vehicleValue := match ParseFloat(form.vehicleValue) case Some(v) => v case None => 0.0;
    var valueCharge := vehicleValue * 0.05;
    var usageMultiplier := if form.vehicleUsage == "commercial" then 1.3 else 1.0;
    var total := (basePrice as real + valueCharge) * usageMultiplier;
    assert basePrice == BasePrice(form.coverageType);
    assert total == QuoteTotal(form) by {
      if form.vehicleUsage == "commercial" { assert usageMultiplier == 1.3; }
      else { assert usageMultiplier == 1.0; }
    }
    quote := ToFixed2(total);
    ToFixed2Shape(total);
  }

  /** The base price is 500, 800 or 1500 for exactly the three offered
      coverage types (case-sensitive), and 0 for every other text. */
  lemma BasePriceCases(coverageType: string)
    ensures BasePrice(coverageType) == 500 <==> coverageType == "third-party"
    ensures BasePrice(coverageType) == 800 <==> coverageType == "third-party-fire-theft"
    ensures BasePrice(coverageType) == 1500 <==> coverageType == "comprehensive"
    ensures BasePrice(coverageType) == 0 <==>
              coverageType !in {"third-party", "third-party-fire-theft", "comprehensive"}
  {
  }

  /** A vehicle value that does not parse adds nothing; one that parses adds
      5% of itself. */
  lemma ValueCharge(form: FormData)
    ensures ParseFloat(form.vehicleValue).None? ==> Subtotal(form) == BasePrice(form.coverageType) as real
    ensures ParseFloat(form.vehicleValue).Some? ==>
              Subtotal(form) == BasePrice(form.coverageType) as real + ParseFloat(form.vehicleValue).value / 20.0
  {
  }

  /** Commercial use costs exactly 30% more than any other use, all else equal. */
  lemma CommercialSurcharge(form: FormData, otherUsage: string)
    requires otherUsage != "commercial"
    ensures QuoteTotal(form.(vehicleUsage := "commercial"))
         == 1.3 * QuoteTotal(form.(vehicleUsage := otherUsage))
    ensures QuoteTotal(form.(vehicleUsage := otherUsage)) == Subtotal(form)
  {
    assert Subtotal(form.(vehicleUsage := "commercial")) == Subtotal(form);
    assert Subtotal(form.(vehicleUsage := otherUsage)) == Subtotal(form);
  }

  /** The quote reads only the coverage type, the vehicle value and the usage. */
  lemma QuoteReadsPricingFieldsOnly(a: FormData, b: FormData)
    requires a.coverageType == b.coverageType
    requires a.vehicleValue == b.vehicleValue
    requires a.vehicleUsage == b.vehicleUsage
    ensures QuoteText(a) == QuoteText(b)
  {
    assert QuoteTotal(a) == QuoteTotal(b);
  }

  /** The printed quote is within half a hundredth of the exact premium. */
  lemma QuoteTextDenotesTotal(form: FormData)
    ensures ParseFloat(QuoteText(form)).Some?
    ensures -0.005 <= ParseFloat(QuoteText(form)).value - QuoteTotal(form) <= 0.005
  {
    ToFixed2ReadsBack(QuoteTotal(form));
  }

  /** A premium of whole units prints as its numeral followed by ".00". */
  lemma ToFixed2Whole(n: nat)
    ensures ToFixed2(n as real) == NatText(n) + ".00"
  {
    var m := Hundredths(n as real);
    assert (100 * n) as real == n as real * 100.0;
    assert m == 100 * n;
    assert m / 100 == n && m % 100 == 0;
  }

  /** A vehicle value that is the numeral of `n` counts as `n`. (The
      numeral is passed through a variable so that the verifier does not
      evaluate the parser on a literal.) */
  lemma NumeralValue(value: string, n: nat)
    requires value == NatText(n)
    ensures LenientValue(value) == n as real
  {
    ParseNatText(n);
  }

  /** A whole premium `n` prints as the numeral of `n` followed by ".00". */
  lemma WholeAmountText(total: real, n: nat, numeral: string)
    requires total == n as real && NatText(n) == numeral
    ensures ToFixed2(total) == numeral + ".00"
  {
    ToFixed2Whole(n);
  }

  /** The vehicle values the worked examples use. */
  lemma ExampleValues(value: string)
    ensures value == "0" ==> LenientValue(value) == 0.0
    ensures value == "1000" ==> LenientValue(value) == 1000.0
    ensures value == "abc" ==> LenientValue(value) == 0.0
  {
    var n: nat;
    if value == "0" {
      n := 0;
      assert NatText(n) == "0" by { assert NatText(0) == "0"; }
      NumeralValue(value, n);
    } else if value == "1000" {
      n := 1000;
      assert NatText(n) == "1000" by { assert NatText(1000) == "1000"; }
      NumeralValue(value, n);
    } else if value == "abc" {
      ParseNonNumeric(value);
    }
  }

  /** Each offered coverage type with a zero vehicle value and personal use
      costs its base price, for every record with those pricing answers. */
  lemma QuoteExamplesBasePrices(form: FormData)
    requires form.vehicleValue == "0" && form.vehicleUsage == "personal"
    ensures form.coverageType == "third-party" ==> QuoteText(form) == "500.00"
    ensures form.coverageType == "third-party-fire-theft" ==> QuoteText(form) == "800.00"
    ensures form.coverageType == "comprehensive" ==> QuoteText(form) == "1500.00"
  {
    ExampleValues(form.vehicleValue);
    var n: nat;
    if form.coverageType == "third-party" {
      n := 500;
      assert NatText(n) == "500" by { assert NatText(500) == "500"; }
      WholeAmountText(QuoteTotal(form), n, "500");
    } else if form.coverageType == "third-party-fire-theft" {
      n := 800;
      assert NatText(n) == "800" by { assert NatText(800) == "800"; }
      WholeAmountText(QuoteTotal(form), n, "800");
    } else if form.coverageType == "comprehensive" {
      n := 1500;
      assert NatText(n) == "1500" by { assert NatText(1500) == "1500"; }
      WholeAmountText(QuoteTotal(form), n, "1500");
    }
  }

  /** Comprehensive cover for commercial use with a zero value costs 1950. */
  lemma QuoteExampleCommercial(form: FormData)
    requires form.coverageType == "comprehensive" && form.vehicleValue == "0" && form.vehicleUsage == "commercial"
    ensures QuoteText(form) == "1950.00"
  {
    ExampleValues(form.vehicleValue);
    var n: nat := 1950;
    assert NatText(n) == "1950" by { assert NatText(1950) == "1950"; }
    WholeAmountText(QuoteTotal(form), n, "1950");
  }

  /** A vehicle value of 1000 adds 50 to third-party cover. */
  lemma QuoteExampleValueCharge(form: FormData)
    requires form.coverageType == "third-party" && form.vehicleValue == "1000" && form.vehicleUsage == "personal"
    ensures QuoteText(form) == "550.00"
  {
    assert BasePrice(form.coverageType) == 500;
    ExampleValues(form.vehicleValue);
    assert Subtotal(form) == 550.0;
    var n: nat := 550;
    assert NatText(n) == "550" by { assert NatText(550) == "550"; }
    WholeAmountText(QuoteTotal(form), n, "550");
  }

  /** A coverage type that is not offered (including no choice) with a
      vehicle value that counts as 0 costs "0.00", whatever the usage. */
  lemma QuoteUnknownCoverage(form: FormData)
    requires form.coverageType !in BasePrices && LenientValue(form.vehicleValue) == 0.0
    ensures QuoteText(form) == "0.00"
  {
    WholeAmountText(QuoteTotal(form), 0, "0");
  }

  /** Two instances: the coverage type "gold" with the value "abc", and no
      coverage type with the value "0". */
  lemma QuoteExampleUnknown(form: FormData)
    ensures form.coverageType == "gold" && form.vehicleValue == "abc" ==> QuoteText(form) == "0.00"
    ensures form.coverageType == "" && form.vehicleValue == "0" ==> QuoteText(form) == "0.00"
  {
    if (form.coverageType == "gold" && form.vehicleValue == "abc")
       || (form.coverageType == "" && form.vehicleValue == "0") {
      ExampleValues(form.vehicleValue);
      QuoteUnknownCoverage(form);
    }
  }

  // ---------------------------------------------------------------------
  // Step validator
  // ---------------------------------------------------------------------

  /** `/\S+@\S+\.\S+/.test(s)`: somewhere in `s` an "@" preceded by a
      non-space character, then one or more non-space characters, then a "."
      followed by a non-space character. The pattern is not anchored. */
  predicate MatchesEmailPattern(s: string) {
    exists p, q :: 0 < p < q < |s| - 1 && EmailShapeAt(s, p, q)
  }

  /** An "@" at `p` and a "." at `q` that together match the pattern. */
  predicate EmailShapeAt(s: string, p: int, q: int)
    requires 0 < p < q < |s| - 1
  {
    && s[p] == '@' && s[q] == '.' && p + 1 < q
    && !IsWhitespace(s[p - 1]) && !IsWhitespace(s[q + 1])
    && forall k :: p < k < q ==> !IsWhitespace(s[k])
  }

  /** The message shown when a field is missing. */
  function RequiredMessage(f: Field): string {
    match f
    case FullName => "Name is required"
    case Email => "Email is required"
    case Phone => "Phone is required"
    case IdNumber => "ID number is required"
    case VehicleMake => "Vehicle make is required"
    case VehicleModel => "Model is required"
    case YearOfManufacture => "Year is required"
    case RegistrationNumber => "Registration is required"
    case VehicleValue => "Value is required"
    case CoverageType => "Select coverage type"
    case VehicleUsage => "Select usage type"
  }

  const InvalidEmailMessage := "Invalid email"

  /** The fields whose emptiness is checked after trimming; the others are
      checked as typed, so white space alone counts as an answer. */
  const TrimmedFields: set<Field> :=
    {FullName, Email, Phone, IdNumber, VehicleModel, RegistrationNumber}

  /** Whether a field counts as missing. */
  predicate IsMissing(form: FormData, f: Field) {
    if f in TrimmedFields then IsBlank(form.Get(f)) else form.Get(f) == ""
  }

  /** The fields each step checks, in the order it checks them: personal
      details, vehicle details, cover. Any other step number checks nothing. */
  function StepFields(step: int): seq<Field> {
    if step == 1 then [FullName, Email, Phone, IdNumber]
    else if step == 2 then [VehicleMake, VehicleModel, YearOfManufacture, RegistrationNumber, VehicleValue]
    else if step == 3 then [CoverageType, VehicleUsage]
    else []
  }

  /** The test the validator applies to one field: the field's message, if
      any. */
  function FieldError(form: FormData, f: Field): Option<string> {
    match f
    case FullName => if IsBlank(form.fullName) then Some("Name is required") else None
    case Email =>
      if IsBlank(form.email) then Some("Email is required")
      else if !MatchesEmailPattern(form.email) then Some("Invalid email")
      else None
    case Phone => if IsBlank(form.phone) then Some("Phone is required") else None
    case IdNumber => if IsBlank(form.idNumber) then Some("ID number is required") else None
    case VehicleMake => if form.vehicleMake == "" then Some("Vehicle make is required") else None
    case VehicleModel => if IsBlank(form.vehicleModel) then Some("Model is required") else None
    case YearOfManufacture => if form.yearOfManufacture == "" then Some("Year is required") else None
    case RegistrationNumber => if IsBlank(form.registrationNumber) then Some("Registration is required") else None
    case VehicleValue => if form.vehicleValue == "" then Some("Value is required") else None
    case CoverageType => if form.coverageType == "" then Some("Select coverage type") else None
    case VehicleUsage => if form.vehicleUsage == "" then Some("Select usage type") else None
  }

  /** Every test follows one rule: a missing field gets its required-message;
      a present field gets no message, except an email that does not match
      the pattern, which gets "Invalid email". */
  lemma FieldErrorRule(form: FormData, f: Field)
    ensures IsMissing(form, f) ==> FieldError(form, f) == Some(RequiredMessage(f))
    ensures !IsMissing(form, f) ==>
      FieldError(form, f) == if f == Email && !MatchesEmailPattern(form.email) then Some(InvalidEmailMessage) else None
  {
  }

  /** The messages of the given fields, keyed by field. */
  function ErrorsOf(form: FormData, fields: seq<Field>): Errors {
    map f | f in fields && FieldError(form, f).Some? :: FieldError(form, f).value
  }

  /** One test of the validator: records the field's message, if it has one. */
  function Note(form: FormData, errors: Errors, f: Field): Errors {
    match FieldError(form, f)
    case Some(m) => errors[f := m]
    case None => errors
  }

  /** The tests of the given fields, one after another, starting from `errors`. */
  function CheckFields(form: FormData, errors: Errors, fields: seq<Field>): Errors
    decreases |fields|
  {
    if fields == [] then errors else CheckFields(form, Note(form, errors, fields[0]), fields[1..])
  }

  /** The error map of a step: the tests of its fields, from an empty map. */
  function StepErrors(step: int, form: FormData): Errors {
    CheckFields(form, map[], StepFields(step))
  }

  /** Running the tests of some fields keeps the earlier entries and adds, for
      each listed field with a message, that message and nothing else. */
  lemma {:induction false} CheckFieldsEntries(form: FormData, before: Errors, fields: seq<Field>)
    ensures forall f :: f in CheckFields(form, before, fields) <==>
      f in before || (f in fields && FieldError(form, f).Some?)
    ensures forall f :: f in CheckFields(form, before, fields) ==>
      CheckFields(form, before, fields)[f] ==
        if f in fields && FieldError(form, f).Some? then FieldError(form, f).value else before[f]
    decreases |fields|
  {
    if fields != [] {
      CheckFieldsEntries(form, Note(form, before, fields[0]), fields[1..]);
      assert forall f :: f in fields <==> f == fields[0] || f in fields[1..];
    }
  }

  /** The error map of a step holds exactly the messages of its failing fields. */
  lemma StepErrorsAreFieldErrors(step: int, form: FormData)
    ensures StepErrors(step, form) == ErrorsOf(form, StepFields(step))
  {
    CheckFieldsEntries(form, map[], StepFields(step));
  }

  /** `validateStep`: starts from an empty map and adds the message of each
      failing field of the step, one test after another. */
  method ValidateStep(step: int, form: FormData) returns (errors: Errors)
    ensures errors == StepErrors(step, form)
  {
    errors := map[];
    // The fields still to test: testing them turns `errors` into the result.
    ghost var todo := StepFields(step);
    if step == 1 {
      assert (Trim(form.fullName) == "") == IsBlank(form.fullName) by { TrimEmptyIffBlank(form.fullName); }
      if Trim(form.fullName) == "" { errors := errors[FullName := "Name is required"]; }
      todo := [Email, Phone, IdNumber];
      assert CheckFields(form, errors, todo) == StepErrors(step, form);
      assert (Trim(form.email) == "") == IsBlank(form.email) by { TrimEmptyIffBlank(form.email); }
      if Trim(form.email) == "" { errors := errors[Email := "Email is required"]; }
      else if !MatchesEmailPattern(form.email) { errors := errors[Email := "Invalid email"]; }
      todo := [Phone, IdNumber];
      assert CheckFields(form, errors, todo) == StepErrors(step, form);
      assert (Trim(form.phone) == "") == IsBlank(form.phone) by { TrimEmptyIffBlank(form.phone); }
      if Trim(form.phone) == "" { errors := errors[Phone := "Phone is required"]; }
      todo := [IdNumber];
      assert CheckFields(form, errors, todo) == StepErrors(step, form);
      assert (Trim(form.idNumber) == "") == IsBlank(form.idNumber) by { TrimEmptyIffBlank(form.idNumber); }
      if Trim(form.idNumber) == "" { errors := errors[IdNumber := "ID number is required"]; }
      todo := [];
      assert CheckFields(form, errors, todo) == StepErrors(step, form);
    } else if step == 2 {
      if form.vehicleMake == "" { errors := errors[VehicleMake := "Vehicle make is required"]; }
      todo := [VehicleModel, YearOfManufacture, RegistrationNumber, VehicleValue];
      assert CheckFields(form, errors, todo) == StepErrors(step, form);
      assert (Trim(form.vehicleModel) == "") == IsBlank(form.vehicleModel) by { TrimEmptyIffBlank(form.vehicleModel); }
      if Trim(form.vehicleModel) == "" { errors := errors[VehicleModel := "Model is required"]; }
      todo := [YearOfManufacture, RegistrationNumber, VehicleValue];
      assert CheckFields(form, errors, todo) == StepErrors(step, form);
      if form.yearOfManufacture == "" { errors := errors[YearOfManufacture := "Year is required"]; }
      todo := [RegistrationNumber, VehicleValue];
      assert CheckFields(form, errors, todo) == StepErrors(step, form);
      assert (Trim(form.registrationNumber) == "") == IsBlank(form.registrationNumber) by { TrimEmptyIffBlank(form.registrationNumber); }
      if Trim(form.registrationNumber) == "" { errors := errors[RegistrationNumber := "Registration is required"]; }
      todo := [VehicleValue];
      assert CheckFields(form, errors, todo) == StepErrors(step, form);
      if form.vehicleValue == "" { errors := errors[VehicleValue := "Value is required"]; }
      todo := [];
      assert CheckFields(form, errors, todo) == StepErrors(step, form);
    } else if step == 3 {
      if form.coverageType == "" { errors := errors[CoverageType := "Select coverage type"]; }
      todo := [VehicleUsage];
      assert CheckFields(form, errors, todo) == StepErrors(step, form);
      if form.vehicleUsage == "" { errors := errors[VehicleUsage := "Select usage type"]; }
      todo := [];
      assert CheckFields(form, errors, todo) == StepErrors(step, form);
    }
  }

  /** A step number other than 1, 2 or 3 yields no messages. */
  lemma OtherStepsPass(step: int, form: FormData)
    requires step != 1 && step != 2 && step != 3
    ensures StepErrors(step, form) == map[]
  {
  }

  /** Every key of a step's error map is one of the step's fields, and it maps
      to that field's required-message, or to "Invalid email" for a present
      email that does not match the pattern. */
  lemma StepErrorEntries(step: int, form: FormData)
    ensures forall f :: f in StepErrors(step, form) <==> f in StepFields(step) && FieldError(form, f).Some?
    ensures forall f :: f in StepErrors(step, form) ==>
      (IsMissing(form, f) && StepErrors(step, form)[f] == RequiredMessage(f)) ||
      (f == Email && !IsMissing(form, f) && !MatchesEmailPattern(form.email) && StepErrors(step, form)[f] == InvalidEmailMessage)
  {
    StepErrorsAreFieldErrors(step, form);
    forall f | f in StepErrors(step, form)
      ensures (IsMissing(form, f) && StepErrors(step, form)[f] == RequiredMessage(f)) ||
        (f == Email && !IsMissing(form, f) && !MatchesEmailPattern(form.email) && StepErrors(step, form)[f] == InvalidEmailMessage)
    {
      FieldErrorRule(form, f);
    }
  }

  /** A step passes (its error map is empty) exactly when none of the
      fields it checks has a message. */
  lemma StepPassesIffFieldsPass(step: int, form: FormData)
    ensures StepErrors(step, form) == map[] <==> forall f :: f in StepFields(step) ==> FieldError(form, f).None?
  {
    StepErrorsAreFieldErrors(step, form);
    if StepErrors(step, form) == map[] {
      forall f | f in StepFields(step)
        ensures FieldError(form, f).None?
      {
        assert f !in StepErrors(step, form);
      }
    }
  }

  /** Step 1 (personal details) passes exactly when the name, email, phone
      and ID number are not blank and the email matches the pattern. */
  lemma PersonalDetailsPass(form: FormData)
    ensures StepErrors(1, form) == map[] <==>
      !IsBlank(form.fullName) && !IsBlank(form.email) && MatchesEmailPattern(form.email)
      && !IsBlank(form.phone) && !IsBlank(form.idNumber)
  {
    StepPassesIffFieldsPass(1, form);
    EmailMessages(form);
    assert FullName in StepFields(1) && Email in StepFields(1) && Phone in StepFields(1) && IdNumber in StepFields(1);
  }

  /** Step 2 (vehicle details) passes exactly when make, year and value are
      non-empty as typed and model and registration are not blank. */
  lemma VehicleDetailsPass(form: FormData)
    ensures StepErrors(2, form) == map[] <==>
      form.vehicleMake != "" && !IsBlank(form.vehicleModel) && form.yearOfManufacture != ""
      && !IsBlank(form.registrationNumber) && form.vehicleValue != ""
  {
    StepPassesIffFieldsPass(2, form);
    assert VehicleMake in StepFields(2) && VehicleModel in StepFields(2) && YearOfManufacture in StepFields(2);
    assert RegistrationNumber in StepFields(2) && VehicleValue in StepFields(2);
  }

  /** Step 3 (cover) passes exactly when both selections are made. */
  lemma CoverPass(form: FormData)
    ensures StepErrors(3, form) == map[] <==> form.coverageType != "" && form.vehicleUsage != ""
  {
    StepPassesIffFieldsPass(3, form);
    assert CoverageType in StepFields(3) && VehicleUsage in StepFields(3);
  }

  /** The email gets "Email is required" exactly when it is blank, and
      "Invalid email" exactly when it is not blank and does not match the
      pattern; the two never occur together. */
  lemma EmailMessages(form: FormData)
    ensures FieldError(form, Email) == Some("Email is required") <==> IsBlank(form.email)
    ensures FieldError(form, Email) == Some("Invalid email") <==> !IsBlank(form.email) && !MatchesEmailPattern(form.email)
    ensures FieldError(form, Email) == None <==> MatchesEmailPattern(form.email)
  {
  }

  /** An email with an "@" and a dot after it matches; one without an "@"
      does not. */
  lemma EmailPatternExamples()
    ensures MatchesEmailPattern("jane@example.com")
    ensures !MatchesEmailPattern("not-an-email")
  {
    assert EmailShapeAt("jane@example.com", 4, 12);
    var bad := "not-an-email";
    assert forall i :: 0 <= i < |bad| ==> bad[i] != '@';
  }

  /** White space alone is an answer for the vehicle make, which is checked
      as typed, but not for the model, which is trimmed first. */
  lemma RawAndTrimmedChecks(form: FormData)
    requires form.vehicleMake == "   " && form.vehicleModel == "   "
    ensures FieldError(form, VehicleMake) == None
    ensures FieldError(form, VehicleModel) == Some("Model is required")
  {
    assert IsBlank(form.vehicleModel);
  }

  /** Step 1 on an untouched form reports the four required-messages. */
  lemma EmptyPersonalDetails(form: FormData)
    requires form == EmptyForm
    ensures StepErrors(1, form) == map[FullName := "Name is required", Email := "Email is required",
                                       Phone := "Phone is required", IdNumber := "ID number is required"]
  {
    StepErrorsAreFieldErrors(1, form);
  }

  /** Step 1 with the other personal details filled in but the email
      "not-an-email" reports only "Invalid email". */
  lemma MalformedEmailOnly(form: FormData)
    requires !IsBlank(form.fullName) && !IsBlank(form.phone) && !IsBlank(form.idNumber)
    requires form.email == "not-an-email"
    ensures StepErrors(1, form) == map[Email := "Invalid email"]
  {
    EmailPatternExamples();
    assert !IsWhitespace(form.email[0]);
    assert FieldError(form, Email) == Some("Invalid email");
    StepErrorsAreFieldErrors(1, form);
  }

  /** Step 3 with a coverage type but no usage reports only the usage. */
  lemma MissingUsageOnly(form: FormData)
    requires form.coverageType == "comprehensive" && form.vehicleUsage == ""
    ensures StepErrors(3, form) == map[VehicleUsage := "Select usage type"]
  {
    StepErrorsAreFieldErrors(3, form);
  }

  // ---------------------------------------------------------------------
  // File name of the exported quote
  // ---------------------------------------------------------------------

  /** `s.replace(/\s+/g, '-')`: every maximal run of white space becomes a
      single "-". */
  function ReplaceWhitespaceRuns(s: string): (r: string)
    ensures NoWhitespace(r)
    ensures |r| <= |s|
    decreases |s|
  {
    if s == [] then []
    else if IsWhitespace(s[0]) then "-" + ReplaceWhitespaceRuns(TrimStart(s[1..]))
    else [s[0]] + ReplaceWhitespaceRuns(s[1..])
  }

  /** Text without white space is left as it is. */
  lemma {:induction false} ReplaceKeepsPlainText(s: string)
    requires NoWhitespace(s)
    ensures ReplaceWhitespaceRuns(s) == s
    decreases |s|
  {
    if s != [] {
      assert !IsWhitespace(s[0]);
      ReplaceKeepsPlainText(s[1..]);
    }
  }

  /** Skipping leading white space stops at the first other character. */
  lemma {:induction false} TrimStartSkipsBlank(w: string, y: string)
    requires IsBlank(w)
    requires y == [] || !IsWhitespace(y[0])
    ensures TrimStart(w + y) == y
    decreases |w|
  {
    if w == [] {
      assert w + y == y;
    } else {
      assert (w + y)[1..] == w[1..] + y;
      TrimStartSkipsBlank(w[1..], y);
    }
  }

  /** A run of white space between plain text `x` and text `y` that does not
      start with white space becomes one "-": the whole run, however long. */
  lemma {:induction false} ReplaceOneRun(x: string, w: string, y: string)
    requires NoWhitespace(x)
    requires w != [] && IsBlank(w)
    requires y == [] || !IsWhitespace(y[0])
    ensures ReplaceWhitespaceRuns(x + w + y) == x + "-" + ReplaceWhitespaceRuns(y)
    decreases |x|
  {
    if x == [] {
      assert x + w + y == w + y;
      assert (w + y)[1..] == w[1..] + y;
      TrimStartSkipsBlank(w[1..], y);
    } else {
      assert (x + w + y)[1..] == x[1..] + w + y;
      ReplaceOneRun(x[1..], w, y);
    }
  }

  /** `iso.split('T')[0]`: the calendar date of an ISO 8601 timestamp such
      as the one `Date.prototype.toISOString` returns. */
  function DateOf(iso: string): string {
    Split(iso, 'T')[0]
  }

  /** The date part of "<date>T<time>" is `<date>` when it has no "T". */
  lemma {:induction false} DateOfTimestamp(date: string, time: string)
    requires forall i :: 0 <= i < |date| ==> date[i] != 'T'
    ensures DateOf(date + "T" + time) == date
    decreases |date|
  {
    var s := date + "T" + time;
    if date == [] {
      assert s[0] == 'T';
    } else {
      assert s[0] == date[0] && s[1..] == date[1..] + "T" + time;
      DateOfTimestamp(date[1..], time);
    }
  }

  const FileNamePrefix := "Motor-Insurance-Quote-"

  /** The name under which the quote PDF is saved, for the holder's full name
      and the current time `now` as an ISO 8601 timestamp. */
  function QuoteFileName(fullName: string, now: string): (name: string)
    ensures |name| >= |FileNamePrefix| + 5
    ensures name[..|FileNamePrefix|] == FileNamePrefix
    ensures name[|name| - 4..] == ".pdf"
  {
    FileNamePrefix + ReplaceWhitespaceRuns(fullName) + "-" + DateOf(now) + ".pdf"
  }

  /** The middle of the file name is the full name with its white space runs
      turned into dashes, and it holds no white space; the file name ends
      with a dash, the date and ".pdf". */
  lemma QuoteFileNameParts(fullName: string, now: string)
    ensures var name := QuoteFileName(fullName, now);
      var middle := name[|FileNamePrefix|..|name| - |DateOf(now)| - 5];
      && middle == ReplaceWhitespaceRuns(fullName)
      && NoWhitespace(middle)
      && name[|name| - |DateOf(now)| - 5..] == "-" + DateOf(now) + ".pdf"
  {
  }

  /** "Jane  Doe", with two spaces, becomes "Jane-Doe". (The name is passed
      through a parameter so that the verifier does not evaluate the
      replacement on a literal.) */
  lemma ReplaceExample(fullName: string)
    requires fullName == "Jane  Doe"
    ensures ReplaceWhitespaceRuns(fullName) == "Jane-Doe"
  {
    var first, gap, rest := "Jane", "  ", "Doe";
    assert fullName == first + gap + rest;
    ReplaceKeepsPlainText(first);
    ReplaceKeepsPlainText(rest);
    ReplaceOneRun(first, gap, rest);
  }

  /** The date of 2026-10-15T08:30:00.000Z is 2026-10-15. */
  lemma DateOfExample()
    ensures DateOf("2026-10-15T08:30:00.000Z") == "2026-10-15"
  {
    var date, time := "2026-10-15", "08:30:00.000Z";
    assert "2026-10-15T08:30:00.000Z" == date + "T" + time;
    DateOfTimestamp(date, time);
  }

  /** "Jane  Doe" quoted at 2026-10-15T08:30:00.000Z is saved as
      "Motor-Insurance-Quote-Jane-Doe-2026-10-15.pdf". (The name and the
      timestamp are passed through parameters so that the verifier does not
      evaluate the replacement and the split on literals.) */
  lemma QuoteFileNameExample(fullName: string, date: string, time: string)
    requires fullName == "Jane  Doe" && date == "2026-10-15" && time == "08:30:00.000Z"
    ensures QuoteFileName(fullName, date + "T" + time) == "Motor-Insurance-Quote-Jane-Doe-2026-10-15.pdf"
  {
    DateOfTimestamp(date, time);
    ReplaceExample(fullName);
  }
}
