// The order forms (orders/forms.py): the checkout form's name, phone and address validators and
// the phone validator of the manager's contact form.
module OrderForms {
  import opened Wrappers
  import opened Text
  import opened AccountForms

  /** CheckoutForm.clean_full_name: stripped, at least 2 characters. */
  function CleanFullName(raw: string): (r: Result<string>)
    ensures r.Ok? <==> |Strip(raw)| >= 2
    ensures r.Ok? ==> r.value == Strip(raw)
    ensures Strip(raw) != "" && |Strip(raw)| < 2 ==> r == Err("Please enter your full name")
  {
    CleanMinLength(raw, 2, "Please enter your full name")
  }

  /** CheckoutForm.clean_address: stripped, at least 5 characters. */
  function CleanAddress(raw: string): (r: Result<string>)
    ensures r.Ok? <==> |Strip(raw)| >= 5
    ensures r.Ok? ==> r.value == Strip(raw)
    ensures Strip(raw) != "" && |Strip(raw)| < 5 ==> r == Err("Please enter a valid delivery address")
  {
    CleanMinLength(raw, 5, "Please enter a valid delivery address")
  }

  /**
   * A required phone field followed by a clean_phone that checks the pattern: stripped; an
   * empty value is refused as required, one that does not match with the given message.
   */
  function CleanRequiredPhone(raw: string, message: string): (r: Result<string>)
    ensures r.Ok? <==> Strip(raw) != "" && PhoneMatches(Strip(raw))
    ensures r.Ok? ==> r.value == Strip(raw)
    ensures Strip(raw) == "" ==> r == Err("This field is required.")
    ensures Strip(raw) != "" && !PhoneMatches(Strip(raw)) ==> r == Err(message)
  {
    var phone := Strip(raw);
    if phone == "" then Err("This field is required.")
    else if !PhoneMatches(phone) then Err(message)
    else Ok(phone)
  }

  /** CheckoutForm.clean_phone: the phone is required and must match the pattern. */
  function CleanCheckoutPhone(raw: string): Result<string>
  {
    CleanRequiredPhone(raw, PhoneMessage)
  }

  /**
   * UpdateOrderContactForm.clean_phone: the order's phone is a required model field, so an empty
   * value is refused before the optional-looking check runs; any other must match the pattern.
   */
  function CleanContactPhone(raw: string): Result<string>
  {
    CleanRequiredPhone(raw, "Enter a valid phone number")
  }

  /**
   * The checkout and contact forms accept the same phones (they differ only in the message);
   * both accept exactly the non-empty phones the profile form accepts, stripped the same way.
   */
  lemma PhoneFormsAgree(raw: string)
    ensures CleanCheckoutPhone(raw).Ok? <==> CleanContactPhone(raw).Ok?
    ensures CleanCheckoutPhone(raw).Ok? <==> CleanProfilePhone(raw).Ok? && CleanProfilePhone(raw).value != ""
    ensures CleanCheckoutPhone(raw).Ok? ==> CleanCheckoutPhone(raw).value == CleanProfilePhone(raw).value
  {
  }

  /** An accepted checkout phone has 7 to 21 characters: digits, whitespace, dashes and parentheses after an optional '+'. */
  lemma CheckoutPhoneShape(raw: string)
    requires CleanCheckoutPhone(raw).Ok?
    ensures var p := CleanCheckoutPhone(raw).value;
      7 <= |p| <= 21 && (forall k :: 0 < k < |p| ==> PhoneChar(p[k])) && (p[0] == '+' || PhoneChar(p[0]))
  {
    ProfilePhoneShape(raw);
  }

  /** The cleaned checkout fields pass their validators again unchanged. */
  lemma CheckoutFieldsIdempotent(name: string, address: string, phone: string)
    ensures CleanFullName(name).Ok? ==> CleanFullName(CleanFullName(name).value) == CleanFullName(name)
    ensures CleanAddress(address).Ok? ==> CleanAddress(CleanAddress(address).value) == CleanAddress(address)
    ensures CleanCheckoutPhone(phone).Ok? ==> CleanCheckoutPhone(CleanCheckoutPhone(phone).value) == CleanCheckoutPhone(phone)
  {
    StripIdempotent(name);
    StripIdempotent(address);
    StripIdempotent(phone);
  }
}
