// The account forms (accounts/forms.py): the username, phone, e-mail and password validators.
// Each returns the cleaned value or the message of the ValidationError it raises.
module AccountForms {
  import opened Wrappers
  import opened Text
  import opened AccountModels

  // ---------------------------------------------------------------- usernames

  /** A character of the pattern [a-zA-Z0-9_]. */
  predicate UsernameChar(c: char)
  {
    IsAsciiLetter(c) || IsDigit(c) || c == '_'
  }

  /** re.match(r'^[a-zA-Z0-9_]+$', name) on a stripped name: one or more allowed characters. */
  predicate UsernameChars(name: string)
  {
    name != [] && forall k :: 0 <= k < |name| ==> UsernameChar(name[k])
  }

  /** Some user other than `self` has this username, ignoring case (username__iexact, excluding pk=self). */
  predicate UsernameTaken(users: seq<User>, name: string, self: Option<int>)
  {
    exists i :: 0 <= i < |users| && users[i].username.Some? && (self.None? || users[i].id != self.value) &&
      EqualsIgnoreCase(users[i].username.value, name)
  }

  /**
   * The checks a non-empty stripped username goes through, in order: at least 3 characters,
   * only letters, digits and underscores, and not taken by another user ignoring case.
   * None when all pass, else the message of the first that fails.
   */
  function UsernameError(users: seq<User>, name: string, self: Option<int>): (r: Option<string>)
    ensures r.None? <==> |name| >= 3 && UsernameChars(name) && !UsernameTaken(users, name, self)
    ensures |name| < 3 ==> r == Some("Username must be at least 3 characters long")
    ensures |name| >= 3 && !UsernameChars(name) ==> r == Some("Username can only contain letters, numbers and underscores")
    ensures |name| >= 3 && UsernameChars(name) && UsernameTaken(users, name, self) ==> r == Some("This username is already taken")
  {
    if |name| < 3 then Some("Username must be at least 3 characters long")
    else if !UsernameChars(name) then Some("Username can only contain letters, numbers and underscores")
    else if UsernameTaken(users, name, self) then Some("This username is already taken")
    else None
  }

  /**
   * clean_username of the sign-up form (self = None) and of the profile form (self = the user's
   * own pk): an absent or empty username is returned as is; any other is stripped and must pass
   * UsernameError.
   */
  function CleanUsername(users: seq<User>, value: Option<string>, self: Option<int>): (r: Result<Option<string>>)
    ensures (value.None? || value.value == "") ==> r == Ok(value)
    ensures value.Some? && value.value != "" ==>
      (r.Ok? <==> UsernameError(users, Strip(value.value), self).None?)
    ensures value.Some? && value.value != "" && r.Ok? ==>
      r.value == Some(Strip(value.value)) && |Strip(value.value)| >= 3 && UsernameChars(Strip(value.value)) &&
      !UsernameTaken(users, Strip(value.value), self)
  {
    match value
    case None => Ok(value)
    case Some(raw) =>
      if raw == "" then Ok(value)
      else
        var name := Strip(raw);
        match UsernameError(users, name, self)
        case Some(message) => Err(message)
        case None => Ok(Some(name))
  }

  /** A username made only of allowed characters has no surrounding whitespace, so stripping it again changes nothing. */
  lemma CleanUsernameIdempotent(users: seq<User>, value: Option<string>, self: Option<int>)
    requires CleanUsername(users, value, self).Ok?
    ensures CleanUsername(users, CleanUsername(users, value, self).value, self) == CleanUsername(users, value, self)
  {
    var r := CleanUsername(users, value, self).value;
    if r.Some? && r.value != "" {
      StripTrimmed(r.value);
    }
  }

  /** No two users have the same non-empty username, ignoring case. */
  predicate UsernamesUnique(users: seq<User>)
  {
    forall i, j :: 0 <= i < j < |users| && users[i].username.Some? && users[j].username.Some? && users[i].username.value != "" ==>
      !EqualsIgnoreCase(users[i].username.value, users[j].username.value)
  }

  /** Primary keys identify users. */
  predicate IdsUnique(users: seq<User>)
  {
    forall i, j :: 0 <= i < j < |users| ==> users[i].id != users[j].id
  }

  /** users with user k's username replaced. */
  function WithUsername(users: seq<User>, k: int, name: Option<string>): (r: seq<User>)
    requires 0 <= k < |users|
    ensures |r| == |users| && r[k].username == name
    ensures forall i :: 0 <= i < |users| && i != k ==> r[i] == users[i]
  {
    users[k := users[k].(username := name)]
  }

  /**
   * Saving a username that passed the profile check for its own user keeps usernames unique;
   * so does clearing it to the empty string.
   */
  lemma SetUsernameKeepsUnique(users: seq<User>, k: int, name: string)
    requires UsernamesUnique(users) && IdsUnique(users) && 0 <= k < |users|
    requires name == "" || !UsernameTaken(users, name, Some(users[k].id))
    ensures UsernamesUnique(WithUsername(users, k, Some(name)))
  {
    var r := WithUsername(users, k, Some(name));
    forall i, j | 0 <= i < j < |r| && r[i].username.Some? && r[j].username.Some? && r[i].username.value != ""
      ensures !EqualsIgnoreCase(r[i].username.value, r[j].username.value)
    {
      if i == k {
        assert users[j].id != users[k].id;
      } else if j == k {
        assert users[i].id != users[k].id;
      }
    }
  }

  // ---------------------------------------------------------------- phones

  /** A character of the class [0-9\s\-\(\)]. */
  predicate PhoneChar(c: char)
  {
    IsDigit(c) || IsSpace(c) || c == '-' || c == '(' || c == ')'
  }

  /** 7 to 20 characters of the class. */
  predicate PhoneBody(b: string)
  {
    7 <= |b| <= 20 && forall k :: 0 <= k < |b| ==> PhoneChar(b[k])
  }

  /**
   * PHONE_REGEX.match(s) for ^\+?[0-9\s\-\(\)]{7,20}$: an optional '+' (which the class does not
   * contain, so it is taken exactly when s starts with it), then the body; `$` also matches just
   * before a final newline.
   */
  predicate PhoneMatches(s: string)
  {
    var b := if |s| > 0 && s[0] == '+' then s[1..] else s;
    PhoneBody(b) || (|b| > 0 && b[|b| - 1] == '\n' && PhoneBody(b[..|b| - 1]))
  }

  /** On a stripped value the final-newline case never arises: the match is the body check, and the value has 7 to 21 characters. */
  lemma PhoneMatchesStripped(s: string)
    requires Strip(s) == s
    ensures PhoneMatches(s) <==> PhoneBody(if |s| > 0 && s[0] == '+' then s[1..] else s)
    ensures PhoneMatches(s) ==> 7 <= |s| <= 21
  {
  }

  const PhoneMessage := "Enter a valid phone number (digits, spaces, dashes, parentheses; 7-20 characters)"

  /** ProfileForm.clean_phone: stripped; an empty phone is allowed, any other must match the pattern. */
  function CleanProfilePhone(raw: string): (r: Result<string>)
    ensures r.Ok? <==> Strip(raw) == "" || PhoneMatches(Strip(raw))
    ensures r.Ok? ==> r.value == Strip(raw)
    ensures r.Err? ==> r.error == PhoneMessage
  {
    var phone := Strip(raw);
    if phone != "" && !PhoneMatches(phone) then Err(PhoneMessage) else Ok(phone)
  }

  /** An accepted profile phone is empty or has the shape of a phone number. */
  lemma ProfilePhoneShape(raw: string)
    requires CleanProfilePhone(raw).Ok?
    ensures var p := CleanProfilePhone(raw).value;
      p == "" || (7 <= |p| <= 21 && (forall k :: 0 < k < |p| ==> PhoneChar(p[k])) && (p[0] == '+' || PhoneChar(p[0])))
  {
    var p := Strip(raw);
    StripIdempotent(raw);
    if p != "" {
      PhoneMatchesStripped(p);
    }
  }

  // ---------------------------------------------------------------- e-mail addresses and passwords

  /** Some user other than `self` has this e-mail address (exact match). */
  predicate EmailTaken(users: seq<User>, email: string, self: Option<int>)
  {
    exists i :: 0 <= i < |users| && users[i].email == email && (self.None? || users[i].id != self.value)
  }

  /** SignUpForm.clean_email: the address must not belong to any user. */
  function CleanSignupEmail(users: seq<User>, email: string): (r: Result<string>)
    ensures r.Ok? <==> !EmailTaken(users, email, None)
    ensures r.Ok? ==> r.value == email
    ensures r.Err? ==> r.error == "A user with this email already exists"
  {
    if EmailTaken(users, email, None) then Err("A user with this email already exists") else Ok(email)
  }

  /** ForgotPasswordForm.clean_email: the address must belong to a user. */
  function CleanForgotEmail(users: seq<User>, email: string): (r: Result<string>)
    ensures r.Ok? <==> EmailTaken(users, email, None)
    ensures r.Ok? ==> r.value == email
    ensures r.Err? ==> r.error == "No user found with this email"
  {
    if !EmailTaken(users, email, None) then Err("No user found with this email") else Ok(email)
  }

  /** Every address is accepted by exactly one of the sign-up and forgot-password forms. */
  lemma SignupAndForgotComplementary(users: seq<User>, email: string)
    ensures CleanSignupEmail(users, email).Ok? != CleanForgotEmail(users, email).Ok?
  {
  }

  /** ChangeEmailForm.clean_new_email: no other user may have the address. */
  function CleanNewEmail(users: seq<User>, self: int, email: string): (r: Result<string>)
    ensures r.Ok? <==> !EmailTaken(users, email, Some(self))
    ensures r.Ok? ==> r.value == email
    ensures r.Err? ==> r.error == "This email is already in use"
  {
    if EmailTaken(users, email, Some(self)) then Err("This email is already in use") else Ok(email)
  }

  /** No two users share an address (email is unique). */
  predicate EmailsUnique(users: seq<User>)
  {
    forall i, j :: 0 <= i < j < |users| ==> users[i].email != users[j].email
  }

  /** Changing a user's address to one ChangeEmailForm accepted keeps addresses unique. */
  lemma ChangeEmailKeepsUnique(users: seq<User>, k: int, email: string)
    requires EmailsUnique(users) && IdsUnique(users) && 0 <= k < |users|
    requires CleanNewEmail(users, users[k].id, email).Ok?
    ensures EmailsUnique(users[k := users[k].(email := email)])
  {
    var r := users[k := users[k].(email := email)];
    forall i, j | 0 <= i < j < |r|
      ensures r[i].email != r[j].email
    {
      if i == k {
        assert users[j].id != users[k].id;
      } else if j == k {
        assert users[i].id != users[k].id;
      }
    }
  }

  /**
   * The clean() of the sign-up, reset and change-password forms: when both the password and
   * its confirmation are present (non-empty) they must be equal.
   */
  function CheckPasswordsMatch(password: string, confirm: string): (r: Result<string>)
    ensures r.Ok? <==> password == "" || confirm == "" || password == confirm
    ensures r.Ok? ==> r.value == password
    ensures r.Err? ==> r.error == "Passwords do not match"
  {
    if password != "" && confirm != "" && password != confirm then Err("Passwords do not match") else Ok(password)
  }

  /**
   * ChangePasswordForm.clean_old_password and ChangeEmailForm.clean_password: the raw password
   * must be the user's (check_password), else the form's message.
   */
  function CheckPassword(u: User, raw: string, message: string): (r: Result<string>)
    ensures r.Ok? <==> raw == u.password
    ensures r.Ok? ==> r.value == raw
    ensures r.Err? ==> r.error == message
  {
    if raw != u.password then Err(message) else Ok(raw)
  }
}
