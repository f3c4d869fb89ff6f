// The account views (accounts/views.py): the login gate on verified e-mail addresses, the
// username and birth-date actions of the settings page, and the life of verification and
// password-reset tokens. The users and both token tables are the fields of one store; the
// request's clock and the random token values are parameters.
module AccountViews {
  import opened Wrappers
  import opened Text
  import opened Calendar
  import opened AccountModels
  import opened AccountForms

  /** The flash message a view leaves: a success, an error, or none. */
  datatype Reply = Done(message: string) | Refused(message: string) | Silent

  /** The user with primary key id, if any. */
  function FindUser(users: seq<User>, id: int): (r: Option<nat>)
    ensures r.Some? ==> r.value < |users| && users[r.value].id == id
    ensures r.None? ==> forall j :: 0 <= j < |users| ==> users[j].id != id
  {
    if users == [] then None
    else if users[|users| - 1].id == id then Some(|users| - 1)
    else FindUser(users[..|users| - 1], id)
  }

  /** The user with this e-mail address, if any (User.objects.get(email=...)). */
  function FindByEmail(users: seq<User>, email: string): (r: Option<nat>)
    ensures r.Some? ==> r.value < |users| && users[r.value].email == email
    ensures r.None? ==> forall j :: 0 <= j < |users| ==> users[j].email != email
  {
    if users == [] then None
    else if users[|users| - 1].email == email then Some(|users| - 1)
    else FindByEmail(users[..|users| - 1], email)
  }

  /** Some user has primary key id. */
  predicate HasUser(users: seq<User>, id: int)
  {
    exists j :: 0 <= j < |users| && users[j].id == id
  }

  /** Some user with primary key id has a verified e-mail address. */
  predicate VerifiedUser(users: seq<User>, id: int)
  {
    exists j :: 0 <= j < |users| && users[j].id == id && users[j].emailVerified
  }

  /** Token strings are unique within each table. */
  predicate TokenStringsUnique(tokens: seq<Token>)
  {
    forall i, j :: 0 <= i < j < |tokens| && tokens[i].kind == tokens[j].kind ==> tokens[i].token != tokens[j].token
  }

  /** The token of one kind with this token string, if any. */
  function FindToken(tokens: seq<Token>, kind: TokenKind, token: string): (r: Option<nat>)
    ensures r.Some? ==> r.value < |tokens| && tokens[r.value].kind == kind && tokens[r.value].token == token
    ensures r.None? ==> forall i :: 0 <= i < |tokens| ==> tokens[i].kind != kind || tokens[i].token != token
  {
    if tokens == [] then None
    else if tokens[|tokens| - 1].kind == kind && tokens[|tokens| - 1].token == token then Some(|tokens| - 1)
    else FindToken(tokens[..|tokens| - 1], kind, token)
  }

  /**
   * user.password_reset_tokens.filter(code=code, used=False).first(): the earliest unused reset
   * token of the user with this code.
   */
  function FirstUnusedWithCode(tokens: seq<Token>, user: int, code: string): (r: Option<nat>)
    ensures r.Some? ==> (r.value < |tokens| && tokens[r.value].kind == PasswordReset && tokens[r.value].user == user &&
      tokens[r.value].code == code && !tokens[r.value].used)
    ensures r.Some? ==> forall i :: 0 <= i < r.value ==>
      !(tokens[i].kind == PasswordReset && tokens[i].user == user && tokens[i].code == code && !tokens[i].used)
    ensures r.None? ==> forall i :: 0 <= i < |tokens| ==>
      !(tokens[i].kind == PasswordReset && tokens[i].user == user && tokens[i].code == code && !tokens[i].used)
  {
    if tokens == [] then None
    else
      match FirstUnusedWithCode(tokens[..|tokens| - 1], user, code)
      case Some(i) => Some(i)
      case None =>
        var t := tokens[|tokens| - 1];
        if t.kind == PasswordReset && t.user == user && t.code == code && !t.used then Some(|tokens| - 1) else None
  }

  /** user.<kind>_tokens.update(used=True): every token of that user and kind marked used. */
  function MarkAllUsed(tokens: seq<Token>, user: int, kind: TokenKind): (r: seq<Token>)
    ensures |r| == |tokens|
    ensures forall i :: 0 <= i < |r| ==>
      r[i] == (if tokens[i].user == user && tokens[i].kind == kind then tokens[i].(used := true) else tokens[i])
  {
    seq(|tokens|, i requires 0 <= i < |tokens| => if tokens[i].user == user && tokens[i].kind == kind then tokens[i].(used := true) else tokens[i])
  }

  /** Tokens of one user and kind that can still be used at some time. */
  predicate Unused(t: Token, user: int, kind: TokenKind)
  {
    t.user == user && t.kind == kind && !t.used
  }

  /**
   * Issuing a token for a user invalidates the earlier ones and creates one with every default
   * filled in (marked-used update, then objects.create(user=...)).
   */
  function Issue(tokens: seq<Token>, user: int, kind: TokenKind, freshToken: string, freshCode: string, now: int): (r: seq<Token>)
    requires freshToken != ""
    requires kind == PasswordReset ==> IsResetCode(freshCode)
  {
    MarkAllUsed(tokens, user, kind) + [SaveToken(TokenDraft(kind, user, "", "", None, false), now, freshToken, freshCode)]
  }

  /**
   * After a token is issued, it is the user's only unused token of its kind; it is valid until
   * its lifetime has passed, and every other user's tokens are as before.
   */
  lemma IssueLeavesOneLiveToken(tokens: seq<Token>, user: int, kind: TokenKind, freshToken: string, freshCode: string, now: int)
    requires freshToken != ""
    requires kind == PasswordReset ==> IsResetCode(freshCode)
    ensures var r := Issue(tokens, user, kind, freshToken, freshCode, now);
      |r| == |tokens| + 1 &&
      Unused(r[|tokens|], user, kind) &&
      (forall i :: 0 <= i < |tokens| ==> !Unused(r[i], user, kind)) &&
      (forall later :: now <= later ==> (IsValid(r[|tokens|], later) <==> later - now < Lifetime(kind))) &&
      (forall i :: 0 <= i < |tokens| && (tokens[i].user != user || tokens[i].kind != kind) ==> r[i] == tokens[i])
  {
  }

  /** The outcome of the login view. */
  datatype LoginOutcome = AlreadyLoggedIn | LoggedIn | MustVerify | FormRejected

  /** The outcome of verify_email. */
  datatype VerifyOutcome = TokenNotFound | EmailVerified | LinkInvalid

  /** The birth-date field of the settings form: empty, not a YYYY-MM-DD date, or a date. */
  datatype DateInput = NoDate | Malformed | Entered(date: Date)

  /** The account store: users, the verification and reset tokens, and the request's session. */
  class Accounts {
    var users: seq<User>
    var tokens: seq<Token>
    /** The pk of the logged-in user, if any. */
    var session: Option<int>
    /** set_expiry(0): the session ends when the browser closes. */
    var expiresAtBrowserClose: bool

    /**
     * Primary keys, e-mail addresses and usernames (ignoring case) are unique; every token
     * belongs to a user; token strings are unique per table; and the session only ever holds a
     * user whose e-mail address is verified.
     */
    ghost predicate Valid()
      reads this
    {
      IdsUnique(users) && EmailsUnique(users) && UsernamesUnique(users) &&
      (forall i :: 0 <= i < |tokens| ==> HasUser(users, tokens[i].user)) &&
      TokenStringsUnique(tokens) &&
      (session.Some? ==> VerifiedUser(users, session.value))
    }

    constructor ()
      ensures Valid()
      ensures users == [] && tokens == [] && session == None && !expiresAtBrowserClose
    {
      users := [];
      tokens := [];
      session := None;
      expiresAtBrowserClose := false;
    }

    /**
     * login_view: a logged-in user is sent home; `authenticated` is the user the login form
     * accepted the credentials of (None when it refused them). A user whose e-mail address is
     * not verified is not logged in. Without "remember me" the session ends with the browser.
     */
    method Login(authenticated: Option<nat>, rememberMe: bool) returns (outcome: LoginOutcome)
      requires Valid()
      requires authenticated.Some? ==> authenticated.value < |users|
      modifies this
      ensures Valid()
      ensures users == old(users) && tokens == old(tokens)
      ensures old(session).Some? ==> outcome == AlreadyLoggedIn
      ensures old(session).None? && authenticated.None? ==> outcome == FormRejected
      ensures old(session).None? && authenticated.Some? ==>
        (outcome == LoggedIn <==> users[authenticated.value].emailVerified) &&
        (outcome == LoggedIn || outcome == MustVerify)
      ensures outcome == LoggedIn ==> (session == Some(users[authenticated.value].id) &&
        expiresAtBrowserClose == (!rememberMe || old(expiresAtBrowserClose)))
      ensures outcome != LoggedIn ==> session == old(session) && expiresAtBrowserClose == old(expiresAtBrowserClose)
    {
      if session.Some? {
        return AlreadyLoggedIn;
      }
      if authenticated.None? {
        return FormRejected;
      }
      var k := authenticated.value;
      if !users[k].emailVerified {
        return MustVerify;
      }
      session := Some(users[k].id);
      if !rememberMe {
        expiresAtBrowserClose := true;
      }
      outcome := LoggedIn;
    }

    /**
     * account_settings, action update_username, for the user at index me: the posted name is
     * stripped; an empty one clears the username to ''; any other must pass the length, pattern
     * and case-insensitive uniqueness checks (excluding the user) before it is saved.
     */
    method UpdateUsername(me: nat, raw: string) returns (reply: Reply)
      requires Valid() && me < |users|
      modifies this
      ensures Valid()
      ensures tokens == old(tokens) && session == old(session) && expiresAtBrowserClose == old(expiresAtBrowserClose)
      ensures Strip(raw) == "" ==> users == WithUsername(old(users), me, Some("")) && reply == Done("Username cleared.")
      ensures Strip(raw) != "" && UsernameError(old(users), Strip(raw), Some(old(users)[me].id)).Some? ==>
        users == old(users) && reply == Refused(UsernameError(old(users), Strip(raw), Some(old(users)[me].id)).value + ".")
      ensures Strip(raw) != "" && UsernameError(old(users), Strip(raw), Some(old(users)[me].id)).None? ==>
        users == WithUsername(old(users), me, Some(Strip(raw))) && reply == Done("Username updated.")
    {
      var name := Strip(raw);
      if name == "" {
        SetUsername(me, "");
        return Done("Username cleared.");
      }
      var error := UsernameError(users, name, Some(users[me].id));
      if error.Some? {
        return Refused(error.value + ".");
      }
      SetUsername(me, name);
      reply := Done("Username updated.");
    }

    method SetUsername(me: nat, name: string)
      requires Valid() && me < |users|
      requires name == "" || !UsernameTaken(users, name, Some(users[me].id))
      modifies this
      ensures Valid()
      ensures users == WithUsername(old(users), me, Some(name))
      ensures tokens == old(tokens) && session == old(session) && expiresAtBrowserClose == old(expiresAtBrowserClose)
    {
      SetUsernameKeepsUnique(users, me, name);
      var before := users;
      users := WithUsername(users, me, Some(name));
      KeepsOwnersAndVerified(before, users, tokens, session);
    }

    /**
     * account_settings, action update_birth_date, for the user at index me; `today` is the date
     * of `now`. An empty field does nothing; while the cooldown runs the change is refused with
     * the days left; otherwise the date must parse, must not lie after today, and must be at
     * most 120 calendar years back, and then the birth date and its change time are stored.
     */
    method UpdateBirthDate(me: nat, input: DateInput, today: Date, now: int) returns (reply: Reply)
      requires Valid() && me < |users|
      modifies this
      ensures Valid()
      ensures tokens == old(tokens) && session == old(session) && expiresAtBrowserClose == old(expiresAtBrowserClose)
      ensures input.NoDate? ==> users == old(users) && reply == Silent
      ensures input != NoDate && !CanChangeBirthDate(old(users)[me], now) ==>
        users == old(users) &&
        reply == Refused("You can change your birthday in " + IntToString(DaysUntilBirthDateChange(old(users)[me], now)) + " days.")
      ensures input.Malformed? && CanChangeBirthDate(old(users)[me], now) ==>
        users == old(users) && reply == Refused("Invalid date format.")
      ensures input.Entered? && CanChangeBirthDate(old(users)[me], now) ==>
        (reply.Done? <==> !After(input.date, today) && today.year - input.date.year <= 120) &&
        (After(input.date, today) ==> reply == Refused("Birth date cannot be in the future.")) &&
        (!After(input.date, today) && today.year - input.date.year > 120 ==> reply == Refused("Please enter a valid birth date."))
      ensures reply.Done? ==>
        users == old(users)[me := old(users)[me].(birthDate := Some(input.date), birthDateChangedAt := Some(now))]
      ensures !reply.Done? ==> users == old(users)
      ensures reply.Done? ==> forall later :: now <= later < now + CooldownDays * SecondsPerDay ==> !CanChangeBirthDate(users[me], later)
    {
      if input.NoDate? {
        return Silent;
      }
      if !CanChangeBirthDate(users[me], now) {
        return Refused("You can change your birthday in " + IntToString(DaysUntilBirthDateChange(users[me], now)) + " days.");
      }
      match input {
        case Malformed =>
          reply := Refused("Invalid date format.");
        case Entered(d) =>
          if After(d, today) {
            reply := Refused("Birth date cannot be in the future.");
          } else if today.year - d.year > 120 {
            reply := Refused("Please enter a valid birth date.");
          } else {
            BirthDateChangeKeepsTables(users, tokens, session, me, d, now);
            users := users[me := users[me].(birthDate := Some(d), birthDateChangedAt := Some(now))];
            reply := Done("Birthday updated! You may receive a special discount around this date.");
          }
      }
    }

    /**
     * verify_email: the verification token with this string (404 when there is none); a valid
     * one marks its user's address verified and is itself marked used; an invalid one changes
     * nothing.
     */
    method VerifyEmail(token: string, now: int) returns (outcome: VerifyOutcome, index: nat)
      requires Valid()
      modifies this
      ensures Valid()
      ensures session == old(session) && expiresAtBrowserClose == old(expiresAtBrowserClose)
      ensures outcome == TokenNotFound <==> FindToken(old(tokens), Verification, token).None?
      ensures outcome != TokenNotFound ==> index == FindToken(old(tokens), Verification, token).value
      ensures outcome == EmailVerified <==> outcome != TokenNotFound && IsValid(old(tokens)[index], now)
      ensures outcome != EmailVerified ==> users == old(users) && tokens == old(tokens)
      ensures outcome == EmailVerified ==>
        tokens == old(tokens)[index := old(tokens)[index].(used := true)] &&
        |users| == |old(users)| &&
        (forall j :: 0 <= j < |users| ==>
          users[j] == if old(users)[j].id == old(tokens)[index].user then old(users)[j].(emailVerified := true) else old(users)[j])
      ensures outcome == EmailVerified ==> VerifiedUser(users, tokens[index].user) && !IsValid(tokens[index], now)
    {
      index := 0;
      var found := FindToken(tokens, Verification, token);
      if found.None? {
        return TokenNotFound, index;
      }
      index := found.value;
      if !IsValid(tokens[index], now) {
        return LinkInvalid, index;
      }
      var owner := FindUser(users, tokens[index].user);
      if owner.None? {
        assert false;
      } else {
        MarkVerified(owner.value);
        tokens := tokens[index := tokens[index].(used := true)];
        outcome := EmailVerified;
      }
    }

    method MarkVerified(k: nat)
      requires Valid() && k < |users|
      modifies this
      ensures Valid()
      ensures users == old(users)[k := old(users)[k].(emailVerified := true)]
      ensures tokens == old(tokens) && session == old(session) && expiresAtBrowserClose == old(expiresAtBrowserClose)
      ensures VerifiedUser(users, users[k].id)
    {
      var before := users;
      users := users[k := users[k].(emailVerified := true)];
      assert forall i, j :: 0 <= i < j < |users| ==> users[i].username == before[i].username && users[j].username == before[j].username;
      KeepsOwnersAndVerified(before, users, tokens, session);
    }

    /**
     * resend_verification: a user with this address whose address is not verified yet gets all
     * earlier verification tokens marked used and a new one; anyone else gets an error.
     */
    method ResendVerification(email: string, freshToken: string, now: int) returns (reply: Reply)
      requires Valid()
      requires freshToken != "" && FindToken(tokens, Verification, freshToken).None?
      modifies this
      ensures Valid()
      ensures users == old(users) && session == old(session) && expiresAtBrowserClose == old(expiresAtBrowserClose)
      ensures var k := FindByEmail(old(users), email);
        if k.Some? && !old(users)[k.value].emailVerified then
          reply == Done("Email sent! Please check your inbox.") &&
          tokens == Issue(old(tokens), old(users)[k.value].id, Verification, freshToken, "", now)
        else
          reply == Refused("User not found or already verified.") && tokens == old(tokens)
    {
      var k := FindByEmail(users, email);
      if k.None? || users[k.value].emailVerified {
        return Refused("User not found or already verified.");
      }
      IssueToken(k.value, Verification, freshToken, "", now);
      reply := Done("Email sent! Please check your inbox.");
    }

    /**
     * forgot_password: the form requires an address that belongs to a user; that user gets all
     * earlier reset tokens marked used and a new one with a six-digit code.
     */
    method ForgotPassword(email: string, freshToken: string, freshCode: string, now: int) returns (reply: Reply)
      requires Valid()
      requires freshToken != "" && FindToken(tokens, PasswordReset, freshToken).None?
      requires IsResetCode(freshCode)
      modifies this
      ensures Valid()
      ensures users == old(users) && session == old(session) && expiresAtBrowserClose == old(expiresAtBrowserClose)
      ensures CleanForgotEmail(old(users), email).Err? ==>
        reply == Refused(CleanForgotEmail(old(users), email).error) && tokens == old(tokens)
      ensures CleanForgotEmail(old(users), email).Ok? ==>
        reply == Done("Code sent to your email.") &&
        tokens == Issue(old(tokens), old(users)[FindByEmail(old(users), email).value].id, PasswordReset, freshToken, freshCode, now)
    {
      var cleaned := CleanForgotEmail(users, email);
      if cleaned.Err? {
        return Refused(cleaned.error);
      }
      var k := FindByEmail(users, email);
      if k.None? {
        assert false;
      } else {
        IssueToken(k.value, PasswordReset, freshToken, freshCode, now);
        reply := Done("Code sent to your email.");
      }
    }

    method IssueToken(k: nat, kind: TokenKind, freshToken: string, freshCode: string, now: int)
      requires Valid() && k < |users|
      requires freshToken != "" && FindToken(tokens, kind, freshToken).None?
      requires kind == PasswordReset ==> IsResetCode(freshCode)
      modifies this
      ensures Valid()
      ensures tokens == Issue(old(tokens), old(users)[k].id, kind, freshToken, freshCode, now)
      ensures users == old(users) && session == old(session) && expiresAtBrowserClose == old(expiresAtBrowserClose)
    {
      var before := tokens;
      tokens := Issue(tokens, users[k].id, kind, freshToken, freshCode, now);
      assert HasUser(users, users[k].id);
      assert forall i :: 0 <= i < |before| ==> tokens[i].user == before[i].user && tokens[i].kind == before[i].kind && tokens[i].token == before[i].token;
    }

    /**
     * reset_password for the address in the URL: an unknown address is refused; the form needs
     * a code and matching new passwords; then the earliest unused reset token of the user with
     * that code must exist and not be expired, and the password is set and the token used.
     */
    method ResetPassword(email: string, code: string, newPassword: string, confirm: string, now: int) returns (reply: Reply)
      requires Valid()
      modifies this
      ensures Valid()
      ensures session == old(session) && expiresAtBrowserClose == old(expiresAtBrowserClose)
      ensures FindByEmail(old(users), email).None? ==> reply == Refused("User not found.")
      ensures !reply.Done? ==> users == old(users) && tokens == old(tokens)
      ensures reply.Done? <==>
        FindByEmail(old(users), email).Some? && code != "" && newPassword != "" && confirm != "" && newPassword == confirm &&
        var t := FirstUnusedWithCode(old(tokens), old(users)[FindByEmail(old(users), email).value].id, code);
        t.Some? && IsValid(old(tokens)[t.value], now)
      ensures reply.Done? ==>
        var k := FindByEmail(old(users), email).value;
        var t := FirstUnusedWithCode(old(tokens), old(users)[k].id, code).value;
        users == old(users)[k := old(users)[k].(password := newPassword)] &&
        tokens == old(tokens)[t := old(tokens)[t].(used := true)] &&
        reply == Done("Password changed successfully! You can now log in.")
    {
      var k := FindByEmail(users, email);
      if k.None? {
        return Refused("User not found.");
      }
      if code == "" || newPassword == "" || confirm == "" {
        return Refused("This field is required.");
      }
      var matched := CheckPasswordsMatch(newPassword, confirm);
      if matched.Err? {
        return Refused(matched.error);
      }
      var t := FirstUnusedWithCode(tokens, users[k.value].id, code);
      if t.None? || !IsValid(tokens[t.value], now) {
        return Refused("Invalid or expired code.");
      }
      ConsumeResetToken(k.value, t.value, newPassword);
      reply := Done("Password changed successfully! You can now log in.");
    }

    method ConsumeResetToken(k: nat, t: nat, newPassword: string)
      requires Valid() && k < |users| && t < |tokens|
      modifies this
      ensures Valid()
      ensures users == old(users)[k := old(users)[k].(password := newPassword)]
      ensures tokens == old(tokens)[t := old(tokens)[t].(used := true)]
      ensures session == old(session) && expiresAtBrowserClose == old(expiresAtBrowserClose)
    {
      var before := users;
      users := users[k := users[k].(password := newPassword)];
      assert forall i :: 0 <= i < |users| ==> users[i].username == before[i].username;
      KeepsOwnersAndVerified(before, users, tokens, session);
      var earlier := tokens;
      tokens := tokens[t := tokens[t].(used := true)];
      assert forall i :: 0 <= i < |tokens| ==> tokens[i].user == earlier[i].user && tokens[i].kind == earlier[i].kind && tokens[i].token == earlier[i].token;
    }
  }

  /**
   * Storing a birth date keeps the user table's invariants (only the birth date and its change
   * time move) and starts a cooldown of a full year.
   */
  lemma BirthDateChangeKeepsTables(users: seq<User>, tokens: seq<Token>, session: Option<int>, me: nat, d: Date, now: int)
    requires me < |users|
    requires IdsUnique(users) && EmailsUnique(users) && UsernamesUnique(users)
    requires forall i :: 0 <= i < |tokens| ==> HasUser(users, tokens[i].user)
    requires session.Some? ==> VerifiedUser(users, session.value)
    ensures var after := users[me := users[me].(birthDate := Some(d), birthDateChangedAt := Some(now))];
      IdsUnique(after) && EmailsUnique(after) && UsernamesUnique(after) &&
      (forall i :: 0 <= i < |tokens| ==> HasUser(after, tokens[i].user)) &&
      (session.Some? ==> VerifiedUser(after, session.value)) &&
      forall later :: now <= later < now + CooldownDays * SecondsPerDay ==> !CanChangeBirthDate(after[me], later)
  {
    var after := users[me := users[me].(birthDate := Some(d), birthDateChangedAt := Some(now))];
    KeepsOwnersAndVerified(users, after, tokens, session);
    assert UsernamesUnique(after) by {
      assert forall j :: 0 <= j < |users| ==> after[j].username == users[j].username;
    }
    forall later | now <= later < now + CooldownDays * SecondsPerDay
      ensures !CanChangeBirthDate(after[me], later)
    {
      ChangeStartsCooldown(after[me], now, later);
    }
  }

  /**
   * Changing user fields other than the primary key and the address, without clearing the
   * verified flag, keeps every token owned, the session on a verified user, and ids and
   * addresses unique.
   */
  lemma KeepsOwnersAndVerified(before: seq<User>, after: seq<User>, tokens: seq<Token>, session: Option<int>)
    requires |after| == |before|
    requires forall j :: 0 <= j < |before| ==> (after[j].id == before[j].id && after[j].email == before[j].email &&
      (before[j].emailVerified ==> after[j].emailVerified))
    requires forall i :: 0 <= i < |tokens| ==> HasUser(before, tokens[i].user)
    requires session.Some? ==> VerifiedUser(before, session.value)
    requires IdsUnique(before) && EmailsUnique(before)
    ensures forall i :: 0 <= i < |tokens| ==> HasUser(after, tokens[i].user)
    ensures session.Some? ==> VerifiedUser(after, session.value)
    ensures IdsUnique(after) && EmailsUnique(after)
  {
    forall i | 0 <= i < |tokens|
      ensures HasUser(after, tokens[i].user)
    {
      var j :| 0 <= j < |before| && before[j].id == tokens[i].user;
      assert after[j].id == tokens[i].user;
    }
    if session.Some? {
      var j :| 0 <= j < |before| && before[j].id == session.value && before[j].emailVerified;
      assert after[j].id == session.value && after[j].emailVerified;
    }
  }
}
