// Accounts (accounts/models.py): the user's display name and roles, the one-year cooldown on
// birth-date changes, and the e-mail verification and password-reset tokens. Instants are whole
// seconds on one clock; the clock itself is a parameter.
module AccountModels {
  import opened Wrappers
  import opened Calendar

  /** BIRTH_DATE_CHANGE_COOLDOWN_DAYS. */
  const CooldownDays := 365

  const SecondsPerDay := 86400
  const SecondsPerHour := 3600

  /**
   * The user fields the rules read. The role is the stored string (its choices are customer,
   * manager and admin); `password` stands for the stored password, compared by check_password.
   */
  datatype User = User(
    id: int,
    email: string,
    username: Option<string>,
    firstName: string,
    role: string,
    isSuperuser: bool,
    emailVerified: bool,
    password: string,
    phone: string,
    birthDate: Option<Date>,
    birthDateChangedAt: Option<int>)

  /** email.split('@')[0]: the text before the first '@', or all of it. */
  function LocalPart(email: string): (r: string)
    ensures r <= email
    ensures '@' !in r
    ensures |r| < |email| ==> email[|r|] == '@'
  {
    if email == [] || email[0] == '@' then [] else [email[0]] + LocalPart(email[1..])
  }

  /** display_name: the username, else the first name, else the local part of the e-mail address (empty strings count as missing). */
  function DisplayName(u: User): string
  {
    if u.username.Some? && u.username.value != "" then u.username.value
    else if u.firstName != "" then u.firstName
    else LocalPart(u.email)
  }

  /**
   * The display name is always one of the three sources, and it is never empty when the e-mail
   * address does not start with '@' (every stored address has a local part).
   */
  lemma DisplayNameSources(u: User)
    ensures DisplayName(u) == LocalPart(u.email) || DisplayName(u) == u.firstName || (u.username.Some? && DisplayName(u) == u.username.value)
    ensures u.email != [] && u.email[0] != '@' ==> DisplayName(u) != []
    ensures u.username.Some? && u.username.value != "" ==> DisplayName(u) == u.username.value
    ensures (u.username.None? || u.username.value == "") && u.firstName == "" ==> '@' !in DisplayName(u) && DisplayName(u) <= u.email
  {
  }

  /** is_manager: the role is manager or admin. */
  predicate IsManager(u: User)
  {
    u.role in ["manager", "admin"]
  }

  /** is_admin: the role is admin, or the user is a superuser. */
  predicate IsAdmin(u: User)
  {
    u.role == "admin" || u.isSuperuser
  }

  /**
   * The admin role grants both; a manager that is no superuser is no admin; a customer that is no
   * superuser is neither; and a superuser whose role is customer is an admin but not a manager.
   */
  lemma RolesNest(u: User)
    ensures u.role == "admin" ==> IsManager(u) && IsAdmin(u)
    ensures u.role == "manager" && !u.isSuperuser ==> IsManager(u) && !IsAdmin(u)
    ensures u.role == "customer" ==> !IsManager(u)
    ensures u.role == "customer" && !u.isSuperuser ==> !IsAdmin(u)
    ensures IsManager(u) && !IsAdmin(u) ==> u.role == "manager"
    ensures u.role == "customer" && u.isSuperuser ==> IsAdmin(u) && !IsManager(u)
  {
  }

  /** (now - then).days: whole days elapsed, rounded towards minus infinity as timedelta does. */
  function ElapsedDays(now: int, since: int): int
  {
    (now - since) / SecondsPerDay
  }

  /** can_change_birth_date: no birth date or no change time yet, or at least 365 days since the last change. */
  predicate CanChangeBirthDate(u: User, now: int)
  {
    u.birthDate.None? || u.birthDateChangedAt.None? || ElapsedDays(now, u.birthDateChangedAt.value) >= CooldownDays
  }

  /** days_until_birth_date_change: 0 when a change is allowed, else 365 minus the days elapsed. */
  function DaysUntilBirthDateChange(u: User, now: int): (r: int)
    ensures r == 0 <==> CanChangeBirthDate(u, now)
    ensures r >= 0
    ensures !CanChangeBirthDate(u, now) && u.birthDateChangedAt.value <= now ==> 1 <= r <= CooldownDays
  {
    if CanChangeBirthDate(u, now) then 0 else CooldownDays - ElapsedDays(now, u.birthDateChangedAt.value)
  }

  /**
   * The count of days is exact: after waiting that many days a change is allowed, and one day
   * earlier it is not.
   */
  lemma CooldownCountIsExact(u: User, now: int)
    requires !CanChangeBirthDate(u, now)
    ensures CanChangeBirthDate(u, now + DaysUntilBirthDateChange(u, now) * SecondsPerDay)
    ensures !CanChangeBirthDate(u, now + (DaysUntilBirthDateChange(u, now) - 1) * SecondsPerDay)
  {
    var r := DaysUntilBirthDateChange(u, now);
    var c := u.birthDateChangedAt.value;
    ShiftDays(now - c, r);
    ShiftDays(now - c, r - 1);
    assert now + r * SecondsPerDay - c == (now - c) + r * SecondsPerDay;
    assert now + (r - 1) * SecondsPerDay - c == (now - c) + (r - 1) * SecondsPerDay;
  }

  lemma ShiftDays(x: int, k: int)
    ensures (x + k * SecondsPerDay) / SecondsPerDay == x / SecondsPerDay + k
  {
  }

  /** A change made at `at` blocks every further change for the next 365 days. */
  lemma ChangeStartsCooldown(u: User, at: int, now: int)
    requires u.birthDate.Some? && u.birthDateChangedAt == Some(at)
    ensures CanChangeBirthDate(u, now) <==> now - at >= CooldownDays * SecondsPerDay
  {
  }

  // ---------------------------------------------------------------- tokens

  datatype TokenKind = Verification | PasswordReset

  /** An e-mail verification token or a password-reset token (the former has no code, kept empty here). */
  datatype Token = Token(kind: TokenKind, user: int, token: string, code: string, expiresAt: int, used: bool)

  /** is_valid: not used yet and not expired. */
  predicate IsValid(t: Token, now: int)
  {
    !t.used && now < t.expiresAt
  }

  /** How long a token lives when its expiry is left for save() to fill in: 24 hours or 1 hour. */
  function Lifetime(kind: TokenKind): int
  {
    match kind
    case Verification => 24 * SecondsPerHour
    case PasswordReset => SecondsPerHour
  }

  /** A reset code as the source draws it: six decimal digits. */
  predicate IsResetCode(c: string)
  {
    |c| == 6 && forall k :: 0 <= k < |c| ==> '0' <= c[k] <= '9'
  }

  /** A token before save(): the fields the caller set, empty when left out. */
  datatype TokenDraft = TokenDraft(kind: TokenKind, user: int, token: string, code: string, expiresAt: Option<int>, used: bool)

  /**
   * save(): fills in only the fields left empty: a fresh random token string, for reset tokens
   * a fresh six-digit code, and an expiry one lifetime after now. The random values are the
   * parameters `freshToken` and `freshCode`.
   */
  function SaveToken(d: TokenDraft, now: int, freshToken: string, freshCode: string): (t: Token)
    requires freshToken != ""
    requires d.kind == PasswordReset ==> IsResetCode(freshCode)
    ensures t.kind == d.kind && t.user == d.user && t.used == d.used
    ensures t.token != ""
    ensures d.token != "" ==> t.token == d.token
    ensures d.kind == PasswordReset ==> t.code != "" && (d.code != "" ==> t.code == d.code) && (d.code == "" ==> IsResetCode(t.code))
    ensures d.kind == Verification ==> t.code == d.code
    ensures d.expiresAt.Some? ==> t.expiresAt == d.expiresAt.value
    ensures d.expiresAt.None? ==> t.expiresAt == now + Lifetime(d.kind)
  {
    Token(
      d.kind,
      d.user,
      if d.token == "" then freshToken else d.token,
      if d.kind == PasswordReset && d.code == "" then freshCode else d.code,
      if d.expiresAt.None? then now + Lifetime(d.kind) else d.expiresAt.value,
      d.used)
  }

  /**
   * A token created with every default (objects.create(user=...)) is valid from its creation
   * exactly until its lifetime has passed: 24 hours for verification, 1 hour for a reset.
   */
  lemma FreshTokenLifetime(kind: TokenKind, user: int, now: int, freshToken: string, freshCode: string, later: int)
    requires freshToken != "" && IsResetCode(freshCode)
    requires now <= later
    ensures IsValid(SaveToken(TokenDraft(kind, user, "", "", None, false), now, freshToken, freshCode), later)
      <==> later - now < Lifetime(kind)
  {
  }

  /** Saving again changes nothing: every default is filled in once. */
  lemma SaveTokenIdempotent(d: TokenDraft, now: int, again: int, freshToken: string, freshCode: string, otherToken: string, otherCode: string)
    requires freshToken != "" && IsResetCode(freshCode)
    requires otherToken != "" && IsResetCode(otherCode)
    ensures var t := SaveToken(d, now, freshToken, freshCode);
      SaveToken(TokenDraft(t.kind, t.user, t.token, t.code, Some(t.expiresAt), t.used), again, otherToken, otherCode) == t
  {
  }
}
