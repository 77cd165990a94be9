/**
 * The public account handlers: registration with an emailed one-time code, its
 * verification, login, and the password reset by code. The clock is the
 * parameter `now` (milliseconds) and the code's random draw is `otpDraw`;
 * sending the email and issuing the session token are not part of this model.
 */
module AuthController {
  import opened Wrappers
  import opened Errors
  import opened UserModel
  import opened Records
  import opened OtpHelper
  import opened Store
  import opened ObjectIds
  import opened Text

  /** A code stays valid for ten minutes. */
  const OtpLifetime: int := 10 * 60 * 1000

  /** `{ code: generateOTP(), expiresAt: Date.now() + 10 minutes }`. */
  function FreshOtp(otpDraw: nat, now: int): (o: Otp)
    requires otpDraw < 900000
    ensures |o.code| == 6 && AllDigits(o.code) && 100000 <= DecimalValue(o.code) <= 999999
    ensures o.expiresAt == now + 600000
  {
    Otp(GenerateOtp(otpDraw), now + OtpLifetime)
  }

  /** The code check: a stored code, equal to the one entered, not yet expired. */
  predicate OtpAccepts(otp: Option<Otp>, entered: Option<string>, now: int) {
    otp.Some? && entered == Some(otp.value.code) && otp.value.expiresAt > now
  }

  /** A fresh code is accepted, with the code it carries, until its ten minutes are over. */
  lemma FreshOtpWindow(otpDraw: nat, issued: int, now: int)
    requires otpDraw < 900000
    ensures OtpAccepts(Some(FreshOtp(otpDraw, issued)), Some(GenerateOtp(otpDraw)), now) <==> now < issued + 600000
    ensures forall entered :: entered != Some(GenerateOtp(otpDraw)) ==> !OtpAccepts(Some(FreshOtp(otpDraw, issued)), entered, now)
  {
  }

  /** `if (password) user.password = password`: an absent or empty password keeps the old one. */
  function NewPassword(current: Secret, password: Option<string>): (s: Secret)
    ensures password.Some? && password.value != "" ==> s == Plain(password.value)
    ensures password.None? || password.value == "" ==> s == current
  {
    if password.Some? && password.value != "" then Plain(password.value) else current
  }

  /**
   * `registerUser`. An unverified account with this email gets a fresh code (and
   * the new password, if one is given) and no new account is made; a verified one
   * refuses; a new email creates an account holding the code.
   */
  method RegisterUser(c: Clinic, name: string, email: string, phone: string, password: Option<string>,
                      otpDraw: nat, now: int)
    returns (r: Outcome<Id>)
    requires c.Valid() && otpDraw < 900000
    modifies c
    ensures c.Valid()
    ensures old(FindByEmail(c, email)).Some? && old(c.users[FindByEmail(c, email).value]).profileCreated ==>
      r == Fail(BadRequest("User already exists")) && unchanged(c)
    ensures old(FindByEmail(c, email)).Some? && !old(c.users[FindByEmail(c, email).value]).profileCreated ==>
      var k := old(FindByEmail(c, email)).value;
      var u := old(c.users[k]);
      && r == Ok(k)
      && c.users.Keys == old(c.users).Keys
      && c.users == old(c.users)[k := PreSave(u.(otp := Some(FreshOtp(otpDraw, now)), password := NewPassword(u.password, password)), Some(k), 0)]
      && c.users[k].otp == Some(FreshOtp(otpDraw, now))
      && c.users[k].password == (if password.Some? && password.value != "" then Hashed(password.value) else u.password)
      && c.users[k].(otp := u.otp, password := u.password) == u
    ensures old(FindByEmail(c, email)).None? ==>
      var u := NewUser(name, email, phone, password.GetOr(""), now).(otp := Some(FreshOtp(otpDraw, now)));
      var v := PreSave(u, Some(old(c.nextId)), 0);
      if MissingRequired(u).Some? then r == Fail(ValidationFailed(MissingRequired(u).value)) && unchanged(c)
      else if Clash(old(c.users), v).Some? then r == Fail(DuplicateKey(Clash(old(c.users), v).value)) && unchanged(c)
      else
        && r == Ok(old(c.nextId))
        && c.users == old(c.users)[old(c.nextId) := v]
        && !v.profileCreated && v.otp == Some(FreshOtp(otpDraw, now)) && v.role == Patient
    ensures c.appointments == old(c.appointments) && c.invoices == old(c.invoices)
    ensures c.prescriptions == old(c.prescriptions) && c.reports == old(c.reports)
    ensures c.auditLog == old(c.auditLog) && c.events == old(c.events)
  {
    var found := FindByEmail(c, email);
    if found.Some? {
      var k := found.value;
      var u := c.users[k];
      if u.profileCreated {
        return Fail(BadRequest("User already exists"));
      }
      var w := u.(otp := Some(FreshOtp(otpDraw, now)), password := NewPassword(u.password, password));
      c.UpdateUser(k, w);
      return Ok(k);
    }
    r := c.InsertUser(NewUser(name, email, phone, password.GetOr(""), now).(otp := Some(FreshOtp(otpDraw, now))));
  }

  /** `verifyOTP`: a matching, unexpired code verifies the account and is used up. */
  method VerifyOtp(c: Clinic, userId: Id, entered: Option<string>, now: int) returns (r: Outcome<Id>)
    requires c.Valid()
    modifies c
    ensures c.Valid()
    ensures !(userId in old(c.users) && OtpAccepts(old(c.users[userId]).otp, entered, now)) ==>
      r == Fail(BadRequest("Invalid or expired OTP")) && unchanged(c)
    ensures userId in old(c.users) && OtpAccepts(old(c.users[userId]).otp, entered, now) ==>
      && r == Ok(userId)
      && c.users == old(c.users)[userId := old(c.users[userId]).(otp := None, profileCreated := true)]
    ensures c.appointments == old(c.appointments) && c.invoices == old(c.invoices)
    ensures c.prescriptions == old(c.prescriptions) && c.reports == old(c.reports)
    ensures c.auditLog == old(c.auditLog) && c.events == old(c.events)
  {
    if userId !in c.users || !OtpAccepts(c.users[userId].otp, entered, now) {
      return Fail(BadRequest("Invalid or expired OTP"));
    }
    var w := c.users[userId].(otp := None, profileCreated := true);
    PreSaveKeepsSaved(w, Some(userId), 0);
    c.UpdateUser(userId, w);
    return Ok(userId);
  }

  /** The account a login attempt succeeds for, if any. */
  function LoginMatch(c: Clinic, email: string, password: string): (r: Option<Id>)
    reads c
    requires c.Valid()
    ensures r.Some? <==> exists k :: k in c.users && c.users[k].email == email && PasswordMatches(c.users[k], password)
    ensures r.Some? ==> r.value in c.users && c.users[r.value].email == email && PasswordMatches(c.users[r.value], password)
  {
    var found := FindByEmail(c, email);
    if found.Some? && PasswordMatches(c.users[found.value], password) then found else None
  }

  /** Login does not look at the archive flag: a soft-deleted account still signs in. */
  lemma ArchivedAccountSignsIn(c: Clinic, k: Id, password: string)
    requires c.Valid() && k in c.users && c.users[k].isDeleted && PasswordMatches(c.users[k], password)
    ensures LoginMatch(c, c.users[k].email, password) == Some(k)
  {
    assert FindByEmail(c, c.users[k].email) == Some(k);
  }

  /** `authUser`: either outcome is logged; a failed one is logged with no user attached. */
  method AuthUser(c: Clinic, email: string, password: string) returns (r: Outcome<Id>)
    requires c.Valid()
    modifies c
    ensures c.Valid()
    ensures old(LoginMatch(c, email, password)).Some? ==>
      && r == Ok(old(LoginMatch(c, email, password)).value)
      && c.auditLog == old(c.auditLog) + [AuditEntry(Some(r.value), "Login", "Authentication")]
    ensures old(LoginMatch(c, email, password)).None? ==>
      && r == Fail(Unauthorized("Invalid email or password"))
      && c.auditLog == old(c.auditLog) + [AuditEntry(None, "Login Failed", "Authentication")]
    ensures c.users == old(c.users) && c.appointments == old(c.appointments) && c.invoices == old(c.invoices)
    ensures c.prescriptions == old(c.prescriptions) && c.reports == old(c.reports)
    ensures c.events == old(c.events) && c.nextId == old(c.nextId)
  {
    var found := LoginMatch(c, email, password);
    if found.Some? {
      c.Log(found, "Login", "Authentication");
      return Ok(found.value);
    }
    c.Log(None, "Login Failed", "Authentication");
    return Fail(Unauthorized("Invalid email or password"));
  }

  /** `forgotPassword`: stores a fresh code on the account with this email. */
  method ForgotPassword(c: Clinic, email: string, otpDraw: nat, now: int) returns (r: Outcome<Id>)
    requires c.Valid() && otpDraw < 900000
    modifies c
    ensures c.Valid()
    ensures old(FindByEmail(c, email)).None? ==> r == Fail(NotFound("User not found")) && unchanged(c)
    ensures old(FindByEmail(c, email)).Some? ==>
      var k := old(FindByEmail(c, email)).value;
      && r == Ok(k)
      && c.users == old(c.users)[k := old(c.users[k]).(otp := Some(FreshOtp(otpDraw, now)))]
      && c.auditLog == old(c.auditLog) + [AuditEntry(Some(k), "Forgot Password", "User Account")]
    ensures c.appointments == old(c.appointments) && c.invoices == old(c.invoices)
    ensures c.prescriptions == old(c.prescriptions) && c.reports == old(c.reports) && c.events == old(c.events)
  {
    var found := FindByEmail(c, email);
    if found.None? {
      return Fail(NotFound("User not found"));
    }
    var k := found.value;
    var w := c.users[k].(otp := Some(FreshOtp(otpDraw, now)));
    PreSaveKeepsSaved(w, Some(k), 0);
    c.UpdateUser(k, w);
    c.Log(Some(k), "Forgot Password", "User Account");
    return Ok(k);
  }

  /**
   * `resetPassword`: with a valid code present, the new password replaces the old
   * one and the code is used up; an absent or empty password fails validation and
   * saves nothing.
   */
  method ResetPassword(c: Clinic, email: string, entered: Option<string>, password: Option<string>, now: int)
    returns (r: Outcome<Id>)
    requires c.Valid()
    modifies c
    ensures c.Valid()
    ensures !(old(FindByEmail(c, email)).Some? && OtpAccepts(old(c.users[FindByEmail(c, email).value]).otp, entered, now)) ==>
      r == Fail(BadRequest("Invalid or expired OTP")) && unchanged(c)
    ensures old(FindByEmail(c, email)).Some? && OtpAccepts(old(c.users[FindByEmail(c, email).value]).otp, entered, now) ==>
      var k := old(FindByEmail(c, email)).value;
      if password.None? || password.value == "" then r == Fail(ValidationFailed("password")) && unchanged(c)
      else
        && r == Ok(k)
        && c.users == old(c.users)[k := old(c.users[k]).(password := Hashed(password.value), otp := None)]
        && LoginMatch(c, email, password.value) == Some(k)
        && c.auditLog == old(c.auditLog) + [AuditEntry(Some(k), "Reset Password", "User Account")]
    ensures c.appointments == old(c.appointments) && c.invoices == old(c.invoices)
    ensures c.prescriptions == old(c.prescriptions) && c.reports == old(c.reports) && c.events == old(c.events)
  {
    var found := FindByEmail(c, email);
    if found.None? || !OtpAccepts(c.users[found.value].otp, entered, now) {
      return Fail(BadRequest("Invalid or expired OTP"));
    }
    var k := found.value;
    if password.None? || password.value == "" {
      return Fail(ValidationFailed("password"));
    }
    var w := c.users[k].(password := Plain(password.value), otp := None);
    c.UpdateUser(k, w);
    assert c.users[k] == PreSave(w, Some(k), 0);
    assert c.users[k].email == email && c.users[k].password == Hashed(password.value);
    assert FindByEmail(c, email) == Some(k);
    c.Log(Some(k), "Reset Password", "User Account");
    return Ok(k);
  }
}
