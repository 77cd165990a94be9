/**
 * The alternative patient onboarding handler: it looks up the email and then the
 * phone before creating the account, and tells an archived (soft-deleted) owner
 * apart from an active one, so that the admin is pointed at the restore action.
 */
module AdminControllerTempFix {
  import opened Wrappers
  import opened Errors
  import opened UserModel
  import opened Records
  import opened Store
  import opened ObjectIds
  import AdminController

  /** The refusal for an email already in use, by the state of its owner. */
  function EmailTaken(owner: User): (e: Error)
    ensures e.BadRequest?
    ensures owner.isDeleted <==> e.message == "User with this email exists (Archived). Please restore from Archive."
  {
    if owner.isDeleted then BadRequest("User with this email exists (Archived). Please restore from Archive.")
    else BadRequest("Email is already registered")
  }

  /** The refusal for a phone number already in use, by the state of its owner. */
  function PhoneTaken(owner: User): (e: Error)
    ensures e.BadRequest?
    ensures owner.isDeleted <==> e.message == "User with this mobile number exists (Archived). Please restore from Archive."
  {
    if owner.isDeleted then BadRequest("User with this mobile number exists (Archived). Please restore from Archive.")
    else BadRequest("Mobile number is already registered")
  }

  /**
   * `createPatient`: the email check first, the phone check only once the email
   * is free, then one new verified patient account.
   */
  method CreatePatient(c: Clinic, caller: Id, name: string, email: string, phone: string, passwordDraw: nat, now: int)
    returns (r: Outcome<Id>)
    requires c.Valid() && IsRole(c, caller, Superadmin) && passwordDraw < 9000
    modifies c
    ensures c.Valid()
    ensures old(FindByEmail(c, email)).Some? ==>
      r == Fail(EmailTaken(old(c.users[FindByEmail(c, email).value]))) && unchanged(c)
    ensures old(FindByEmail(c, email)).None? && old(FindByPhone(c, phone)).Some? ==>
      r == Fail(PhoneTaken(old(c.users[FindByPhone(c, phone).value]))) && unchanged(c)
    ensures r.Fail? ==> unchanged(c)
    ensures old(FindByEmail(c, email)).None? && old(FindByPhone(c, phone)).None? && r.Fail? ==>
      r.error.ValidationFailed? || r.error == DuplicateKey("displayId")
    ensures r.Ok? ==>
      && r.value == old(c.nextId)
      && c.users == old(c.users)[r.value := PreSave(AdminController.Onboarded(name, email, phone, Patient, passwordDraw, now), Some(r.value), 0)]
      && |c.users| == |old(c.users)| + 1
      && c.users[r.value].role == Patient && c.users[r.value].profileCreated
      && c.auditLog == old(c.auditLog) + [AuditEntry(Some(caller), "Create Patient", "User Management")]
    ensures c.appointments == old(c.appointments) && c.invoices == old(c.invoices)
    ensures c.prescriptions == old(c.prescriptions) && c.reports == old(c.reports) && c.events == old(c.events)
  {
    var byEmail := FindByEmail(c, email);
    if byEmail.Some? {
      return Fail(EmailTaken(c.users[byEmail.value]));
    }
    var byPhone := FindByPhone(c, phone);
    if byPhone.Some? {
      return Fail(PhoneTaken(c.users[byPhone.value]));
    }
    var u := AdminController.Onboarded(name, email, phone, Patient, passwordDraw, now);
    var v := PreSave(u, Some(c.nextId), 0);
    assert v.email == email && v.phone == phone;
    ClashIsDisplayId(c.users, v);
    r := c.InsertUser(u);
    if r.Ok? {
      c.Log(Some(caller), "Create Patient", "User Management");
    }
  }
}
