/**
 * The superadmin's handlers: onboarding doctors and patients, soft delete and
 * restore of accounts, appointment assignment and removal, and invoice status.
 * Every handler is reached only through routes that admit the `superadmin`
 * role, which is each method's precondition `IsRole(c, caller, Superadmin)`.
 */
module AdminController {
  import opened Wrappers
  import opened Errors
  import opened UserModel
  import opened AppointmentModel
  import opened InvoiceModel
  import opened Records
  import opened OtpHelper
  import opened Store
  import opened ObjectIds

  /** The record `User.create` receives when an admin onboards an account. */
  function Onboarded(name: string, email: string, phone: string, role: Role, passwordDraw: nat, now: int): (u: User)
    requires passwordDraw < 9000
    ensures u.role == role && u.profileCreated && !u.isDeleted && u.otp.None? && u.displayId == ""
    ensures u.name == name && u.email == email && u.phone == phone && u.createdAt == now
    ensures u.password == Plain(GenerateRandomPassword(name, passwordDraw))
  {
    NewUser(name, email, phone, GenerateRandomPassword(name, passwordDraw), now).(role := role, profileCreated := true)
  }

  /** A generated password is never empty, so an onboarded account can lack only a name, email or phone. */
  lemma OnboardedPasswordPresent(name: string, email: string, phone: string, role: Role, passwordDraw: nat, now: int)
    requires passwordDraw < 9000
    ensures MissingRequired(Onboarded(name, email, phone, role, passwordDraw, now)) != Some("password")
  {
    assert |GenerateRandomPassword(name, passwordDraw)| >= 4;
  }

  /**
   * The body shared by createDoctor and createPatient: only the email is looked
   * up beforehand; a phone or displayId already in use surfaces as the unique
   * index's duplicate-key error.
   */
  method Onboard(c: Clinic, caller: Id, name: string, email: string, phone: string, role: Role,
                 action: string, passwordDraw: nat, now: int)
    returns (r: Outcome<Id>)
    requires c.Valid() && IsRole(c, caller, Superadmin) && passwordDraw < 9000
    modifies c
    ensures c.Valid()
    ensures old(FindByEmail(c, email)).Some? ==> r == Fail(BadRequest("User already exists")) && unchanged(c)
    ensures old(FindByEmail(c, email)).None? ==>
      var u := Onboarded(name, email, phone, role, passwordDraw, now);
      var v := PreSave(u, Some(old(c.nextId)), 0);
      if MissingRequired(u).Some? then r == Fail(ValidationFailed(MissingRequired(u).value)) && unchanged(c)
      else if Clash(old(c.users), v).Some? then r == Fail(DuplicateKey(Clash(old(c.users), v).value)) && unchanged(c)
      else
        && r == Ok(old(c.nextId))
        && c.users == old(c.users)[old(c.nextId) := v]
        && c.auditLog == old(c.auditLog) + [AuditEntry(Some(caller), action, "User Management")]
        && c.nextId == old(c.nextId) + 1
        && c.appointments == old(c.appointments) && c.invoices == old(c.invoices)
        && c.prescriptions == old(c.prescriptions) && c.reports == old(c.reports) && c.events == old(c.events)
  {
    if FindByEmail(c, email).Some? {
      return Fail(BadRequest("User already exists"));
    }
    r := c.InsertUser(Onboarded(name, email, phone, role, passwordDraw, now));
    if r.Ok? {
      c.Log(Some(caller), action, "User Management");
    }
  }

  /** `createDoctor`: an onboarded account with role doctor. */
  method CreateDoctor(c: Clinic, caller: Id, name: string, email: string, phone: string, passwordDraw: nat, now: int)
    returns (r: Outcome<Id>)
    requires c.Valid() && IsRole(c, caller, Superadmin) && passwordDraw < 9000
    modifies c
    ensures c.Valid()
    ensures old(FindByEmail(c, email)).Some? ==> r == Fail(BadRequest("User already exists")) && unchanged(c)
    ensures old(FindByEmail(c, email)).None? ==>
      var u := Onboarded(name, email, phone, Doctor, passwordDraw, now);
      var v := PreSave(u, Some(old(c.nextId)), 0);
      if MissingRequired(u).Some? then r == Fail(ValidationFailed(MissingRequired(u).value))
      else if Clash(old(c.users), v).Some? then r == Fail(DuplicateKey(Clash(old(c.users), v).value))
      else r == Ok(old(c.nextId))
    ensures r.Fail? ==> unchanged(c)
    ensures r.Ok? ==>
      && r.value == old(c.nextId)
      && c.users == old(c.users)[r.value := PreSave(Onboarded(name, email, phone, Doctor, passwordDraw, now), Some(r.value), 0)]
      && c.users[r.value].role == Doctor && c.users[r.value].profileCreated
      && c.auditLog == old(c.auditLog) + [AuditEntry(Some(caller), "Create Doctor", "User Management")]
    ensures c.appointments == old(c.appointments) && c.invoices == old(c.invoices)
    ensures c.prescriptions == old(c.prescriptions) && c.reports == old(c.reports) && c.events == old(c.events)
  {
    r := Onboard(c, caller, name, email, phone, Doctor, "Create Doctor", passwordDraw, now);
  }

  /** `createPatient`: an onboarded account with role patient. */
  method CreatePatient(c: Clinic, caller: Id, name: string, email: string, phone: string, passwordDraw: nat, now: int)
    returns (r: Outcome<Id>)
    requires c.Valid() && IsRole(c, caller, Superadmin) && passwordDraw < 9000
    modifies c
    ensures c.Valid()
    ensures old(FindByEmail(c, email)).Some? ==> r == Fail(BadRequest("User already exists")) && unchanged(c)
    ensures old(FindByEmail(c, email)).None? ==>
      var u := Onboarded(name, email, phone, Patient, passwordDraw, now);
      var v := PreSave(u, Some(old(c.nextId)), 0);
      if MissingRequired(u).Some? then r == Fail(ValidationFailed(MissingRequired(u).value))
      else if Clash(old(c.users), v).Some? then r == Fail(DuplicateKey(Clash(old(c.users), v).value))
      else r == Ok(old(c.nextId))
    ensures r.Fail? ==> unchanged(c)
    ensures r.Ok? ==>
      && r.value == old(c.nextId)
      && c.users == old(c.users)[r.value := PreSave(Onboarded(name, email, phone, Patient, passwordDraw, now), Some(r.value), 0)]
      && c.users[r.value].role == Patient && c.users[r.value].profileCreated
      && c.auditLog == old(c.auditLog) + [AuditEntry(Some(caller), "Create Patient", "User Management")]
    ensures c.appointments == old(c.appointments) && c.invoices == old(c.invoices)
    ensures c.prescriptions == old(c.prescriptions) && c.reports == old(c.reports) && c.events == old(c.events)
  {
    r := Onboard(c, caller, name, email, phone, Patient, "Create Patient", passwordDraw, now);
  }

  /**
   * Saving a stored user with only its archive flag changed always succeeds and
   * writes exactly that record.
   */
  method SetArchived(c: Clinic, id: Id, archived: bool)
    requires c.Valid() && id in c.users
    modifies c
    ensures c.Valid()
    ensures c.users == old(c.users)[id := old(c.users[id]).(isDeleted := archived)]
    ensures c.appointments == old(c.appointments) && c.invoices == old(c.invoices) && c.nextId == old(c.nextId)
    ensures c.prescriptions == old(c.prescriptions) && c.reports == old(c.reports)
    ensures c.auditLog == old(c.auditLog) && c.events == old(c.events)
  {
    var u := c.users[id].(isDeleted := archived);
    PreSaveKeepsSaved(u, Some(id), 0);
    c.UpdateUser(id, u);
  }

  /** `deleteUser`: a soft delete that refuses superadmin accounts and never removes a record. */
  method DeleteUser(c: Clinic, caller: Id, id: Id) returns (r: Outcome<()>)
    requires c.Valid() && IsRole(c, caller, Superadmin)
    modifies c
    ensures c.Valid()
    ensures id !in old(c.users) ==> r == Fail(NotFound("User not found")) && unchanged(c)
    ensures id in old(c.users) && old(c.users[id]).role == Superadmin ==>
      r == Fail(Forbidden("Superadmin accounts cannot be deleted")) && unchanged(c)
    ensures id in old(c.users) && old(c.users[id]).role != Superadmin ==>
      && r == Ok(())
      && c.users == old(c.users)[id := old(c.users[id]).(isDeleted := true)]
      && c.auditLog == old(c.auditLog) + [AuditEntry(Some(caller), "Delete User", "User Management")]
    ensures c.users.Keys == old(c.users).Keys
    ensures c.appointments == old(c.appointments) && c.invoices == old(c.invoices) && c.nextId == old(c.nextId)
    ensures c.prescriptions == old(c.prescriptions) && c.reports == old(c.reports) && c.events == old(c.events)
  {
    if id !in c.users {
      return Fail(NotFound("User not found"));
    }
    if c.users[id].role == Superadmin {
      return Fail(Forbidden("Superadmin accounts cannot be deleted"));
    }
    SetArchived(c, id, true);
    c.Log(Some(caller), "Delete User", "User Management");
    return Ok(());
  }

  /** `restoreUser`: clears the archive flag whatever it was, for any role. */
  method RestoreUser(c: Clinic, caller: Id, id: Id) returns (r: Outcome<()>)
    requires c.Valid() && IsRole(c, caller, Superadmin)
    modifies c
    ensures c.Valid()
    ensures id !in old(c.users) ==> r == Fail(NotFound("User not found")) && unchanged(c)
    ensures id in old(c.users) ==>
      && r == Ok(())
      && c.users == old(c.users)[id := old(c.users[id]).(isDeleted := false)]
      && c.auditLog == old(c.auditLog) + [AuditEntry(Some(caller), "Restore User", "User Management")]
    ensures c.appointments == old(c.appointments) && c.invoices == old(c.invoices) && c.nextId == old(c.nextId)
    ensures c.prescriptions == old(c.prescriptions) && c.reports == old(c.reports) && c.events == old(c.events)
  {
    if id !in c.users {
      return Fail(NotFound("User not found"));
    }
    SetArchived(c, id, false);
    c.Log(Some(caller), "Restore User", "User Management");
    return Ok(());
  }

  /**
   * `assignAppointment`: an appointment created already Accepted, logged, then
   * announced to its doctor. The announcement needs the socket server; when it is
   * down the handler fails after the appointment and the log entry are written.
   */
  method AssignAppointment(c: Clinic, caller: Id, patientId: Option<Id>, doctorId: Option<Id>, date: Option<int>,
                           kind: Option<string>, reason: string, now: int, socketUp: bool)
    returns (r: Outcome<Id>)
    requires c.Valid() && IsRole(c, caller, Superadmin)
    modifies c
    ensures c.Valid()
    ensures Create(patientId, doctorId, date, kind, reason, Some(Accepted), now).Fail? ==>
      r == Fail(Create(patientId, doctorId, date, kind, reason, Some(Accepted), now).error) && unchanged(c)
    ensures Create(patientId, doctorId, date, kind, reason, Some(Accepted), now).Ok? ==>
      var a := Create(patientId, doctorId, date, kind, reason, Some(Accepted), now).value;
      var id := old(c.nextId);
      && a.status == Accepted
      && c.appointments == old(c.appointments)[id := a]
      && c.auditLog == old(c.auditLog) + [AuditEntry(Some(caller), "Assign Appointment", "Appointment Management")]
      && c.events == old(c.events) + (if socketUp then [Event("ASSIGN_APPOINTMENT", Some(a.doctor), id)] else [])
      && r == (if socketUp then Ok(id) else Fail(SocketNotInitialized))
      && c.users == old(c.users) && c.invoices == old(c.invoices)
      && c.prescriptions == old(c.prescriptions) && c.reports == old(c.reports)
  {
    var created := Create(patientId, doctorId, date, kind, reason, Some(Accepted), now);
    if created.Fail? {
      return Fail(created.error);
    }
    var id := c.InsertAppointment(created.value);
    c.Log(Some(caller), "Assign Appointment", "Appointment Management");
    var emitted := c.Emit(socketUp, Event("ASSIGN_APPOINTMENT", Some(created.value.doctor), id));
    if !emitted {
      return Fail(SocketNotInitialized);
    }
    return Ok(id);
  }

  /** `deleteAppointment`: removes the record outright, unless it is Completed. */
  method DeleteAppointment(c: Clinic, caller: Id, id: Id) returns (r: Outcome<()>)
    requires c.Valid() && IsRole(c, caller, Superadmin)
    modifies c
    ensures c.Valid()
    ensures id !in old(c.appointments) ==> r == Fail(NotFound("Appointment not found")) && unchanged(c)
    ensures id in old(c.appointments) && old(c.appointments[id]).status == Completed ==>
      r == Fail(Forbidden("Completed appointments cannot be removed")) && unchanged(c)
    ensures id in old(c.appointments) && old(c.appointments[id]).status != Completed ==>
      && r == Ok(())
      && c.appointments == old(c.appointments) - {id}
      && c.auditLog == old(c.auditLog) + [AuditEntry(Some(caller), "Cancel Appointment", "Appointment Management")]
    ensures forall k :: k in old(c.appointments) && old(c.appointments[k]).status == Completed ==>
      k in c.appointments && c.appointments[k] == old(c.appointments[k])
    ensures c.users == old(c.users) && c.invoices == old(c.invoices) && c.nextId == old(c.nextId)
    ensures c.prescriptions == old(c.prescriptions) && c.reports == old(c.reports) && c.events == old(c.events)
  {
    if id !in c.appointments {
      return Fail(NotFound("Appointment not found"));
    }
    if c.appointments[id].status == Completed {
      return Fail(Forbidden("Completed appointments cannot be removed"));
    }
    c.RemoveAppointment(id);
    c.Log(Some(caller), "Cancel Appointment", "Appointment Management");
    return Ok(());
  }

  /** `updateInvoiceStatus`: assigns `status` to that invoice alone, subject to the enum check on save. */
  method UpdateInvoiceStatus(c: Clinic, caller: Id, id: Id, status: Option<string>) returns (r: Outcome<Invoice>)
    requires c.Valid() && IsRole(c, caller, Superadmin)
    modifies c
    ensures c.Valid()
    ensures id !in old(c.invoices) ==> r == Fail(NotFound("Invoice not found")) && unchanged(c)
    ensures id in old(c.invoices) && AssignedStatus(status).Fail? ==> r == Fail(ValidationFailed("status")) && unchanged(c)
    ensures id in old(c.invoices) && AssignedStatus(status).Ok? ==>
      var inv := old(c.invoices[id]).(status := AssignedStatus(status).value);
      && r == Ok(inv)
      && c.invoices == old(c.invoices)[id := inv]
      && c.auditLog == old(c.auditLog) + [AuditEntry(Some(caller), "Update Invoice", "Financial Hub")]
    ensures c.users == old(c.users) && c.appointments == old(c.appointments) && c.nextId == old(c.nextId)
    ensures c.prescriptions == old(c.prescriptions) && c.reports == old(c.reports) && c.events == old(c.events)
  {
    if id !in c.invoices {
      return Fail(NotFound("Invoice not found"));
    }
    var st := AssignedStatus(status);
    if st.Fail? {
      return Fail(st.error);
    }
    c.SetInvoiceStatus(id, st.value);
    c.Log(Some(caller), "Update Invoice", "Financial Hub");
    return Ok(c.invoices[id]);
  }
}
