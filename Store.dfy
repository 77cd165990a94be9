/**
 * The database the controllers share: one collection per model, held as maps from
 * id to record, the audit log collection, and the stream of socket notifications.
 * The class's primitive writes carry what Mongoose adds around every write:
 * validation, the user pre-save hook and the unique indexes.
 */
module Store {
  import opened Wrappers
  import opened ObjectIds
  import opened Errors
  import opened UserModel
  import opened AppointmentModel
  import opened InvoiceModel
  import opened Records
  import Collections

  /** Every stored user passed the required validator and went through the pre-save hook. */
  predicate Stored(u: User) {
    MissingRequired(u).None? && Saved(u)
  }

  /** A record that passes the required validator is storable once the hook has run. */
  lemma PreSaveStored(u: User, id: Option<Id>)
    requires MissingRequired(u).None?
    ensures Stored(PreSave(u, id, 0))
  {
    var v := PreSave(u, id, 0);
    assert v.name == u.name && v.email == u.email && v.phone == u.phone;
  }

  /** The unique indexes on email, phone and displayId. */
  ghost predicate AccountsUnique(users: map<Id, User>) {
    forall a, b :: a in users && b in users && a != b ==>
      && users[a].email != users[b].email
      && users[a].phone != users[b].phone
      && users[a].displayId != users[b].displayId
  }

  /** The unique index on invoiceNumber. */
  ghost predicate InvoiceNumbersUnique(invoices: map<Id, Invoice>) {
    forall a, b :: a in invoices && b in invoices && a != b ==> invoices[a].number != invoices[b].number
  }

  /** The first unique user path on which `u` collides with a record of `others`, if any. */
  function Clash(others: map<Id, User>, u: User): (r: Option<string>)
    ensures r.None? <==> forall k :: k in others ==>
      others[k].email != u.email && others[k].phone != u.phone && others[k].displayId != u.displayId
  {
    if exists k :: k in others && others[k].email == u.email then Some("email")
    else if exists k :: k in others && others[k].phone == u.phone then Some("phone")
    else if exists k :: k in others && others[k].displayId == u.displayId then Some("displayId")
    else None
  }

  predicate NumberTaken(invoices: map<Id, Invoice>, number: string) {
    exists k :: k in invoices && invoices[k].number == number
  }

  /** With its email and phone free, a record can collide only on its displayId. */
  lemma ClashIsDisplayId(others: map<Id, User>, u: User)
    requires forall k :: k in others ==> others[k].email != u.email && others[k].phone != u.phone
    ensures Clash(others, u).Some? ==> Clash(others, u) == Some("displayId")
  {
  }

  /**
   * A new account without a display id whose hook-assigned id is already held by
   * a stored user is refused by the displayId index, even with a fresh email and phone.
   */
  lemma NamesakeClash(others: map<Id, User>, k: Id, u: User, id: Id)
    requires k in others && u.displayId == "" && u.name != ""
    requires others[k].displayId == DisplayId(u.name, Some(id), 0)
    requires forall j :: j in others ==> others[j].email != u.email && others[j].phone != u.phone
    ensures Clash(others, PreSave(u, Some(id), 0)) == Some("displayId")
  {
    var v := PreSave(u, Some(id), 0);
    assert v.email == u.email && v.phone == u.phone;
    ClashIsDisplayId(others, v);
  }

  /** Replacing a stored user by a record with the same unique fields cannot clash. */
  lemma SameKeysNoClash(users: map<Id, User>, id: Id, u: User)
    requires AccountsUnique(users) && id in users
    requires u.email == users[id].email && u.phone == users[id].phone && u.displayId == users[id].displayId
    ensures Clash(users - {id}, u).None?
  {
  }

  /** Writing a record that clashes with no other user keeps the indexes unique. */
  lemma WriteKeepsUnique(users: map<Id, User>, id: Id, v: User)
    requires AccountsUnique(users) && Clash(users - {id}, v).None?
    ensures AccountsUnique(users[id := v])
  {
    var m := users[id := v];
    forall a, b | a in m && b in m && a != b
      ensures m[a].email != m[b].email && m[a].phone != m[b].phone && m[a].displayId != m[b].displayId
    {
      if a == id {
        assert b in users - {id};
      } else if b == id {
        assert a in users - {id};
      }
    }
  }

  predicate IsRole(c: Clinic, caller: Id, role: Role)
    reads c
  {
    caller in c.users && c.users[caller].role == role
  }

  /** Whether some appointment, of any status, links the doctor and the patient. */
  predicate Linked(c: Clinic, doctor: Id, patient: Id)
    reads c
  {
    LinkedIn(c.appointments, doctor, patient)
  }

  predicate LinkedIn(appointments: map<Id, Appointment>, doctor: Id, patient: Id) {
    exists k :: k in appointments && appointments[k].doctor == doctor && appointments[k].patient == patient
  }

  /** `User.findOne({ email })`; the unique index makes the match the only one. */
  function FindByEmail(c: Clinic, email: string): (r: Option<Id>)
    reads c
    requires c.Valid()
    ensures r.None? <==> forall k :: k in c.users ==> c.users[k].email != email
    ensures r.Some? ==> r.value in c.users && c.users[r.value].email == email
    ensures r.Some? ==> forall k :: k in c.users && c.users[k].email == email ==> k == r.value
  {
    Collections.First(c.users, (k: Id, u: User) => u.email == email, 0, c.nextId)
  }

  /** `User.findOne({ phone })`; the unique index makes the match the only one. */
  function FindByPhone(c: Clinic, phone: string): (r: Option<Id>)
    reads c
    requires c.Valid()
    ensures r.None? <==> forall k :: k in c.users ==> c.users[k].phone != phone
    ensures r.Some? ==> r.value in c.users && c.users[r.value].phone == phone
    ensures r.Some? ==> forall k :: k in c.users && c.users[k].phone == phone ==> k == r.value
  {
    Collections.First(c.users, (k: Id, u: User) => u.phone == phone, 0, c.nextId)
  }

  /** A patient's records, each list in natural order. */
  datatype History = History(prescriptions: seq<Id>, reports: seq<Id>, appointments: seq<Id>, invoices: seq<Id>)

  /**
   * The four `find({ patient })` queries of a history view; with `completedOnly`
   * the appointments are further restricted to status Completed.
   */
  function PatientRecords(c: Clinic, patient: Id, completedOnly: bool): (h: History)
    reads c
    requires c.Valid()
    ensures forall k :: k in h.prescriptions <==> k in c.prescriptions && c.prescriptions[k].patient == patient
    ensures forall k :: k in h.reports <==> k in c.reports && c.reports[k].patient == patient
    ensures forall k :: k in h.appointments <==>
      k in c.appointments && c.appointments[k].patient == patient && (completedOnly ==> c.appointments[k].status == Completed)
    ensures forall k :: k in h.invoices <==> k in c.invoices && c.invoices[k].patient == patient
  {
    History(
      Collections.Select(c.prescriptions, (k: Id, p: Prescription) => p.patient == patient, 0, c.nextId),
      Collections.Select(c.reports, (k: Id, t: TestReport) => t.patient == patient, 0, c.nextId),
      Collections.Select(c.appointments, (k: Id, a: Appointment) =>
        a.patient == patient && (completedOnly ==> a.status == Completed), 0, c.nextId),
      Collections.Select(c.invoices, (k: Id, i: Invoice) => i.patient == patient, 0, c.nextId))
  }

  class Clinic {
    var users: map<Id, User>
    var appointments: map<Id, Appointment>
    var invoices: map<Id, Invoice>
    var prescriptions: map<Id, Prescription>
    var reports: map<Id, TestReport>
    var auditLog: seq<AuditEntry>
    /** The socket notifications emitted so far; the socket itself is not modelled. */
    ghost var events: seq<Event>
    /** The id the next created record receives; every id in use is below it. */
    var nextId: Id

    ghost predicate Valid()
      reads this
    {
      && (forall k :: k in users ==> k < nextId)
      && (forall k :: k in appointments ==> k < nextId)
      && (forall k :: k in invoices ==> k < nextId)
      && (forall k :: k in prescriptions ==> k < nextId)
      && (forall k :: k in reports ==> k < nextId)
      && (forall k :: k in users ==> Stored(users[k]))
      && AccountsUnique(users)
      && InvoiceNumbersUnique(invoices)
      && (forall k :: k in prescriptions ==> prescriptions[k].isImmutable)
    }

    constructor ()
      ensures Valid()
      ensures users == map[] && appointments == map[] && invoices == map[]
      ensures prescriptions == map[] && reports == map[]
      ensures auditLog == [] && events == []
    {
      users, appointments, invoices, prescriptions, reports := map[], map[], map[], map[], map[];
      auditLog, events, nextId := [], [], 0;
    }

    /**
     * `User.create(u)`: the required validator, then the pre-save hook with the new
     * id, then the unique indexes. Only a successful insert uses up an id.
     */
    method InsertUser(u: User) returns (r: Outcome<Id>)
      requires Valid()
      modifies this
      ensures Valid()
      ensures MissingRequired(u).Some? ==>
        r == Fail(ValidationFailed(MissingRequired(u).value)) && users == old(users) && nextId == old(nextId)
      ensures MissingRequired(u).None? ==>
        var v := PreSave(u, Some(old(nextId)), 0);
        if Clash(old(users), v).Some? then r == Fail(DuplicateKey(Clash(old(users), v).value))
        else r == Ok(old(nextId)) && users == old(users)[old(nextId) := v] && nextId == old(nextId) + 1
      ensures r.Ok? ==> r.value !in old(users)
      ensures r.Fail? ==> unchanged(this)
      ensures appointments == old(appointments) && invoices == old(invoices)
      ensures prescriptions == old(prescriptions) && reports == old(reports)
      ensures auditLog == old(auditLog) && events == old(events)
    {
      var missing := MissingRequired(u);
      if missing.Some? {
        return Fail(ValidationFailed(missing.value));
      }
      var id := nextId;
      var v := PreSave(u, Some(id), 0);
      PreSaveStored(u, Some(id));
      var clash := Clash(users, v);
      if clash.Some? {
        return Fail(DuplicateKey(clash.value));
      }
      assert users - {id} == users;
      WriteKeepsUnique(users, id, v);
      users := users[id := v];
      nextId := nextId + 1;
      r := Ok(id);
    }

    /**
     * A save that keeps a stored user's name and unique fields and supplies a
     * password: it passes validation and the indexes, so it always succeeds.
     */
    method UpdateUser(id: Id, u: User)
      requires Valid() && id in users
      requires u.name == users[id].name && u.email == users[id].email
      requires u.phone == users[id].phone && u.displayId == users[id].displayId
      requires u.password != Plain("")
      modifies this
      ensures Valid()
      ensures users == old(users)[id := PreSave(u, Some(id), 0)] && nextId == old(nextId)
      ensures appointments == old(appointments) && invoices == old(invoices)
      ensures prescriptions == old(prescriptions) && reports == old(reports)
      ensures auditLog == old(auditLog) && events == old(events)
    {
      SameKeysNoClash(users, id, PreSave(u, Some(id), 0));
      var err := SaveUser(id, u);
    }

    /** `user.save()` on a stored user: validation, the hook, and the unique indexes against the others. */
    method SaveUser(id: Id, u: User) returns (err: Option<Error>)
      requires Valid() && id in users
      modifies this
      ensures Valid()
      ensures MissingRequired(u).Some? ==> err == Some(ValidationFailed(MissingRequired(u).value))
      ensures MissingRequired(u).None? ==>
        var v := PreSave(u, Some(id), 0);
        if Clash(old(users) - {id}, v).Some? then err == Some(DuplicateKey(Clash(old(users) - {id}, v).value))
        else err.None? && users == old(users)[id := v]
      ensures err.Some? ==> unchanged(this)
      ensures nextId == old(nextId)
      ensures appointments == old(appointments) && invoices == old(invoices)
      ensures prescriptions == old(prescriptions) && reports == old(reports)
      ensures auditLog == old(auditLog) && events == old(events)
    {
      var missing := MissingRequired(u);
      if missing.Some? {
        return Some(ValidationFailed(missing.value));
      }
      var v := PreSave(u, Some(id), 0);
      PreSaveStored(u, Some(id));
      var clash := Clash(users - {id}, v);
      if clash.Some? {
        return Some(DuplicateKey(clash.value));
      }
      WriteKeepsUnique(users, id, v);
      users := users[id := v];
      err := None;
    }

    method InsertAppointment(a: Appointment) returns (id: Id)
      requires Valid()
      modifies this
      ensures Valid()
      ensures id == old(nextId) && id !in old(appointments) && nextId == old(nextId) + 1
      ensures appointments == old(appointments)[id := a]
      ensures users == old(users) && invoices == old(invoices)
      ensures prescriptions == old(prescriptions) && reports == old(reports)
      ensures auditLog == old(auditLog) && events == old(events)
    {
      id := nextId;
      appointments := appointments[id := a];
      nextId := nextId + 1;
    }

    /** `appointment.save()` after field assignments already checked against the schema. */
    method SaveAppointment(id: Id, a: Appointment)
      requires Valid() && id in appointments
      modifies this
      ensures Valid()
      ensures appointments == old(appointments)[id := a] && nextId == old(nextId)
      ensures users == old(users) && invoices == old(invoices)
      ensures prescriptions == old(prescriptions) && reports == old(reports)
      ensures auditLog == old(auditLog) && events == old(events)
    {
      appointments := appointments[id := a];
    }

    /** `appointment.deleteOne()`. */
    method RemoveAppointment(id: Id)
      requires Valid()
      modifies this
      ensures Valid()
      ensures appointments == old(appointments) - {id} && nextId == old(nextId)
      ensures users == old(users) && invoices == old(invoices)
      ensures prescriptions == old(prescriptions) && reports == old(reports)
      ensures auditLog == old(auditLog) && events == old(events)
    {
      appointments := appointments - {id};
    }

    /** `Invoice.create(inv)`: the unique index on invoiceNumber may reject it. */
    method InsertInvoice(inv: Invoice) returns (r: Outcome<Id>)
      requires Valid()
      modifies this
      ensures Valid()
      ensures NumberTaken(old(invoices), inv.number) ==> r == Fail(DuplicateKey("invoiceNumber"))
      ensures !NumberTaken(old(invoices), inv.number) ==>
        r == Ok(old(nextId)) && invoices == old(invoices)[old(nextId) := inv] && nextId == old(nextId) + 1
      ensures r.Ok? ==> r.value !in old(invoices)
      ensures r.Fail? ==> unchanged(this)
      ensures users == old(users) && appointments == old(appointments)
      ensures prescriptions == old(prescriptions) && reports == old(reports)
      ensures auditLog == old(auditLog) && events == old(events)
    {
      if NumberTaken(invoices, inv.number) {
        return Fail(DuplicateKey("invoiceNumber"));
      }
      var id := nextId;
      invoices := invoices[id := inv];
      nextId := nextId + 1;
      r := Ok(id);
    }

    /** `invoice.status = status; invoice.save()`. */
    method SetInvoiceStatus(id: Id, status: Option<InvoiceStatus>)
      requires Valid() && id in invoices
      modifies this
      ensures Valid()
      ensures invoices == old(invoices)[id := old(invoices)[id].(status := status)] && nextId == old(nextId)
      ensures users == old(users) && appointments == old(appointments)
      ensures prescriptions == old(prescriptions) && reports == old(reports)
      ensures auditLog == old(auditLog) && events == old(events)
    {
      invoices := invoices[id := invoices[id].(status := status)];
    }

    /** `Prescription.create(p)`. Prescriptions are only ever inserted, never written again. */
    method InsertPrescription(p: Prescription) returns (id: Id)
      requires Valid() && p.isImmutable
      modifies this
      ensures Valid()
      ensures id == old(nextId) && id !in old(prescriptions) && nextId == old(nextId) + 1
      ensures prescriptions == old(prescriptions)[id := p]
      ensures users == old(users) && appointments == old(appointments)
      ensures invoices == old(invoices) && reports == old(reports)
      ensures auditLog == old(auditLog) && events == old(events)
    {
      id := nextId;
      prescriptions := prescriptions[id := p];
      nextId := nextId + 1;
    }

    /** `TestReport.create(t)`. */
    method InsertReport(t: TestReport) returns (id: Id)
      requires Valid()
      modifies this
      ensures Valid()
      ensures id == old(nextId) && id !in old(reports) && nextId == old(nextId) + 1
      ensures reports == old(reports)[id := t]
      ensures users == old(users) && appointments == old(appointments)
      ensures invoices == old(invoices) && prescriptions == old(prescriptions)
      ensures auditLog == old(auditLog) && events == old(events)
    {
      id := nextId;
      reports := reports[id := t];
      nextId := nextId + 1;
    }

    /** `logAction({ user, action, resource, ... })`. */
    method Log(user: Option<Id>, action: string, resource: string)
      requires Valid()
      modifies this
      ensures Valid()
      ensures auditLog == old(auditLog) + [AuditEntry(user, action, resource)]
      ensures users == old(users) && appointments == old(appointments) && invoices == old(invoices)
      ensures prescriptions == old(prescriptions) && reports == old(reports)
      ensures events == old(events) && nextId == old(nextId)
    {
      auditLog := auditLog + [AuditEntry(user, action, resource)];
    }

    /**
     * `io.getIO().emit('notification', e)`: `socketUp` says whether the socket was
     * initialised; when it was not, `getIO` throws and nothing is emitted.
     */
    method Emit(socketUp: bool, e: Event) returns (emitted: bool)
      requires Valid()
      modifies this
      ensures Valid()
      ensures emitted == socketUp
      ensures events == if socketUp then old(events) + [e] else old(events)
      ensures users == old(users) && appointments == old(appointments) && invoices == old(invoices)
      ensures prescriptions == old(prescriptions) && reports == old(reports)
      ensures auditLog == old(auditLog) && nextId == old(nextId)
    {
      if socketUp {
        events := events + [e];
      }
      emitted := socketUp;
    }
  }
}
