/**
 * Handlers composed into the clinic's main flow: an admin assigns an appointment,
 * its doctor finalises the consultation, and the admin can then no longer remove
 * the appointment.
 */
module Scenarios {
  import opened Wrappers
  import opened Errors
  import opened UserModel
  import opened AppointmentModel
  import opened InvoiceModel
  import opened Records
  import opened Store
  import opened ObjectIds
  import AdminController
  import DoctorController

  method ConsultationFlow(c: Clinic, admin: Id, doctor: Id, patient: Id, now: nat, draw: nat)
    returns (assignment: Outcome<Id>, finalised: Outcome<Id>, removal: Outcome<()>)
    requires c.Valid() && IsRole(c, admin, Superadmin) && IsRole(c, doctor, Doctor) && draw < 1000
    requires !NumberTaken(c.invoices, InvoiceNumber(now, draw))
    modifies c
    ensures c.Valid()
    ensures assignment == Ok(old(c.nextId))
    ensures c.events == old(c.events) + [Event("ASSIGN_APPOINTMENT", Some(doctor), assignment.value)]
    ensures finalised.Ok?
    ensures assignment.value in c.appointments && c.appointments[assignment.value].status == Completed
    ensures c.appointments[assignment.value].patient == patient && c.appointments[assignment.value].doctor == doctor
    ensures finalised.value in c.prescriptions && c.prescriptions[finalised.value].isImmutable
    ensures finalised.value + 1 in c.invoices
    ensures var inv := c.invoices[finalised.value + 1];
      inv.appointment == assignment.value && inv.patient == patient && inv.totalAmount == 750 && inv.status == Some(Unpaid) && inv.items == [LineItem("Consultation Fee", 750)]
    ensures removal == Fail(Forbidden("Completed appointments cannot be removed"))
  {
    ghost var booked := Create(Some(patient), Some(doctor), None, None, "Checkup", Some(Accepted), now);
    assert booked.Ok? && booked.value.doctor == doctor && booked.value.patient == patient;
    assignment := AdminController.AssignAppointment(c, admin, Some(patient), Some(doctor), None, None, "Checkup", now, true);
    var id := assignment.value;
    assert c.appointments == old(c.appointments)[id := booked.value] && c.invoices == old(c.invoices);
    assert StatusOrUnpaid(None) == Ok(Unpaid) && FinalFee(Some(750)) == 750;
    ghost var done := Finalised(booked.value, "Flu", "Rest", None);
    finalised := DoctorController.CreatePrescription(c, doctor, Some(patient), Some(id), [], "", "Flu", "Rest",
                                                     None, Some(750), None, now, draw);
    assert c.appointments == old(c.appointments)[id := booked.value][id := done];
    assert c.invoices == old(c.invoices)[finalised.value + 1 := ConsultationInvoice(InvoiceNumber(now, draw), patient, id, 750, Unpaid)];
    removal := AdminController.DeleteAppointment(c, admin, id);
  }

  /**
   * Finalising the same consultation twice is not idempotent: each call inserts
   * its own prescription and its own invoice for the appointment.
   */
  method FinaliseTwice(c: Clinic, doctor: Id, patient: Id, appt: Id, now: nat, d1: nat, d2: nat)
    returns (first: Outcome<Id>, second: Outcome<Id>)
    requires c.Valid() && IsRole(c, doctor, Doctor) && d1 < 1000 && d2 < 1000 && d1 != d2
    requires !NumberTaken(c.invoices, InvoiceNumber(now, d1)) && !NumberTaken(c.invoices, InvoiceNumber(now, d2))
    modifies c
    ensures c.Valid()
    ensures first.Ok? && second.Ok? && first.value != second.value
    ensures first.value + 1 in c.invoices && c.invoices[first.value + 1].appointment == appt
    ensures second.value + 1 in c.invoices && c.invoices[second.value + 1].appointment == appt
    ensures first.value + 1 !in old(c.invoices) && second.value + 1 !in old(c.invoices)
  {
    first := FinaliseWithDefaults(c, doctor, patient, appt, now, d1);
    InvoiceNumberCollision(now, d1, now, d2);
    second := FinaliseWithDefaults(c, doctor, patient, appt, now, d2);
  }

  /** createPrescription with no fee and no payment status, for an invoice number not yet taken. */
  method FinaliseWithDefaults(c: Clinic, doctor: Id, patient: Id, appt: Id, now: nat, draw: nat)
    returns (r: Outcome<Id>)
    requires c.Valid() && IsRole(c, doctor, Doctor) && draw < 1000
    requires !NumberTaken(c.invoices, InvoiceNumber(now, draw))
    modifies c
    ensures c.Valid() && IsRole(c, doctor, Doctor)
    ensures r == Ok(old(c.nextId)) && r.value + 1 < c.nextId
    ensures r.value + 1 !in old(c.invoices) && r.value + 1 in c.invoices && c.invoices[r.value + 1].appointment == appt
    ensures forall k :: k in old(c.invoices) ==> k in c.invoices && c.invoices[k] == old(c.invoices)[k]
    ensures forall n :: NumberTaken(c.invoices, n) <==> NumberTaken(old(c.invoices), n) || n == InvoiceNumber(now, draw)
  {
    ghost var bill := ConsultationInvoice(InvoiceNumber(now, draw), patient, appt, DefaultFee, Unpaid);
    assert StatusOrUnpaid(None) == Ok(Unpaid) && FinalFee(None) == DefaultFee;
    r := DoctorController.CreatePrescription(c, doctor, Some(patient), Some(appt), [], "", "", "",
                                             None, None, None, now, draw);
    assert c.invoices == old(c.invoices)[r.value + 1 := bill];
    assert r.value + 1 in c.invoices;
  }

  /** Archiving an active account and restoring it gives back the user collection exactly as it was. */
  method ArchiveAndRestore(c: Clinic, admin: Id, id: Id) returns (deleted: Outcome<()>, restored: Outcome<()>)
    requires c.Valid() && IsRole(c, admin, Superadmin)
    requires id in c.users && c.users[id].role != Superadmin && !c.users[id].isDeleted
    modifies c
    ensures c.Valid()
    ensures deleted == Ok(()) && restored == Ok(())
    ensures c.users == old(c.users)
  {
    ghost var before, u := c.users, c.users[id];
    assert u.(isDeleted := true).(isDeleted := false) == u;
    deleted := AdminController.DeleteUser(c, admin, id);
    restored := AdminController.RestoreUser(c, admin, id);
    RewriteRestores(before, id, u.(isDeleted := true));
  }

  /** Overwriting an entry and then writing its old value back leaves the map as it was. */
  lemma RewriteRestores(m: map<Id, User>, k: Id, a: User)
    requires k in m
    ensures m[k := a][k := m[k]] == m
  {
    assert m[k := a][k := m[k]].Keys == m.Keys;
  }
}
