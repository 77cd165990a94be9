/**
 * The doctor's handlers. Every handler is reached only through routes that admit
 * the `doctor` role, which is each member's precondition `IsRole(c, caller, Doctor)`.
 * Handlers that write the store are methods on the clinic; the list and history
 * views are functions that read it.
 */
module DoctorController {
  import opened Wrappers
  import opened Text
  import opened ObjectIds
  import opened Errors
  import opened UserModel
  import opened AppointmentModel
  import opened InvoiceModel
  import opened Records
  import opened Collections
  import opened Store

  // ---------------------------------------------------------------------------
  // getDoctorAppointments

  /** `Invoice.findOne({ appointment })`: the first invoice billing the appointment. */
  function InvoiceFor(c: Clinic, appointment: Id): (r: Option<Id>)
    reads c
    requires c.Valid()
    ensures r.Some? ==> r.value in c.invoices && c.invoices[r.value].appointment == appointment
    ensures r.Some? ==> forall k :: k in c.invoices && k < r.value ==> c.invoices[k].appointment != appointment
    ensures r.None? <==> forall k :: k in c.invoices ==> c.invoices[k].appointment != appointment
  {
    First(c.invoices, (k: Id, inv: Invoice) => inv.appointment == appointment, 0, c.nextId)
  }

  /**
   * The payment status shown beside an appointment: its first invoice's status,
   * else Unpaid. An invoice whose status was unset is loaded with the schema
   * default, so it reads as Unpaid too.
   */
  function PaymentStatus(c: Clinic, appointment: Id): (s: InvoiceStatus)
    reads c
    requires c.Valid()
    ensures (forall k :: k in c.invoices ==> c.invoices[k].appointment != appointment) ==> s == Unpaid
    ensures forall k :: (k in c.invoices && c.invoices[k].appointment == appointment &&
      (forall j :: j in c.invoices && j < k ==> c.invoices[j].appointment != appointment)) ==>
        s == c.invoices[k].status.GetOr(Unpaid)
  {
    match InvoiceFor(c, appointment)
    case None => Unpaid
    case Some(k) => c.invoices[k].status.GetOr(Unpaid)
  }

  datatype AppointmentRow = AppointmentRow(appointment: Id, paymentStatus: InvoiceStatus)

  function AppointmentRows(c: Clinic, ids: seq<Id>): (rows: seq<AppointmentRow>)
    reads c
    requires c.Valid()
    ensures |rows| == |ids|
    ensures forall i :: 0 <= i < |ids| ==> rows[i].appointment == ids[i]
    ensures forall i :: 0 <= i < |ids| ==> rows[i].paymentStatus == PaymentStatus(c, ids[i])
  {
    if ids == [] then [] else [AppointmentRow(ids[0], PaymentStatus(c, ids[0]))] + AppointmentRows(c, ids[1..])
  }

  /** The caller's appointments in natural order, each with its payment status. */
  function DoctorAppointments(c: Clinic, caller: Id): (rows: seq<AppointmentRow>)
    reads c
    requires c.Valid() && IsRole(c, caller, Doctor)
    ensures forall i :: 0 <= i < |rows| ==>
      rows[i].appointment in c.appointments && c.appointments[rows[i].appointment].doctor == caller &&
      rows[i].paymentStatus == PaymentStatus(c, rows[i].appointment)
    ensures forall k :: k in c.appointments && c.appointments[k].doctor == caller ==>
      exists i :: 0 <= i < |rows| && rows[i].appointment == k
    ensures forall i, j :: 0 <= i < j < |rows| ==> rows[i].appointment < rows[j].appointment
  {
    var ids := Select(c.appointments, (k: Id, a: Appointment) => a.doctor == caller, 0, c.nextId);
    var rows := AppointmentRows(c, ids);
    RowsCoverIds(ids, rows);
    assert forall i :: 0 <= i < |rows| ==> rows[i].appointment == ids[i] && ids[i] in ids;
    rows
  }

  lemma RowsCoverIds(ids: seq<Id>, rows: seq<AppointmentRow>)
    requires |rows| == |ids| && forall i :: 0 <= i < |ids| ==> rows[i].appointment == ids[i]
    ensures forall k :: k in ids ==> exists i :: 0 <= i < |rows| && rows[i].appointment == k
  {
    forall k | k in ids ensures exists i :: 0 <= i < |rows| && rows[i].appointment == k {
      var i :| 0 <= i < |ids| && ids[i] == k;
      assert rows[i].appointment == k;
    }
  }

  // ---------------------------------------------------------------------------
  // updateAppointmentStatus

  /**
   * Writes `status || appointment.status` and, when a truthy one is given, the
   * date (`if (date)`: a date of 0 keeps the stored one). Any doctor may
   * update any appointment. The broadcast is wrapped so that a socket
   * that is down does not change the outcome.
   */
  method UpdateAppointmentStatus(c: Clinic, caller: Id, id: Id, status: Option<string>, date: Option<int>, socketUp: bool)
    returns (r: Outcome<Appointment>)
    requires c.Valid() && IsRole(c, caller, Doctor)
    modifies c
    ensures c.Valid()
    ensures id !in old(c.appointments) ==> r == Fail(NotFound("Appointment not found")) && unchanged(c)
    ensures id in old(c.appointments) && RequestedStatus(old(c.appointments[id]).status, status).Fail? ==>
      r == Fail(ValidationFailed("status")) && unchanged(c)
    ensures id in old(c.appointments) && RequestedStatus(old(c.appointments[id]).status, status).Ok? ==>
      var a := old(c.appointments[id]);
      var b := a.(status := RequestedStatus(a.status, status).value, date := if date.Some? && date.value != 0 then date.value else a.date);
      && r == Ok(b)
      && c.appointments == old(c.appointments)[id := b]
      && c.auditLog == old(c.auditLog) + [AuditEntry(Some(caller), "Update Appointment", "Clinical Queue")]
      && c.events == old(c.events) + (if socketUp then [Event("APPOINTMENT_UPDATE", None, id)] else [])
      && c.users == old(c.users) && c.invoices == old(c.invoices)
      && c.prescriptions == old(c.prescriptions) && c.reports == old(c.reports)
  {
    if id !in c.appointments {
      return Fail(NotFound("Appointment not found"));
    }
    var a := c.appointments[id];
    var next := RequestedStatus(a.status, status);
    if next.Fail? {
      return Fail(next.error);
    }
    var b := a.(status := next.value, date := if date.Some? && date.value != 0 then date.value else a.date);
    c.SaveAppointment(id, b);
    c.Log(Some(caller), "Update Appointment", "Clinical Queue");
    var emitted := c.Emit(socketUp, Event("APPOINTMENT_UPDATE", None, id));
    return Ok(b);
  }

  // ---------------------------------------------------------------------------
  // createPrescription

  /**
   * Finalises a consultation: inserts the immutable prescription, completes the
   * appointment if it exists, then issues the consultation invoice and logs.
   * The writes are not transactional, so a later failure leaves the earlier
   * records in place.
   */
  method CreatePrescription(c: Clinic, caller: Id, patientId: Option<Id>, appointmentId: Option<Id>,
                            medications: seq<Medication>, notes: string, diagnosis: string, clinicalNotes: string,
                            vitals: Option<Vitals>, consultationFee: Option<int>, paymentStatus: Option<string>,
                            now: nat, draw: nat)
    returns (r: Outcome<Id>)
    requires c.Valid() && IsRole(c, caller, Doctor) && draw < 1000
    modifies c
    ensures c.Valid()
    ensures patientId.None? ==> r == Fail(ValidationFailed("patient")) && unchanged(c)
    ensures patientId.Some? && appointmentId.None? ==> r == Fail(ValidationFailed("appointment")) && unchanged(c)
    ensures patientId.Some? && appointmentId.Some? ==>
      var pid, appt := old(c.nextId), appointmentId.value;
      var st := StatusOrUnpaid(paymentStatus);
      var number := InvoiceNumber(now, draw);
      && c.prescriptions == old(c.prescriptions)[pid := Prescription(caller, patientId.value, appt, medications, notes, true)]
      && c.appointments == (if appt in old(c.appointments)
                            then old(c.appointments)[appt := Finalised(old(c.appointments)[appt], diagnosis, clinicalNotes, vitals)]
                            else old(c.appointments))
      && c.users == old(c.users) && c.reports == old(c.reports) && c.events == old(c.events)
      && (if st.Fail? then
            r == Fail(ValidationFailed("status")) && c.invoices == old(c.invoices) && c.auditLog == old(c.auditLog)
          else if NumberTaken(old(c.invoices), number) then
            r == Fail(DuplicateKey("invoiceNumber")) && c.invoices == old(c.invoices) && c.auditLog == old(c.auditLog)
          else
            && r == Ok(pid)
            && c.invoices == old(c.invoices)[pid + 1 := ConsultationInvoice(number, patientId.value, appt, FinalFee(consultationFee), st.value)]
            && c.auditLog == old(c.auditLog) + [AuditEntry(Some(caller), "Create Prescription", "Clinical Consultation")])
  {
    if patientId.None? {
      return Fail(ValidationFailed("patient"));
    }
    if appointmentId.None? {
      return Fail(ValidationFailed("appointment"));
    }
    r := Finalise(c, caller, patientId.value, appointmentId.value, medications, notes, diagnosis, clinicalNotes,
                  vitals, consultationFee, paymentStatus, now, draw);
  }

  /** createPrescription once both references are present. */
  method Finalise(c: Clinic, caller: Id, patient: Id, appt: Id,
                  medications: seq<Medication>, notes: string, diagnosis: string, clinicalNotes: string,
                  vitals: Option<Vitals>, consultationFee: Option<int>, paymentStatus: Option<string>,
                  now: nat, draw: nat)
    returns (r: Outcome<Id>)
    requires c.Valid() && draw < 1000
    modifies c
    ensures c.Valid()
    ensures var pid := old(c.nextId);
      var st := StatusOrUnpaid(paymentStatus);
      var number := InvoiceNumber(now, draw);
      && c.prescriptions == old(c.prescriptions)[pid := Prescription(caller, patient, appt, medications, notes, true)]
      && c.appointments == (if appt in old(c.appointments)
                            then old(c.appointments)[appt := Finalised(old(c.appointments)[appt], diagnosis, clinicalNotes, vitals)]
                            else old(c.appointments))
      && c.users == old(c.users) && c.reports == old(c.reports) && c.events == old(c.events)
      && (if st.Fail? then
            r == Fail(ValidationFailed("status")) && c.invoices == old(c.invoices) && c.auditLog == old(c.auditLog)
          else if NumberTaken(old(c.invoices), number) then
            r == Fail(DuplicateKey("invoiceNumber")) && c.invoices == old(c.invoices) && c.auditLog == old(c.auditLog)
          else
            && r == Ok(pid)
            && c.invoices == old(c.invoices)[pid + 1 := ConsultationInvoice(number, patient, appt, FinalFee(consultationFee), st.value)]
            && c.auditLog == old(c.auditLog) + [AuditEntry(Some(caller), "Create Prescription", "Clinical Consultation")])
  {
    var pid := c.InsertPrescription(Prescription(caller, patient, appt, medications, notes, true));
    if appt in c.appointments {
      c.SaveAppointment(appt, Finalised(c.appointments[appt], diagnosis, clinicalNotes, vitals));
    }
    assert c.invoices == old(c.invoices) && c.auditLog == old(c.auditLog) && c.nextId == pid + 1;
    var billed := BillConsultation(c, caller, patient, appt, consultationFee, paymentStatus, now, draw);
    r := if billed.Ok? then Ok(pid) else billed;
  }

  /** The invoicing and logging that end createPrescription. */
  method BillConsultation(c: Clinic, caller: Id, patient: Id, appt: Id, consultationFee: Option<int>,
                          paymentStatus: Option<string>, now: nat, draw: nat)
    returns (r: Outcome<Id>)
    requires c.Valid() && draw < 1000
    modifies c
    ensures c.Valid()
    ensures c.users == old(c.users) && c.appointments == old(c.appointments) && c.prescriptions == old(c.prescriptions)
    ensures c.reports == old(c.reports) && c.events == old(c.events)
    ensures var st := StatusOrUnpaid(paymentStatus);
      var number := InvoiceNumber(now, draw);
      if st.Fail? then
        r == Fail(ValidationFailed("status")) && c.invoices == old(c.invoices) && c.auditLog == old(c.auditLog)
      else if NumberTaken(old(c.invoices), number) then
        r == Fail(DuplicateKey("invoiceNumber")) && c.invoices == old(c.invoices) && c.auditLog == old(c.auditLog)
      else
        && r == Ok(old(c.nextId))
        && c.invoices == old(c.invoices)[old(c.nextId) := ConsultationInvoice(number, patient, appt, FinalFee(consultationFee), st.value)]
        && c.auditLog == old(c.auditLog) + [AuditEntry(Some(caller), "Create Prescription", "Clinical Consultation")]
  {
    var st := StatusOrUnpaid(paymentStatus);
    if st.Fail? {
      return Fail(st.error);
    }
    r := c.InsertInvoice(ConsultationInvoice(InvoiceNumber(now, draw), patient, appt, FinalFee(consultationFee), st.value));
    if r.Ok? {
      c.Log(Some(caller), "Create Prescription", "Clinical Consultation");
    }
  }

  // ---------------------------------------------------------------------------
  // getPrescriptionByAppointment

  datatype ClinicalDetails = ClinicalDetails(diagnosis: string, clinicalNotes: string, vitals: Option<Vitals>)

  datatype PrescriptionView = PrescriptionView(prescription: Option<Id>, details: ClinicalDetails)

  /** Only the appointment's own doctor may read its prescription and clinical details. */
  function PrescriptionByAppointment(c: Clinic, caller: Id, id: Id): (r: Outcome<PrescriptionView>)
    reads c
    requires c.Valid() && IsRole(c, caller, Doctor)
    ensures id !in c.appointments ==> r == Fail(NotFound("Appointment not found"))
    ensures id in c.appointments && c.appointments[id].doctor != caller ==>
      r == Fail(Forbidden("Unauthorized access to this prescription"))
    ensures id in c.appointments && c.appointments[id].doctor == caller ==>
      && r.Ok?
      && r.value.details == ClinicalDetails(c.appointments[id].diagnosis, c.appointments[id].clinicalNotes, c.appointments[id].vitals)
      && (r.value.prescription.None? <==> forall k :: k in c.prescriptions ==> c.prescriptions[k].appointment != id)
      && (r.value.prescription.Some? ==>
            && r.value.prescription.value in c.prescriptions
            && c.prescriptions[r.value.prescription.value].appointment == id
            && forall k :: k in c.prescriptions && k < r.value.prescription.value ==> c.prescriptions[k].appointment != id)
  {
    if id !in c.appointments then Fail(NotFound("Appointment not found"))
    else
      var a := c.appointments[id];
      if a.doctor != caller then Fail(Forbidden("Unauthorized access to this prescription"))
      else
        var p := First(c.prescriptions, (k: Id, p: Prescription) => p.appointment == id, 0, c.nextId);
        Ok(PrescriptionView(p, ClinicalDetails(a.diagnosis, a.clinicalNotes, a.vitals)))
  }

  // ---------------------------------------------------------------------------
  // searchMedications

  const DrugDatabase: seq<string> := [
    "Paracetamol 500mg", "Amoxicillin 250mg", "Ibuprofen 400mg",
    "Metformin 500mg", "Atorvastatin 10mg", "Amlodipine 5mg",
    "Omeprazole 20mg", "Losartan 50mg", "Albuterol Inhaler",
    "Azithromycin 250mg", "Gabapentin 300mg", "Lisinopril 10mg"
  ]

  /** The entries of `drugs`, in their order, whose lower-cased text contains `needle`. */
  function FilterContaining(drugs: seq<string>, needle: string): (r: seq<string>)
    ensures forall d :: d in r <==> d in drugs && Contains(ToLower(d), needle)
    ensures |r| <= |drugs|
    ensures (forall i :: 0 <= i < |drugs| ==> Contains(ToLower(drugs[i]), needle)) ==> r == drugs
    ensures IsSubsequence(r, drugs)
    ensures forall d :: multiset(r)[d] == if Contains(ToLower(d), needle) then multiset(drugs)[d] else 0
  {
    var r := Filter(drugs, d => Contains(ToLower(d), needle));
    CountsGiveMembership(r, drugs, d => Contains(ToLower(d), needle));
    r
  }

  /** `drugDatabase.filter(d => d.toLowerCase().includes(query?.toLowerCase() || ''))`. */
  function SearchMedications(query: Option<string>): (r: seq<string>)
    ensures forall d :: d in r <==> d in DrugDatabase && Contains(ToLower(d), ToLower(query.GetOr("")))
    ensures IsSubsequence(r, DrugDatabase)
    ensures forall d :: multiset(r)[d] == if Contains(ToLower(d), ToLower(query.GetOr(""))) then multiset(DrugDatabase)[d] else 0
  {
    FilterContaining(DrugDatabase, ToLower(query.GetOr("")))
  }

  /** The empty string occurs in every string. */
  lemma ContainsEmpty(s: string)
    ensures Contains(s, "")
  {
    assert OccursAt(s, "", 0);
  }

  /** A missing or empty query lists the whole database, all twelve entries. */
  lemma EmptyQueryListsAll(query: Option<string>)
    requires query.None? || query.value == ""
    ensures SearchMedications(query) == DrugDatabase
    ensures |SearchMedications(query)| == 12
  {
    assert ToLower(query.GetOr("")) == "";
    forall i | 0 <= i < |DrugDatabase| ensures Contains(ToLower(DrugDatabase[i]), "") {
      ContainsEmpty(ToLower(DrugDatabase[i]));
    }
  }

  // ---------------------------------------------------------------------------
  // getDoctorPatients

  /** The latest date among the appointments linking the doctor and the patient. */
  function LastVisit(c: Clinic, doctor: Id, patient: Id): (d: Option<int>)
    reads c
    requires c.Valid()
    ensures d.None? <==> !Linked(c, doctor, patient)
    ensures d.Some? ==> exists k :: (k in c.appointments && c.appointments[k].doctor == doctor &&
      c.appointments[k].patient == patient && c.appointments[k].date == d.value)
    ensures d.Some? ==> forall k :: (k in c.appointments && c.appointments[k].doctor == doctor &&
      c.appointments[k].patient == patient) ==> c.appointments[k].date <= d.value
  {
    var appts := c.appointments;
    var s := Select(appts, (k: Id, a: Appointment) => a.doctor == doctor && a.patient == patient, 0, c.nextId);
    var key := (k: Id) => if k in appts then appts[k].date else 0;
    var sorted := SortDesc(s, key);
    if sorted == [] then
      assert multiset(s) == multiset{};
      assert forall k :: k in appts && appts[k].doctor == doctor && appts[k].patient == patient ==> k in s;
      None
    else
      assert sorted[0] in multiset(s);
      assert forall k :: k in appts && appts[k].doctor == doctor && appts[k].patient == patient ==>
        appts[k].date <= appts[sorted[0]].date by {
        forall k | k in appts && appts[k].doctor == doctor && appts[k].patient == patient
          ensures appts[k].date <= appts[sorted[0]].date
        {
          assert k in multiset(sorted);
          var i :| 0 <= i < |sorted| && sorted[i] == k;
          if i > 0 {
            assert key(sorted[0]) >= key(sorted[i]);
          }
        }
      }
      Some(appts[sorted[0]].date)
  }

  datatype PatientRow = PatientRow(patient: Id, lastVisit: Option<int>)

  function PatientRows(c: Clinic, doctor: Id, ids: seq<Id>): (rows: seq<PatientRow>)
    reads c
    requires c.Valid()
    ensures |rows| == |ids|
    ensures forall i :: 0 <= i < |ids| ==> rows[i].patient == ids[i]
    ensures forall i :: 0 <= i < |ids| ==> rows[i].lastVisit == LastVisit(c, doctor, ids[i])
    ensures (forall i :: 0 <= i < |ids| ==> Linked(c, doctor, ids[i])) ==> forall i :: 0 <= i < |ids| ==> rows[i].lastVisit.Some?
  {
    if ids == [] then [] else [PatientRow(ids[0], LastVisit(c, doctor, ids[0]))] + PatientRows(c, doctor, ids[1..])
  }

  /** `distinct('patient')` followed by `User.find({ _id: { $in } })`, in natural order. */
  function LinkedUsers(users: map<Id, User>, appointments: map<Id, Appointment>, doctor: Id, bound: nat): (ids: seq<Id>)
    ensures forall k :: k in ids <==> k < bound && k in users && LinkedIn(appointments, doctor, k)
    ensures forall i, j :: 0 <= i < j < |ids| ==> ids[i] < ids[j]
  {
    Select(users, (k: Id, u: User) => LinkedIn(appointments, doctor, k), 0, bound)
  }

  /**
   * The users the caller has an appointment with, each once, in natural order,
   * with the date of the latest such appointment.
   */
  function DoctorPatients(c: Clinic, caller: Id): (rows: seq<PatientRow>)
    reads c
    requires c.Valid() && IsRole(c, caller, Doctor)
    ensures forall i :: 0 <= i < |rows| ==> rows[i].patient in c.users && Linked(c, caller, rows[i].patient)
    ensures forall i :: 0 <= i < |rows| ==> rows[i].lastVisit == LastVisit(c, caller, rows[i].patient)
    ensures forall i :: 0 <= i < |rows| ==> rows[i].lastVisit.Some?
    ensures forall k :: k in c.users && Linked(c, caller, k) ==> exists i :: 0 <= i < |rows| && rows[i].patient == k
    ensures forall i, j :: 0 <= i < j < |rows| ==> rows[i].patient < rows[j].patient
  {
    var ids := LinkedUsers(c.users, c.appointments, caller, c.nextId);
    var rows := PatientRows(c, caller, ids);
    RowsCoverLinked(c, caller, ids, rows);
    rows
  }

  lemma RowsCoverLinked(c: Clinic, caller: Id, ids: seq<Id>, rows: seq<PatientRow>)
    requires c.Valid()
    requires forall k :: k in ids <==> k < c.nextId && k in c.users && LinkedIn(c.appointments, caller, k)
    requires |rows| == |ids| && forall i :: 0 <= i < |ids| ==> rows[i].patient == ids[i]
    ensures forall i :: 0 <= i < |ids| ==> Linked(c, caller, ids[i])
    ensures forall i :: 0 <= i < |rows| ==> rows[i].patient in c.users && Linked(c, caller, rows[i].patient)
    ensures forall k :: k in c.users && Linked(c, caller, k) ==> exists i :: 0 <= i < |rows| && rows[i].patient == k
  {
    forall i | 0 <= i < |ids| ensures ids[i] in c.users && Linked(c, caller, ids[i]) {
      assert ids[i] in ids;
    }
    forall k | k in c.users && Linked(c, caller, k) ensures exists i :: 0 <= i < |rows| && rows[i].patient == k {
      assert k in ids;
      var i :| 0 <= i < |ids| && ids[i] == k;
      assert rows[i].patient == k;
    }
  }

  // ---------------------------------------------------------------------------
  // getPatientHistoryForDoctor

  /**
   * A patient's records as a doctor sees them: refused unless an appointment
   * links the two, and listing only Completed appointments (with any doctor).
   */
  function PatientHistoryForDoctor(c: Clinic, caller: Id, patient: Id): (r: Outcome<History>)
    reads c
    requires c.Valid() && IsRole(c, caller, Doctor)
    ensures !Linked(c, caller, patient) ==>
      r == Fail(Forbidden("Access denied. No clinical relationship found with this patient."))
    ensures Linked(c, caller, patient) ==>
      && r.Ok?
      && (forall k :: k in r.value.appointments <==>
            k in c.appointments && c.appointments[k].patient == patient && c.appointments[k].status == Completed)
      && (forall k :: k in r.value.prescriptions <==> k in c.prescriptions && c.prescriptions[k].patient == patient)
      && (forall k :: k in r.value.reports <==> k in c.reports && c.reports[k].patient == patient)
      && (forall k :: k in r.value.invoices <==> k in c.invoices && c.invoices[k].patient == patient)
  {
    if !Linked(c, caller, patient) then Fail(Forbidden("Access denied. No clinical relationship found with this patient."))
    else Ok(PatientRecords(c, patient, true))
  }

  // ---------------------------------------------------------------------------
  // updatePaymentStatus

  /**
   * Sets the payment status of the caller's appointment. With no invoice yet it
   * issues a fallback 500 invoice to the appointment's patient with
   * `status || 'Unpaid'`; otherwise it assigns `status` to the first invoice.
   */
  method UpdatePaymentStatus(c: Clinic, caller: Id, id: Id, status: Option<string>, now: nat, draw: nat)
    returns (r: Outcome<Option<InvoiceStatus>>)
    requires c.Valid() && IsRole(c, caller, Doctor) && draw < 1000
    modifies c
    ensures c.Valid()
    ensures id !in old(c.appointments) ==> r == Fail(NotFound("Appointment not found")) && unchanged(c)
    ensures id in old(c.appointments) && old(c.appointments[id]).doctor != caller ==>
      r == Fail(Forbidden("Unauthorized to update payment for this appointment")) && unchanged(c)
    ensures c.users == old(c.users) && c.appointments == old(c.appointments)
    ensures c.prescriptions == old(c.prescriptions) && c.reports == old(c.reports) && c.events == old(c.events)
    ensures r.Fail? ==> c.invoices == old(c.invoices) && c.auditLog == old(c.auditLog)
    ensures r.Ok? ==> c.auditLog == old(c.auditLog) + [AuditEntry(Some(caller), "Update Payment Status", "Billing Intelligence")]
    ensures id in old(c.appointments) && old(c.appointments[id]).doctor == caller && old(InvoiceFor(c, id)).None? ==>
      var st := StatusOrUnpaid(status);
      var number := InvoiceNumber(now, draw);
      if st.Fail? then r == Fail(ValidationFailed("status"))
      else if NumberTaken(old(c.invoices), number) then r == Fail(DuplicateKey("invoiceNumber"))
      else
        && r == Ok(Some(st.value))
        && c.invoices == old(c.invoices)[old(c.nextId) := ConsultationInvoice(number, old(c.appointments[id]).patient, id, DefaultFee, st.value)]
    ensures id in old(c.appointments) && old(c.appointments[id]).doctor == caller && old(InvoiceFor(c, id)).Some? ==>
      var k := old(InvoiceFor(c, id)).value;
      var st := AssignedStatus(status);
      if st.Fail? then r == Fail(ValidationFailed("status"))
      else r == Ok(st.value) && c.invoices == old(c.invoices)[k := old(c.invoices)[k].(status := st.value)]
  {
    if id !in c.appointments {
      return Fail(NotFound("Appointment not found"));
    }
    var a := c.appointments[id];
    if a.doctor != caller {
      return Fail(Forbidden("Unauthorized to update payment for this appointment"));
    }
    var found := InvoiceFor(c, id);
    var shown: Option<InvoiceStatus>;
    if found.None? {
      var st := StatusOrUnpaid(status);
      if st.Fail? {
        return Fail(st.error);
      }
      var ins := c.InsertInvoice(ConsultationInvoice(InvoiceNumber(now, draw), a.patient, id, DefaultFee, st.value));
      if ins.Fail? {
        return Fail(ins.error);
      }
      shown := Some(st.value);
    } else {
      var st := AssignedStatus(status);
      if st.Fail? {
        return Fail(st.error);
      }
      c.SetInvoiceStatus(found.value, st.value);
      shown := st.value;
    }
    c.Log(Some(caller), "Update Payment Status", "Billing Intelligence");
    return Ok(shown);
  }
}
