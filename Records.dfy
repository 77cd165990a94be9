/**
 * The passive records the handlers create: prescriptions (models/Prescription.js),
 * test reports (models/TestReport.js), audit entries (models/AuditLog.js) and the
 * payloads broadcast on the socket.
 */
module Records {
  import opened Wrappers
  import opened ObjectIds

  datatype Medication = Medication(name: string, dosage: string, frequency: string, duration: string)

  datatype Prescription = Prescription(
    doctor: Id,
    patient: Id,
    appointment: Id,
    medications: seq<Medication>,
    notes: string,
    isImmutable: bool)

  datatype TestReport = TestReport(patient: Id, title: string, fileUrl: string)

  /** `user` is None for a failed login. */
  datatype AuditEntry = AuditEntry(user: Option<Id>, action: string, resource: string)

  /** A `notification` emit: `targetDoctor` None means the admin audience. */
  datatype Event = Event(action: string, targetDoctor: Option<Id>, appointment: Id)
}
