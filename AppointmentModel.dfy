/** The appointment record of models/Appointment.js: its enumerations, defaults and validation. */
module AppointmentModel {
  import opened Wrappers
  import opened ObjectIds
  import opened Errors

  datatype AppointmentStatus = Pending | Accepted | Rescheduled | Completed | Cancelled

  /** The schema's `type` field. */
  datatype AppointmentType = InPerson | Online

  datatype Vitals = Vitals(bloodPressure: string, temperature: string, pulse: string, weight: string)

  /** Free-text fields that were never written hold "". */
  datatype Appointment = Appointment(
    patient: Id,
    doctor: Id,
    date: int,
    kind: AppointmentType,
    status: AppointmentStatus,
    reason: string,
    diagnosis: string,
    clinicalNotes: string,
    vitals: Option<Vitals>)

  const StatusNames: seq<string> := ["Pending", "Accepted", "Rescheduled", "Completed", "Cancelled"]
  const TypeNames: seq<string> := ["In-person", "Online"]

  function StatusName(s: AppointmentStatus): (r: string)
    ensures r in StatusNames
  {
    match s
    case Pending => "Pending"
    case Accepted => "Accepted"
    case Rescheduled => "Rescheduled"
    case Completed => "Completed"
    case Cancelled => "Cancelled"
  }

  /** The enum check on `status`: only the five listed names are accepted. */
  function ParseStatus(name: string): (r: Option<AppointmentStatus>)
    ensures r.Some? <==> name in StatusNames
    ensures r.Some? ==> StatusName(r.value) == name
  {
    if name == "Pending" then Some(Pending)
    else if name == "Accepted" then Some(Accepted)
    else if name == "Rescheduled" then Some(Rescheduled)
    else if name == "Completed" then Some(Completed)
    else if name == "Cancelled" then Some(Cancelled)
    else None
  }

  lemma StatusNameRoundTrip(s: AppointmentStatus)
    ensures ParseStatus(StatusName(s)) == Some(s)
  {
  }

  /** `status || appointment.status`, then the enum check on save. */
  function RequestedStatus(current: AppointmentStatus, status: Option<string>): (r: Outcome<AppointmentStatus>)
    ensures status.None? || status.value == "" ==> r == Ok(current)
    ensures status.Some? && status.value != "" ==>
      (r.Ok? <==> status.value in StatusNames) && (r.Ok? ==> StatusName(r.value) == status.value)
    ensures r.Fail? ==> r == Fail(ValidationFailed("status"))
  {
    if status.None? || status.value == "" then Ok(current)
    else match ParseStatus(status.value)
      case Some(s) => Ok(s)
      case None => Fail(ValidationFailed("status"))
  }

  /** The clinical fields a finalised consultation writes, and the status it forces. */
  function Finalised(a: Appointment, diagnosis: string, clinicalNotes: string, vitals: Option<Vitals>): (b: Appointment)
    ensures b.status == Completed
    ensures b.diagnosis == diagnosis && b.clinicalNotes == clinicalNotes && b.vitals == vitals
    ensures b.(status := a.status, diagnosis := a.diagnosis, clinicalNotes := a.clinicalNotes, vitals := a.vitals) == a
  {
    a.(diagnosis := diagnosis, clinicalNotes := clinicalNotes, vitals := vitals, status := Completed)
  }

  function TypeName(t: AppointmentType): (r: string)
    ensures r in TypeNames
  {
    match t
    case InPerson => "In-person"
    case Online => "Online"
  }

  /** The enum check on `type`. */
  function ParseType(name: string): (r: Option<AppointmentType>)
    ensures r.Some? <==> name in TypeNames
    ensures r.Some? ==> TypeName(r.value) == name
  {
    if name == "In-person" then Some(InPerson)
    else if name == "Online" then Some(Online)
    else None
  }

  lemma TypeNameRoundTrip(t: AppointmentType)
    ensures ParseType(TypeName(t)) == Some(t)
  {
  }

  /**
   * `Appointment.create({...})`: absent fields take the schema defaults (date now,
   * type In-person, status Pending), then validation rejects a missing patient or
   * doctor reference and a type outside the enumeration. References are not
   * checked against the users collection.
   */
  function Create(patient: Option<Id>, doctor: Option<Id>, date: Option<int>, kind: Option<string>,
                  reason: string, status: Option<AppointmentStatus>, now: int): (r: Outcome<Appointment>)
    ensures r.Ok? <==> patient.Some? && doctor.Some? && (kind.None? || kind.value in TypeNames)
    ensures r.Fail? ==> r.error.ValidationFailed?
    ensures r.Ok? ==>
      && r.value.patient == patient.value
      && r.value.doctor == doctor.value
      && r.value.date == date.GetOr(now)
      && r.value.status == status.GetOr(Pending)
      && TypeName(r.value.kind) == kind.GetOr("In-person")
      && r.value.reason == reason
      && r.value.diagnosis == "" && r.value.clinicalNotes == "" && r.value.vitals.None?
  {
    if patient.None? then Fail(ValidationFailed("patient"))
    else if doctor.None? then Fail(ValidationFailed("doctor"))
    else
      var t := if kind.None? then Some(InPerson) else ParseType(kind.value);
      if t.None? then Fail(ValidationFailed("type"))
      else Ok(Appointment(patient.value, doctor.value, date.GetOr(now), t.value,
                          status.GetOr(Pending), reason, "", "", None))
  }
}
