/**
 * The patient's handlers. Every handler is reached only through routes that admit
 * the `patient` role, which is each member's precondition
 * `IsRole(c, caller, Patient)`; the caller is always the signed-in account.
 */
module PatientController {
  import opened Wrappers
  import opened Errors
  import opened UserModel
  import opened AppointmentModel
  import opened Records
  import opened Collections
  import opened Store
  import opened ObjectIds

  /**
   * `bookAppointment`: an appointment for the caller with the schema's default
   * status Pending, announced with no doctor target. The announcement needs the
   * socket server; when it is down the handler fails after the appointment exists.
   */
  method BookAppointment(c: Clinic, caller: Id, doctorId: Option<Id>, date: Option<int>, kind: Option<string>,
                         reason: string, now: int, socketUp: bool)
    returns (r: Outcome<Id>)
    requires c.Valid() && IsRole(c, caller, Patient)
    modifies c
    ensures c.Valid()
    ensures Create(Some(caller), doctorId, date, kind, reason, None, now).Fail? ==>
      r == Fail(Create(Some(caller), doctorId, date, kind, reason, None, now).error) && unchanged(c)
    ensures Create(Some(caller), doctorId, date, kind, reason, None, now).Ok? ==>
      var a := Create(Some(caller), doctorId, date, kind, reason, None, now).value;
      var id := old(c.nextId);
      && a.patient == caller && a.status == Pending
      && c.appointments == old(c.appointments)[id := a]
      && c.events == old(c.events) + (if socketUp then [Event("NEW_BOOKING", None, id)] else [])
      && r == (if socketUp then Ok(id) else Fail(SocketNotInitialized))
    ensures c.users == old(c.users) && c.invoices == old(c.invoices) && c.auditLog == old(c.auditLog)
    ensures c.prescriptions == old(c.prescriptions) && c.reports == old(c.reports)
  {
    var created := Create(Some(caller), doctorId, date, kind, reason, None, now);
    if created.Fail? {
      return Fail(created.error);
    }
    var id := c.InsertAppointment(created.value);
    var emitted := c.Emit(socketUp, Event("NEW_BOOKING", None, id));
    if !emitted {
      return Fail(SocketNotInitialized);
    }
    return Ok(id);
  }

  /** `getMedicalHistory`: all of the caller's records, appointments of every status. */
  function MedicalHistory(c: Clinic, caller: Id): (h: History)
    reads c
    requires c.Valid() && IsRole(c, caller, Patient)
    ensures forall k :: k in h.prescriptions <==> k in c.prescriptions && c.prescriptions[k].patient == caller
    ensures forall k :: k in h.reports <==> k in c.reports && c.reports[k].patient == caller
    ensures forall k :: k in h.appointments <==> k in c.appointments && c.appointments[k].patient == caller
    ensures forall k :: k in h.invoices <==> k in c.invoices && c.invoices[k].patient == caller
  {
    PatientRecords(c, caller, false)
  }

  /** `getDoctors`: every account with role doctor, archived ones included, in natural order. */
  function Doctors(c: Clinic, caller: Id): (ids: seq<Id>)
    reads c
    requires c.Valid() && IsRole(c, caller, Patient)
    ensures forall k :: k in ids <==> k in c.users && c.users[k].role == Doctor
    ensures forall i, j :: 0 <= i < j < |ids| ==> ids[i] < ids[j]
  {
    Select(c.users, (k: Id, u: User) => u.role == Doctor, 0, c.nextId)
  }

  /** `sort({ date: -1 })` over ids of stored appointments. */
  function ByDateDesc(appts: map<Id, Appointment>, s: seq<Id>): (sorted: seq<Id>)
    requires forall k :: k in s ==> k in appts
    requires forall i, j :: 0 <= i < j < |s| ==> s[i] < s[j]
    ensures forall k :: k in sorted <==> k in s
    ensures forall i, j :: 0 <= i < j < |sorted| ==> sorted[i] != sorted[j]
    ensures forall i, j :: 0 <= i < j < |sorted| ==> appts[sorted[i]].date >= appts[sorted[j]].date
  {
    var key := (k: Id) => if k in appts then appts[k].date else 0;
    var sorted := SortDesc(s, key);
    assert forall k :: k in sorted <==> k in s by {
      forall k ensures k in sorted <==> k in s {
        assert k in sorted <==> k in multiset(sorted);
        assert k in s <==> k in multiset(s);
      }
    }
    PermutationDistinct(s, sorted);
    assert forall i, j :: 0 <= i < j < |sorted| ==> appts[sorted[i]].date >= appts[sorted[j]].date by {
      forall i, j | 0 <= i < j < |sorted| ensures appts[sorted[i]].date >= appts[sorted[j]].date {
        assert sorted[i] in s && sorted[j] in s;
        assert key(sorted[i]) >= key(sorted[j]);
      }
    }
    sorted
  }

  /** `getPatientAppointments`: the caller's appointments, each once, latest date first. */
  function PatientAppointments(c: Clinic, caller: Id): (ids: seq<Id>)
    reads c
    requires c.Valid() && IsRole(c, caller, Patient)
    ensures forall k :: k in ids <==> k in c.appointments && c.appointments[k].patient == caller
    ensures forall i, j :: 0 <= i < j < |ids| ==> ids[i] != ids[j]
    ensures forall i, j :: 0 <= i < j < |ids| ==> c.appointments[ids[i]].date >= c.appointments[ids[j]].date
  {
    ByDateDesc(c.appointments, Select(c.appointments, (k: Id, a: Appointment) => a.patient == caller, 0, c.nextId))
  }

  /** `${req.protocol}://${req.get('host')}/uploads/${req.file.filename}`. */
  function FileUrl(protocol: string, host: string, filename: string): (u: string)
    ensures u != ""
    ensures |u| >= |protocol| + 3 && u[..|protocol| + 3] == protocol + "://"
    ensures |u| >= |filename| + 9 && u[|u| - |filename| - 9..] == "/uploads/" + filename
  {
    var u := protocol + "://" + host + "/uploads/" + filename;
    assert u == (protocol + "://") + host + ("/uploads/" + filename);
    u
  }

  /**
   * `uploadReport`: refused without a file; otherwise one report of the caller's,
   * pointing at the stored file. An absent title fails the required validator.
   */
  method UploadReport(c: Clinic, caller: Id, title: string, hasFile: bool,
                      protocol: string, host: string, filename: string)
    returns (r: Outcome<Id>)
    requires c.Valid() && IsRole(c, caller, Patient)
    modifies c
    ensures c.Valid()
    ensures !hasFile ==> r == Fail(BadRequest("No file uploaded")) && unchanged(c)
    ensures hasFile && title == "" ==> r == Fail(ValidationFailed("title")) && unchanged(c)
    ensures hasFile && title != "" ==>
      && r == Ok(old(c.nextId))
      && c.reports == old(c.reports)[old(c.nextId) := TestReport(caller, title, FileUrl(protocol, host, filename))]
      && c.reports[r.value].patient == caller
    ensures c.users == old(c.users) && c.appointments == old(c.appointments) && c.invoices == old(c.invoices)
    ensures c.prescriptions == old(c.prescriptions) && c.auditLog == old(c.auditLog) && c.events == old(c.events)
  {
    if !hasFile {
      return Fail(BadRequest("No file uploaded"));
    }
    if title == "" {
      return Fail(ValidationFailed("title"));
    }
    var id := c.InsertReport(TestReport(caller, title, FileUrl(protocol, host, filename)));
    return Ok(id);
  }
}
