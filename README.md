# Venus Healthcare clinic backend: a Dafny model

This project models the core of the clinic backend. It is an Express/Mongoose
service with three roles: patients, doctors and a superadmin.

- Patients register with an emailed one-time code, book appointments, upload
  test reports and read their medical history.
- Doctors work through their appointment queue. They finalise a consultation,
  which writes the clinical findings, completes the appointment, issues an
  immutable prescription and bills a consultation invoice. They also see their
  patients and set payment status.
- The superadmin onboards doctors and patients with generated passwords,
  archives and restores accounts, assigns and removes appointments and changes
  invoice status.

The database is the class `Store.Clinic`. It holds one map from id to record for
each of users, appointments, invoices, prescriptions and test reports. It also
holds the audit log and the stream of socket notifications. Its primitive
writes carry what Mongoose adds to every write:

- the `required` validator (an empty string counts as missing) and the enum checks;
- the user pre-save hook, which assigns the display id and hashes a newly
  written password;
- the unique indexes on email, phone, displayId and invoiceNumber.

Its invariant `Clinic.Valid` holds before and after every handler. It says
every id is below the next free id, every stored user has been through the
validator and the hook, the unique indexes hold, and every prescription is
immutable.

Ids are handed out in increasing order. The model assumes that `find` and
`findOne` without a `sort` return documents in that order. MongoDB does not
guarantee this order, but it is what the code relies on. They are modelled as
scans of ids upwards (`Collections.Select`, `Collections.First`).

Each controller file is one module, with one member per handler. Handlers that
write are methods on the clinic, and their `ensures` state the whole new state
and the result. Read-only handlers are functions. The role that a route's
`authorize` middleware demands is the precondition `IsRole(c, caller, ...)`.

Some inputs are parameters:

- the clock is `now`;
- each `Math.random()` draw is a number below the range it is scaled to;
- whether the socket server was initialised is `socketUp`;
- the presence of an uploaded file is `hasFile`.

bcrypt is an ideal hash: `Hashed(p)` matches exactly the entered password `p`.

Where the code and the documented behaviour of the system disagree, the model
follows the code:

- The design asks that finalising the same consultation twice must not produce
  a second invoice. The code has no such guard, and `Scenarios.FinaliseTwice`
  proves that two calls give two invoices for the appointment.
- The design treats the notification broadcast as best effort. That holds only
  for `updateAppointmentStatus`. `assignAppointment` and `bookAppointment` call
  `io.getIO()` unguarded, so when the socket server is down they fail after the
  appointment (and for assignment, the audit entry) is already stored.
- The design asks that failures surface a clear reason to the caller. The
  handlers set 400, 401, 403 or 404 before throwing, but the error middleware
  in index.js answers every thrown error with status 500 and "Internal Server
  Error". The reason is included only in development (`Errors.ErrorReply`).
  The `Error` constructors therefore record which branch a handler took, not
  what the client receives.
- Finalising a consultation is not transactional. A failed invoice insert leaves
  the prescription and the completed appointment in place, and
  `DoctorController.CreatePrescription` states exactly that.

## Model

| member | source | states |
|---|---|---|
| `Text.Decimal` | utils/otpHelper.js:8 | `toString` of a non-negative number is a non-empty digit string with no leading zero |
| `Text.DecimalRoundTrip` | utils/otpHelper.js:8 | reading the decimal rendering of `n` back gives `n` |
| `Text.DecimalLength` | utils/otpHelper.js:58 | a number below 10^k has at most k digits, and one of at least 10^(k-1) has at least k |
| `Text.LeadingZeros` | models/User.js:66 | zeros put in front by `padStart` do not change the value a digit string denotes |
| `Text.HexDigits` | models/User.js:64 | the fixed-width hexadecimal rendering has exactly that width and only hex digits |
| `Text.HexDigitsSuffix` | models/User.js:64-65 | the last k characters of a width-w rendering are the width-k rendering of the same number |
| `Text.ParseHexDigits` | models/User.js:65 | `parseInt(…, 16)` of the width-k rendering of `n` is `n mod 16^k` |
| `Text.PadStart` | models/User.js:66 | `padStart` reaches the width, keeps the original string as suffix and fills only with the pad character |
| `Text.ToUpper` | models/User.js:60 | upper-casing keeps the length and maps each character on its own |
| `Text.ToLower` | controllers/doctorController.js:172-174 | lower-casing keeps the length and maps each character on its own |
| `Text.Contains` | controllers/doctorController.js:172-174 | `includes` is true exactly when the needle occurs at some position of the text |
| `Text.FirstToken` | utils/otpHelper.js:56 | `split(' ')[0]` is the longest prefix without a space, ended by a space or the end of the text |
| `Text.LettersOnly` | utils/otpHelper.js:57 | stripping `[^a-zA-Z]` leaves the text's letters in their order: a subsequence of the text holding every letter as often as the text does and nothing else; an all-letter text is kept as it is |
| `Text.SubsequenceMultiset` | utils/otpHelper.js:57 | leaving elements out never adds occurrences of any value |
| `Text.SubsequenceUnique` | controllers/doctorController.js:172-174 | two subsequences of the same sequence that keep each value never or at every occurrence, and keep the same values, are equal; so an in-order filter is fixed by which values it keeps |
| `Text.Filter` | controllers/doctorController.js:172-174 | `Array.prototype.filter`: a subsequence of the input, in its order, holding each kept value as often as the input does and no other value; the whole input when every element is kept |
| `Text.FilterDetermined` | controllers/doctorController.js:172-174 | any sequence that is a subsequence of the input with those counts is the filter's result, so the contract fixes the result |
| `ObjectIds.IdString` | models/User.js:64 | an id prints as 24 lower-case hexadecimal digits |
| `ObjectIds.LastFourHexDigits` | models/User.js:64-65 | parsing the last four hex digits of the printed id gives the id's low sixteen bits |
| `OtpHelper.GenerateOtp` | utils/otpHelper.js:7-9 | the code is six decimal digits whose value is 100000 plus the draw, so it lies in 100000..999999 |
| `OtpHelper.GenerateRandomPassword` | utils/otpHelper.js:53-60 | the password is the letters of the name's first word (or "User") followed by four digits whose value is 1000 plus the draw |
| `OtpHelper.NamelessPassword` | utils/otpHelper.js:56 | a missing name gives a password starting with "User" |
| `OtpHelper.FirstWordPassword` | utils/otpHelper.js:54-59 | a name whose first word is all letters contributes that whole word to the password |
| `OtpHelper.FirstTokenOfSplit` | utils/otpHelper.js:56 | `split(' ')[0]` of "first rest" is "first" when the first word holds no space |
| `UserModel.RoleName` | models/User.js:23-27 | every role prints as one of the three enum names |
| `UserModel.ParseRole` | models/User.js:23-27 | the role enum accepts exactly the three names, and each accepted name prints back as itself |
| `UserModel.NewUser` | models/User.js:4-53 | a new user takes the schema defaults: role patient, not verified, not archived, no code, no display id, the password as written |
| `UserModel.MissingRequired` | models/User.js:5-22 | validation passes exactly when name, email, phone and password are all present, and otherwise names one of those paths |
| `UserModel.ZeroPadded` | models/User.js:66 | a value below 1000 zero-padded to three digits is three digits that still denote the value |
| `UserModel.DisplaySuffix` | models/User.js:62-69 | the suffix is three digits: the id's low sixteen bits mod 1000 with an id, 100 plus the draw without one |
| `UserModel.PreSave` | models/User.js:57-76 | the hook leaves a hashed password and, for a named record, a display id; it keeps an existing display id, leaves a nameless record without one, keeps an existing hash and changes no other field |
| `UserModel.PreSaveIdempotent` | models/User.js:57-76 | a second save through the hook, with any id and draw, changes nothing: the display id is never regenerated and a hash is never re-hashed |
| `UserModel.PreSaveKeepsSaved` | models/User.js:59-75 | a record that has already been through the hook is left as it is |
| `UserModel.DisplayIdShape` | models/User.js:59-70 | a display id is the upper-cased first three characters of the name, a dash, and three digits fixed by the id alone |
| `UserModel.DisplayIdCollides` | models/User.js:63-66 | two ids equal in their low sixteen bits mod 1000 give the same display id for the same name |
| `AppointmentModel.StatusName` | models/Appointment.js:23-27 | every status prints as one of the five enum names |
| `AppointmentModel.ParseStatus` | models/Appointment.js:23-27 | the status enum accepts exactly the five names, and each accepted name prints back as itself |
| `AppointmentModel.StatusNameRoundTrip` | models/Appointment.js:23-27 | printing a status and checking it against the enum gives the status back |
| `AppointmentModel.RequestedStatus` | controllers/doctorController.js:39 | an absent or empty status keeps the current one, any other must be an enum name or the save fails on `status` |
| `AppointmentModel.Finalised` | controllers/doctorController.js:96-103 | finalising writes diagnosis, clinical notes and vitals, forces Completed and changes no other field |
| `AppointmentModel.TypeName` | models/Appointment.js:18-22 | every type prints as one of the two enum names |
| `AppointmentModel.ParseType` | models/Appointment.js:18-22 | the type enum accepts exactly "In-person" and "Online", each printing back as itself |
| `AppointmentModel.TypeNameRoundTrip` | models/Appointment.js:18-22 | printing a type and checking it against the enum gives the type back |
| `AppointmentModel.Create` | models/Appointment.js:3-37 | creation succeeds exactly when patient and doctor are given and the type is absent or valid; the record takes date now, type In-person and status Pending by default, with no clinical fields |
| `InvoiceModel.StatusName` | models/Invoice.js:27-31 | every invoice status prints as one of the four enum names |
| `InvoiceModel.ParseStatus` | models/Invoice.js:27-31 | the invoice status enum accepts exactly the four names, each printing back as itself |
| `InvoiceModel.StatusNameRoundTrip` | models/Invoice.js:27-31 | printing an invoice status and checking it against the enum gives the status back |
| `InvoiceModel.StatusOrUnpaid` | controllers/doctorController.js:114 | an absent or empty status gives Unpaid, any other must be an enum name or the create fails on `status` |
| `InvoiceModel.AssignedStatus` | controllers/doctorController.js:262-263 | assigning an absent status unsets the field; any other must be an enum name or the save fails on `status` |
| `InvoiceModel.MethodName` | models/Invoice.js:32-35 | every payment method prints as one of the four enum names |
| `InvoiceModel.ParseMethod` | models/Invoice.js:32-35 | the payment-method enum accepts exactly Cash, Card, UPI and Insurance, each printing back as itself |
| `InvoiceModel.FinalFee` | controllers/doctorController.js:106 | an absent or zero fee becomes 500 and any other fee is kept, so an integer fee is never zero |
| `InvoiceModel.ConsultationInvoice` | controllers/doctorController.js:108-115 | the invoice bills one "Consultation Fee" line, its total equals the sum of its lines and the fee, and it has the given status and no payment method |
| `InvoiceModel.InvoiceNumber` | controllers/doctorController.js:107 | an invoice number starts with "INV-" |
| `InvoiceModel.InvoiceNumberRoundTrip` | controllers/doctorController.js:107 | the clock value and the draw can be read back from an invoice number |
| `InvoiceModel.InvoiceNumberCollision` | models/Invoice.js:4-8 | two invoice numbers coincide exactly when made in the same millisecond with the same draw, which the unique index then rejects |
| `Collections.Select` | controllers/doctorController.js:14 | `find(p)` returns exactly the matching stored ids, in increasing (natural) order |
| `Collections.First` | controllers/doctorController.js:18 | `findOne(p)` returns the first matching id in natural order, or none exactly when nothing matches |
| `Collections.InsertDesc` | controllers/patientController.js:69 | inserting into a list sorted by descending key keeps it sorted and adds exactly that element |
| `Collections.SortDesc` | controllers/patientController.js:69 | `sort({ key: -1 })` returns a permutation of its input ordered by descending key |
| `Collections.PermutationDistinct` | controllers/patientController.js:66-71 | reordering a list without repeats keeps it without repeats |
| `Store.PreSaveStored` | models/User.js:5-22 | a record that passes the required validator is a valid stored user once the hook has run |
| `Store.Clash` | models/User.js:9-44 | the unique indexes refuse a user exactly when another one holds its email, phone or display id |
| `Store.ClashIsDisplayId` | models/User.js:40-44 | with its email and phone free, a user can be refused only on its display id |
| `Store.NamesakeClash` | models/User.js:40-70 | a new account whose hook-assigned display id is already held is refused on displayId, even with a fresh email and phone |
| `Store.SameKeysNoClash` | models/User.js:9-44 | re-saving a stored user with its unique fields unchanged cannot clash |
| `Store.WriteKeepsUnique` | models/User.js:9-44 | writing a user that clashes with no other keeps email, phone and display id unique |
| `Store.FindByEmail` | controllers/authController.js:13 | `User.findOne({ email })` finds the one user with that email, or none exactly when no user has it |
| `Store.FindByPhone` | controllers/adminController_temp_fix.js:18 | `User.findOne({ phone })` finds the one user with that phone, or none exactly when no user has it |
| `Store.PatientRecords` | controllers/patientController.js:38-45 | the four history lists hold exactly the patient's prescriptions, reports, invoices and (optionally only Completed) appointments |
| `Store.Clinic.InsertUser` | models/User.js:4-76 | `User.create`: a missing required field, then a unique-index clash, refuses without change; otherwise the hooked record is stored under a fresh id |
| `Store.Clinic.UpdateUser` | models/User.js:57-76 | saving a user with its unique fields kept and a password present always succeeds and stores the hooked record |
| `Store.Clinic.SaveUser` | models/User.js:57-76 | `user.save()`: validation, the hook, then the unique indexes against the other users; a refusal changes nothing |
| `Store.Clinic.InsertAppointment` | controllers/adminController.js:135-142 | a new appointment is stored under a fresh id and nothing else changes |
| `Store.Clinic.SaveAppointment` | controllers/doctorController.js:42 | `appointment.save()` replaces exactly that record |
| `Store.Clinic.RemoveAppointment` | controllers/adminController.js:224 | `deleteOne` removes exactly that appointment |
| `Store.Clinic.InsertInvoice` | models/Invoice.js:4-8 | `Invoice.create` is refused on a taken invoice number and otherwise stores the invoice under a fresh id |
| `Store.Clinic.SetInvoiceStatus` | controllers/adminController.js:249-250 | assigning the status and saving changes that invoice's status and nothing else |
| `Store.Clinic.InsertPrescription` | models/Prescription.js:27-30 | a prescription is stored under a fresh id, and prescriptions are never written again |
| `Store.Clinic.InsertReport` | controllers/patientController.js:87-91 | a test report is stored under a fresh id |
| `Store.Clinic.Log` | utils/logger.js:3-15 | `logAction` appends exactly one audit entry and never fails the handler |
| `Store.Clinic.Emit` | socket.js:13-18 | an emit reaches the notification stream only when the socket was initialised, and reports whether it did |
| `AuthController.FreshOtp` | controllers/authController.js:18-21 | a fresh code is six digits in 100000..999999 and expires ten minutes after now |
| `AuthController.FreshOtpWindow` | controllers/authController.js:67 | a fresh code is accepted exactly until its ten minutes are over, and no other entry is ever accepted |
| `AuthController.NewPassword` | controllers/authController.js:22 | `if (password)`: a present, non-empty password replaces the old one, otherwise the old one stays |
| `AuthController.RegisterUser` | controllers/authController.js:10-57 | a verified email is refused unchanged; an unverified one gets a fresh code and optionally a new password, with no new account; a new email creates an unverified patient holding the code |
| `AuthController.VerifyOtp` | controllers/authController.js:62-83 | only a matching, unexpired code verifies the account, clearing the code; anything else is refused with nothing changed |
| `AuthController.LoginMatch` | controllers/authController.js:91-93 | a login matches exactly when some user has that email and that password |
| `AuthController.ArchivedAccountSignsIn` | controllers/authController.js:88-100 | login ignores the archive flag: an archived account with the right password still signs in |
| `AuthController.AuthUser` | controllers/authController.js:88-120 | a match is logged as "Login" for that user; a failure is unauthorized and logged as "Login Failed" with no user |
| `AuthController.ForgotPassword` | controllers/authController.js:125-154 | an unknown email is not found with nothing changed; otherwise a fresh code is stored on that account and logged |
| `AuthController.ResetPassword` | controllers/authController.js:159-181 | without a present, matching, unexpired code nothing changes; with one, a given password replaces the old (and then signs in) and the code is cleared |
| `PatientController.BookAppointment` | controllers/patientController.js:13-33 | the caller's new appointment is Pending and announced with no doctor target; with the socket down it is stored but the handler fails |
| `PatientController.MedicalHistory` | controllers/patientController.js:38-45 | the history holds exactly the caller's prescriptions, reports, invoices and appointments of every status |
| `PatientController.Doctors` | controllers/patientController.js:50-53 | the list holds exactly the doctor accounts, archived ones included, in natural order |
| `PatientController.ByDateDesc` | controllers/patientController.js:69 | the ordering keeps the same appointments, each once, latest date first |
| `PatientController.PatientAppointments` | controllers/patientController.js:66-71 | the list holds exactly the caller's appointments, each once, latest date first |
| `PatientController.FileUrl` | controllers/patientController.js:85 | the file URL starts with the protocol and "://" and ends with "/uploads/" and the file name |
| `PatientController.UploadReport` | controllers/patientController.js:76-94 | no file is a bad request and a missing title fails validation, both changing nothing; otherwise one report of the caller's is stored |
| `DoctorController.InvoiceFor` | controllers/doctorController.js:18 | the first invoice billing the appointment, or none exactly when no invoice bills it |
| `DoctorController.PaymentStatus` | controllers/doctorController.js:18-22 | an appointment's payment status is its first invoice's status, or Unpaid when it has none; an invoice whose status was unset reads as Unpaid, the schema default applied on load (models/Invoice.js:27-31) |
| `DoctorController.AppointmentRows` | controllers/doctorController.js:17-23 | each row carries its appointment and that appointment's payment status, in order |
| `DoctorController.DoctorAppointments` | controllers/doctorController.js:13-26 | the rows are exactly the caller's appointments, in natural order, each with its payment status |
| `DoctorController.RowsCoverIds` | controllers/doctorController.js:17-23 | every listed appointment appears in some row |
| `DoctorController.UpdateAppointmentStatus` | controllers/doctorController.js:31-77 | any doctor may update any appointment: a missing one is not found; the status is kept when none is given and the date changes only when a truthy one (not 0) is given; a down socket does not change the outcome |
| `DoctorController.CreatePrescription` | controllers/doctorController.js:82-126 | an immutable prescription is always stored first; an existing appointment is completed with the findings; then one consultation invoice is billed (fee 500 when none or zero is given, status Unpaid when none is given), even for a missing appointment; when billing fails the earlier writes stay |
| `DoctorController.Finalise` | controllers/doctorController.js:86-123 | with both references present: the prescription, the completed appointment, then the invoice and audit entry, with the same failure cases |
| `DoctorController.BillConsultation` | controllers/doctorController.js:105-123 | an invalid status or a taken invoice number bills nothing; otherwise one consultation invoice is stored and logged |
| `DoctorController.PrescriptionByAppointment` | controllers/doctorController.js:131-157 | a missing appointment is not found, another doctor's is forbidden; the owner gets its clinical details and its first prescription, if any |
| `DoctorController.FilterContaining` | controllers/doctorController.js:172-174 | the result is a subsequence of the entries, in their order, holding each matching entry as often as the database does and no other entry; the whole list when everything matches |
| `DoctorController.SearchMedications` | controllers/doctorController.js:162-177 | the result is the database entries containing the query, case-insensitively, in database order and once per matching entry |
| `DoctorController.ContainsEmpty` | controllers/doctorController.js:173 | the empty query occurs in every entry |
| `DoctorController.EmptyQueryListsAll` | controllers/doctorController.js:165-174 | a missing or empty query returns the whole database, all twelve entries |
| `DoctorController.LastVisit` | controllers/doctorController.js:189-193 | the latest date among the appointments linking doctor and patient, or none exactly when there is none |
| `DoctorController.PatientRows` | controllers/doctorController.js:188-195 | each row carries its patient and that patient's last visit, in order |
| `DoctorController.LinkedUsers` | controllers/doctorController.js:183-186 | `distinct('patient')` then `$in`: exactly the users with an appointment with the doctor, in natural order |
| `DoctorController.DoctorPatients` | controllers/doctorController.js:182-198 | the rows are exactly the users the caller has an appointment with, each once, each with a last visit |
| `DoctorController.RowsCoverLinked` | controllers/doctorController.js:183-195 | every linked user appears in some row, and every row is a linked user |
| `DoctorController.PatientHistoryForDoctor` | controllers/doctorController.js:203-228 | refused unless an appointment links caller and patient; otherwise the patient's records with only Completed appointments |
| `DoctorController.UpdatePaymentStatus` | controllers/doctorController.js:233-275 | a missing or another doctor's appointment changes nothing; with no invoice a 500 fallback invoice is issued to its patient with the status given, else Unpaid; otherwise only the first invoice's status is assigned |
| `AdminController.Onboarded` | controllers/adminController.js:53-60 | an onboarded account has the given fields and role, is verified, not archived, and holds the generated password |
| `AdminController.OnboardedPasswordPresent` | controllers/adminController.js:51-60 | a generated password is never empty, so onboarding never fails on the password path |
| `AdminController.Onboard` | controllers/adminController.js:42-73 | only the email is checked beforehand; a taken email is refused unchanged, other failures come from validation or the unique indexes, and success stores one account and logs it |
| `AdminController.CreateDoctor` | controllers/adminController.js:42-73 | only the email is looked up first: a taken email is refused unchanged; otherwise a missing field fails validation, a taken phone or display id fails on that unique index, and in every other case the call succeeds, storing one doctor account and logging "Create Doctor" |
| `AdminController.CreatePatient` | controllers/adminController.js:167-198 | only the email is looked up first: a taken email is refused unchanged; otherwise a missing field fails validation, a taken phone or display id fails on that unique index, and in every other case the call succeeds, storing one patient account and logging "Create Patient" |
| `AdminController.SetArchived` | controllers/adminController.js:90-91 | saving a user with only the archive flag changed always succeeds and writes exactly that flag |
| `AdminController.DeleteUser` | controllers/adminController.js:78-102 | missing is not found, a superadmin is forbidden, both unchanged; otherwise only the archive flag is set, and no account is ever removed |
| `AdminController.RestoreUser` | controllers/adminController.js:107-127 | missing is not found; otherwise the archive flag is cleared whatever it was and nothing else changes |
| `AdminController.AssignAppointment` | controllers/adminController.js:132-162 | the new appointment is Accepted, logged and announced to its doctor; with the socket down it is stored and logged but the handler fails |
| `AdminController.DeleteAppointment` | controllers/adminController.js:214-235 | missing is not found, Completed is forbidden, both unchanged; otherwise exactly that appointment is removed, and no Completed appointment is ever removed |
| `AdminController.UpdateInvoiceStatus` | controllers/adminController.js:240-261 | a missing invoice is not found; otherwise only that invoice's status is assigned, subject to the enum check |
| `AdminControllerTempFix.EmailTaken` | controllers/adminController_temp_fix.js:8-15 | an email held by an archived account gives the distinct "Archived" message, an active one "already registered" |
| `AdminControllerTempFix.PhoneTaken` | controllers/adminController_temp_fix.js:18-25 | a phone held by an archived account gives the distinct "Archived" message, an active one "already registered" |
| `AdminControllerTempFix.CreatePatient` | controllers/adminController_temp_fix.js:4-49 | the email is checked before the phone; once both are free only validation or a display-id clash can refuse; success adds exactly one verified patient |
| `Scenarios.ConsultationFlow` | controllers/doctorController.js:82-126 | assign, finalise with fee 750, then remove: the appointment is Completed, its invoice bills 750 Unpaid, and the removal is forbidden |
| `Scenarios.FinaliseTwice` | controllers/doctorController.js:105-115 | finalising the same appointment twice stores two distinct new invoices for it |
| `Scenarios.FinaliseWithDefaults` | controllers/doctorController.js:105-115 | finalising with no fee and no payment status, when the invoice number is free, succeeds and adds exactly one invoice, for the appointment, and takes exactly that invoice number |
| `Scenarios.ArchiveAndRestore` | controllers/adminController.js:78-127 | archiving an active account and restoring it gives back the user collection exactly as it was |
| `Errors.ErrorReply` | index.js:57-63 | every thrown error is answered with status 500 and "Internal Server Error"; the error itself is included exactly in development |
| `Errors.ProductionRepliesAgree` | index.js:57-63 | outside development, any two failures give the same reply |

`Text` also holds arithmetic helpers used by these proofs: `Pow`, `MulAtLeast`
and the digit and hexadecimal character functions. They state nothing about
the clinic and have no rows.

## Left out

- Email delivery (`sendOTP`, `sendWelcomeEmail`) is I/O and is not modelled; the code it sends is modelled.
- Session tokens: `generateToken` is not part of this model.
- bcrypt is modelled as an ideal hash. Salts, cost factor and the asynchronous API are omitted.
- `AuthController.AuthUser`: the entered password is always a string. A missing password makes bcrypt's compare throw for a known email, so the handler fails without the "Login Failed" entry; that path is not modelled.
- From audit entries only user, action and resource are modelled. The `details` text and the client `ip` are not. A failing audit write is caught by `logAction`, so `Clinic.Log` always succeeds.
- `populate`, `select` and `_doc` spreading shape the response only and are not modelled. List handlers return ids and rows of ids.
- Casting a malformed id string to an ObjectId (a CastError) is not modelled; ids are numbers.
- `pdfUrl`, `ocrData`, `uploadedAt` and the `timestamps` fields are not modelled.
- The notification message texts and payloads are not modelled; an event records its action, its target doctor and the appointment.
- Socket transport is not modelled: `socketUp` stands for whether `io.getIO()` would succeed.
- Every failure reaches the client as status 500 "Internal Server Error" (`Errors.ErrorReply`). The handlers' own statuses are recorded only in comments on `Errors.Error`. The `err.message` text is represented by the error value itself.
- `InvoiceModel.FinalFee`: fees, invoice amounts and dates are integers. A fractional fee such as 499.5 is not represented. Nor is a string fee: it is truthy, so `consultationFee || 500` keeps it, "0" is then cast to 0 and an invoice of zero is stored. A fee or date that Mongoose cannot cast would fail `Invoice.create` after the prescription and appointment are written; that failure is not modelled.
- Case mapping covers ASCII letters only; JavaScript's full Unicode `toUpperCase`/`toLowerCase` is not modelled.
- Strings are sequences of Unicode characters. JavaScript counts UTF-16 code units, so `name.slice(0, 3)` in `UserModel.DisplayPrefix` differs for a name that starts with a character outside the Basic Multilingual Plane.
- `getUsers`, `getInvoices`, `getAuditLogs`, `getAppointments` and `getDepartments` are plain listings outside the modelled core.
- Concurrency is not modelled. Handlers run one at a time, so a race between two fallback invoices is not represented.
- Role gating by the route middleware is the precondition `IsRole`, not a modelled error path.
- The pre-save hook's random fallback suffix (no id yet) is modelled by `UserModel.DisplaySuffix`. Every save in the store has an id, so the store always uses the id-derived suffix.
- Mongoose reports every failing path of a validation; the model reports the first one in schema order.
- `AdminControllerTempFix.CreatePatient`: once email and phone are free, the contract names the possible failures (validation, or a display-id clash) but not which one.
- `Scenarios.ArchiveAndRestore`: does not state the two audit entries; `AdminController.DeleteUser` and `AdminController.RestoreUser` state them one by one.
- `InvoiceModel.InvoiceNumber`: states only the prefix, since its content is pinned down by `InvoiceModel.InvoiceNumberRoundTrip`.
