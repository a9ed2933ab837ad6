# med-monitor, modelled in Dafny

med-monitor is a clinic scheduling system. Its Go backend stores users, doctor and patient profiles,
appointments, consultations and prescriptions through GORM. It books, cancels, completes and deletes
appointments, issues prescriptions and provisions users from Google sign-in claims. Its React
frontend shows a calendar dashboard, an appointments page, a patient directory and a user
administration page.

This project models the core of both halves:

- **Store.** The database is a `Store.Database` class with one `Tables.Table` (rows plus the next
  auto-increment key) per table. `Database.State()` is its value snapshot, a `DbState`.
- **Repositories.** Each write of the two repositories is a specification function `XEffect(s, …, up)`
  giving the new state and the result. Beside it is a method on the shared `Database` proved to
  follow that function. `up` says whether the database served the statement. The reads are
  filter-and-order functions over a `DbState`.
- **Services.** Each service operation issues several statements in sequence. It takes `served`, the
  number of statements the database serves before it becomes unavailable. This is how the model
  shows that a completion is not atomic.
- **Handlers.** These map service results to HTTP status codes. Path ids go through
  `strconv.ParseUint(…, 10, 32)` with the error dropped, modelled in `Strings.ParseUint32OrDefault`.
- **Bearer header.** `Auth` reads the bearer token from an `Authorization` header (section 2.1 of
  RFC 6750, with the case-insensitive scheme of section 2.1 of RFC 7235). Google's token check is a
  function parameter.
- **Go time.** `GoTime` covers the layouts the backend parses and formats: RFC 3339 and
  `2006-01-02T15:04`.
- **Frontend pages.** `Dashboard`, `AppointmentsPage`, `PatientsPage` and `AdminUsers` model the page
  logic. React state becomes class fields, and requests become returned values.

Supporting modules:

| module | contents |
|---|---|
| `Civil` | the proleptic Gregorian calendar |
| `Ordering` | the `ORDER BY … desc` insertion sort |
| `Seqs` | filters and subsequences |
| `Strings` | case folding, substring search, decimal text |
| `Search` | the shared case-insensitive search predicate |

## Model

| member | source | states |
|---|---|---|
| Tables.Insert | backend/repository/medical_repository.go:116-118 | GORM `Create`: a zero key takes the next sequence value, and that value is consumed even when the row is rejected. The row is appended iff its key is not taken and no unique index clashes. Otherwise it fails with a duplicate key and the rows stay as they were |
| Tables.Save | backend/repository/medical_repository.go:138-140 | GORM `Save`: a zero key inserts. A non-zero key either replaces the row with that key or inserts under that key, unless a unique index clashes. The sequence is not advanced |
| Tables.First | backend/repository/user_repository.go:25-31 | `First`: some matching row with the smallest key, or record-not-found iff no row matches |
| Tables.InsertKeepsKeys | backend/models/models.go:9-19 | inserting keeps keys distinct and unique indexes unclashed, and keeps the sequence ahead of every key |
| Tables.SaveKeepsKeys | backend/models/models.go:9-19 | saving also keeps keys distinct and unique indexes unclashed |
| Tables.FirstByKey | backend/repository/medical_repository.go:132-136 | a lookup by primary key finds exactly the row with that key |
| Ordering.InsertDesc | backend/repository/medical_repository.go:120-124 | inserting into a descending list keeps it descending and adds exactly that element |
| Ordering.SortDesc | backend/repository/medical_repository.go:120-124 | `ORDER BY … desc` gives a descending permutation of its input |
| Ordering.SortDescMembers | backend/repository/medical_repository.go:142-146 | sorting keeps the members and the length |
| UserRepository.FindByEmail | backend/repository/user_repository.go:25-31 | a stored user with that email, or record-not-found iff there is none |
| UserRepository.FindByID | backend/repository/user_repository.go:44-50 | a stored user with that id, or record-not-found iff there is none |
| UserRepository.GetAllUsers | backend/repository/user_repository.go:52-56 | every stored user |
| UserRepository.FindByEmailExact | backend/repository/user_repository.go:25-31 | in a valid store, looking up a stored user's email finds exactly that user (email is unique) |
| UserRepository.FindByIDExact | backend/repository/user_repository.go:44-50 | looking up a stored user's id finds exactly that user |
| UserRepository.CreateUserEffect | backend/repository/user_repository.go:33-35 | `Create` on the users table, whose two unique indexes are email and google_id. It fails as unavailable when the statement is not served, and it keeps the store valid |
| UserRepository.CreateUserOutcome | backend/repository/user_repository.go:33-35 | a new user whose email or Google id is already present is rejected as a duplicate. Otherwise it is stored under the next key |
| UserRepository.UpdateUserEffect | backend/repository/user_repository.go:37-39 | `Save` on the users table |
| UserRepository.UpdateUserReplaces | backend/repository/user_repository.go:37-39 | saving a stored user whose email and Google id are not another's replaces exactly that row and nothing else |
| UserRepository.CreatePatientEffect | backend/repository/user_repository.go:41-43 | `Create` on the patients table |
| UserRepository.CreateUser | backend/repository/user_repository.go:33-35 | the method changes the store and answers as `CreateUserEffect` says |
| UserRepository.UpdateUser | backend/repository/user_repository.go:37-39 | likewise for `UpdateUserEffect` |
| UserRepository.CreatePatient | backend/repository/user_repository.go:41-43 | likewise for `CreatePatientEffect` |
| MedicalRepository.GetDoctorByID | backend/repository/medical_repository.go:83-87 | the doctor with that id, or record-not-found iff there is none |
| MedicalRepository.GetAllPatients | backend/repository/medical_repository.go:100-104 | exactly the patients whose owning user has role `patient`, in table order (one admissible order) |
| MedicalRepository.GetPatientByID | backend/repository/medical_repository.go:106-110 | the patient with that id, or record-not-found iff there is none |
| MedicalRepository.GetAppointmentsByPatient | backend/repository/medical_repository.go:120-124 | exactly the live appointments of that patient, latest date first |
| MedicalRepository.GetAppointmentsByDoctor | backend/repository/medical_repository.go:126-130 | exactly the live appointments of that doctor, latest date first |
| MedicalRepository.GetAllAppointments | backend/repository/medical_repository.go:142-146 | exactly the live appointments, latest date first |
| MedicalRepository.GetAppointmentByID | backend/repository/medical_repository.go:132-136 | a live appointment with that id, or record-not-found iff there is none (soft-deleted rows are invisible) |
| MedicalRepository.GetConsultationByAppointment | backend/repository/medical_repository.go:156-160 | the consultation of that appointment with the smallest key, or `RecordNotFound` iff there is none |
| MedicalRepository.GetPrescriptionsByConsultation | backend/repository/medical_repository.go:166-170 | exactly the prescriptions of that consultation, in table order (one admissible order) |
| MedicalRepository.GetPrescriptionsByPatient | backend/repository/medical_repository.go:172-181 | exactly the prescriptions whose consultation's appointment belongs to the patient, newest first. The raw join ignores soft deletion |
| MedicalRepository.CreateDoctorEffect | backend/repository/medical_repository.go:89-91 | `Create` on the doctors table |
| MedicalRepository.UpdateDoctorEffect | backend/repository/medical_repository.go:93-98 | `Updates` of department and specialization: a zero key has no WHERE clause and fails. Otherwise only those two columns of the row with that key change |
| MedicalRepository.UpdatePatientEffect | backend/repository/medical_repository.go:112-114 | `Save` on the patients table |
| MedicalRepository.CreateAppointmentEffect | backend/repository/medical_repository.go:116-118 | `Create` on the appointments table, keeping the sequence ahead |
| MedicalRepository.UpdateAppointmentEffect | backend/repository/medical_repository.go:138-140 | `Save` on the appointments table, keyed by id |
| MedicalRepository.DeleteAppointmentEffect | backend/repository/medical_repository.go:148-150 | soft delete: every live row with that key is marked deleted and nothing else changes |
| MedicalRepository.CreateConsultationEffect | backend/repository/medical_repository.go:152-154 | `Create` on the consultations table |
| MedicalRepository.CreatePrescriptionEffect | backend/repository/medical_repository.go:162-164 | `Create` on the prescriptions table |
| MedicalRepository.UpdatePrescriptionEffect | backend/repository/medical_repository.go:183-185 | `Save` on the prescriptions table |
| MedicalRepository.DeleteHidesAppointment | backend/repository/medical_repository.go:148-150 | after a delete, that id is in none of the appointment queries and the lookup by id fails |
| MedicalRepository.DeleteKeepsPrescriptions | backend/repository/medical_repository.go:172-181 | deleting an appointment changes no patient's prescription list |
| MedicalRepository.SameLinksSameOwner | backend/repository/medical_repository.go:172-181 | prescription ownership depends only on the consultation and appointment links |
| MedicalRepository.CreateDoctor | backend/repository/medical_repository.go:89-91 | the method follows `CreateDoctorEffect` |
| MedicalRepository.UpdateDoctor | backend/repository/medical_repository.go:93-98 | the method follows `UpdateDoctorEffect` |
| MedicalRepository.UpdatePatient | backend/repository/medical_repository.go:112-114 | the method follows `UpdatePatientEffect` |
| MedicalRepository.CreateAppointment | backend/repository/medical_repository.go:116-118 | the method follows `CreateAppointmentEffect` |
| MedicalRepository.UpdateAppointment | backend/repository/medical_repository.go:138-140 | the method follows `UpdateAppointmentEffect` |
| MedicalRepository.DeleteAppointment | backend/repository/medical_repository.go:148-150 | the method follows `DeleteAppointmentEffect` |
| MedicalRepository.CreateConsultation | backend/repository/medical_repository.go:152-154 | the method follows `CreateConsultationEffect` |
| MedicalRepository.CreatePrescription | backend/repository/medical_repository.go:162-164 | the method follows `CreatePrescriptionEffect` |
| MedicalRepository.UpdatePrescription | backend/repository/medical_repository.go:183-185 | the method follows `UpdatePrescriptionEffect` |
| MedicalService.BookingLayoutsDisjoint | backend/services/medical_service.go:85-92 | no string parses under both layouts. The booking instant is the RFC 3339 reading, else the `2006-01-02T15:04` reading |
| MedicalService.BookAppointmentEffect | backend/services/medical_service.go:84-103 | an unparsable date fails and changes nothing. A success appends exactly one `Scheduled` appointment with the given patient, doctor and parsed instant under the next key. Only the appointments table can change |
| MedicalService.BookingAlwaysInserts | backend/services/medical_service.go:94-102 | whatever the store holds, a parsable date is booked once the insert is served |
| MedicalService.DoubleBookingAccepted | backend/services/medical_service.go:94-102 | two bookings of the same doctor at the same instant both succeed, as two distinct appointments |
| MedicalService.BookAppointment | backend/services/medical_service.go:84-103 | the method follows `BookAppointmentEffect` |
| MedicalService.CancelAppointmentEffect | backend/services/medical_service.go:105-112 | an unknown id fails with the lookup error and changes nothing. Only appointments can change |
| MedicalService.CancelSetsStatus | backend/services/medical_service.go:105-112 | on a live appointment, the status becomes `Cancelled` whatever it was. Every other field and row is unchanged |
| MedicalService.RewriteStatus | backend/services/medical_service.go:136-139 | saving a found appointment with a new status rewrites that row alone |
| MedicalService.CancelAppointment | backend/services/medical_service.go:105-112 | the method follows `CancelAppointmentEffect` |
| MedicalService.Issued | backend/services/medical_service.go:150-156 | one `Issued` prescription per medication, in input order. Each names the consultation, takes the next key and is stamped by the clock at its own insert statement |
| MedicalService.IssuedInOrder | backend/services/medical_service.go:150-156 | with a clock that moves forward between statements, each medication of a completion is stamped later than the one before it |
| MedicalService.LaterMedicationListedFirst | backend/repository/medical_repository.go:172-181 | in a newest-first listing of prescriptions, a medication entered later in the completion request is listed before one entered earlier |
| MedicalService.IssueOutcome | backend/services/medical_service.go:150-156 | the create loop appends the first `m` issued prescriptions, where `m` counts the served statements. Each is stamped with the clock at its own statement. It succeeds iff all were served and otherwise stops at the first failure |
| MedicalService.IssueFirst | backend/services/medical_service.go:150-156 | one served create stores the prescription under the next key |
| MedicalService.CompleteAppointmentEffect | backend/services/medical_service.go:130-159 | an unknown id fails and changes nothing. Users and profiles never change |
| MedicalService.CompleteOutcome | backend/services/medical_service.go:136-157 | on a live appointment: success iff every statement is served. Once the save is served the row is `Completed`, with every other row unchanged. Then exactly one consultation with this appointment, diagnosis and notes is added. It is followed by the issued prescriptions for it, the `i`-th stamped `clock(3 + i)`. A failure part way leaves the earlier writes in place |
| MedicalService.ConsultationLands | backend/services/medical_service.go:141-148 | the consultation is stored under the next consultation key |
| MedicalService.CompleteAppointment | backend/services/medical_service.go:130-159 | the method, with its loop, follows `CompleteAppointmentEffect` |
| MedicalService.DeleteAppointment | backend/services/medical_service.go:126-128 | forwards to the repository's soft delete |
| MedicalService.UpdatePrescriptionStatusAsWritten | backend/services/medical_service.go:169-173 | the code as written: `Save` of a record holding only id and status |
| MedicalService.UpdatePrescriptionStatusBlanksRow | backend/services/medical_service.go:171 | as written, the stored row loses its consultation, medication, dosage and creation time |
| MedicalService.UpdateUnknownPrescriptionInserts | backend/services/medical_service.go:171 | as written, an unknown id inserts a blank prescription |
| MedicalService.UpdatePrescriptionStatusExample | backend/services/medical_service.go:171 | as written, a concrete issued prescription marked dispensed loses its drug and dose |
| MedicalService.UpdatePrescriptionStatusEffect | backend/services/medical_service.go:169-173 | the intended update: a zero id fails, and otherwise only the status of the row with that key changes |
| MedicalService.UpdatePrescriptionStatusKeepsHistory | backend/services/medical_service.go:169-173 | under the intended update, every prescription of a patient stays in that patient's list, with only its status changed |
| MedicalService.UpdatePrescriptionStatus | backend/services/medical_service.go:169-173 | the method follows `UpdatePrescriptionStatusEffect` |
| MedicalService.GetPatientHistory | backend/services/medical_service.go:175-190 | exactly the patient's live appointments and prescriptions, each the repository's newest-first list, or the first query's error |
| MedicalService.SaveKeepsStatusesKnown | backend/models/models.go:58 | saving an appointment with one of the three statuses keeps every stored status among them |
| MedicalService.BookKeepsStatusesKnown | backend/services/medical_service.go:94-101 | booking keeps every stored appointment status among Scheduled, Cancelled and Completed |
| MedicalService.CancelKeepsStatusesKnown | backend/services/medical_service.go:105-112 | cancelling keeps every stored appointment status among the three |
| MedicalService.CompleteKeepsStatusesKnown | backend/services/medical_service.go:130-159 | completing keeps every stored appointment status among the three |
| MedicalService.DeleteKeepsStatusesKnown | backend/services/medical_service.go:126-128 | the soft delete keeps every stored appointment status among the three |
| MedicalService.IssuedStatusKnown | backend/services/medical_service.go:152 | a completion issues only prescriptions with status `Issued` |
| MedicalService.PrescriptionStatusUnchecked | backend/handlers/medical_handler.go:227-236 | the status update stores any string, so a prescription can leave the two statuses of models.go:82 |
| UserService.UpdateUserRoleEffect | backend/services/user_service.go:31-64 | an unknown user fails and changes nothing. Appointments and their records never change. A role other than doctor or patient creates no profile |
| UserService.UpdateUserRoleSetsRole | backend/services/user_service.go:37-40 | the found user's role is saved before any profile work, and every other user is unchanged |
| UserService.DoctorRoleProfile | backend/services/user_service.go:43-52 | an existing doctor profile is left alone. A missing one becomes `Doctor{ID: id, Specialization: "Pending..."}`, and when that insert is not served the call fails with the role already saved |
| UserService.PatientRoleProfile | backend/services/user_service.go:53-61 | likewise with `Patient{ID: id}` |
| UserService.UpdateUserRoleAddsOnly | backend/services/user_service.go:43-61 | the only profiles added carry the user's own id |
| UserService.UpdateUserRoleKeepsOwnership | backend/services/user_service.go:43-61 | every doctor and patient profile keeps an owning user |
| UserService.UpdateUserRole | backend/services/user_service.go:31-64 | the method follows `UpdateUserRoleEffect` |
| UserService.RefreshProfile | backend/services/user_service.go:71-78 | picture and name are each replaced only by a non-empty claim, and nothing else changes |
| UserService.FirstLoginUser | backend/services/user_service.go:91-96 | the intended new user: an admin with the claims' email, Google id, name and picture |
| UserService.RepeatSignIn | backend/services/user_service.go:67-87 | for a known email the refreshed user is returned. The store changes only in that row, and not at all when nothing changed |
| UserService.FirstSignIn | backend/services/user_service.go:89-110 | an unknown email and Google id give exactly one new admin user under the next key and a patient record with the same key |
| UserService.TwoSignUps | backend/services/user_service.go:89-110 | with the Google id stored, two new users with distinct emails and Google ids both sign up, under consecutive keys |
| UserService.GetOrCreateUserByClaimsEffect | backend/services/user_service.go:66-113 | the whole sign-in, with the Google id stored: a lookup that is not served fails and changes nothing, and the store stays valid |
| UserService.GetOrCreateUserByClaims | backend/services/user_service.go:66-113 | the method follows `GetOrCreateUserByClaimsEffect` |
| UserService.FirstLoginUserAsWritten | backend/services/user_service.go:91-96 | the code as written: the new user's Google id is left empty |
| UserService.GetOrCreateUserByClaimsAsWritten | backend/services/user_service.go:66-113 | the sign-in as written |
| UserService.SecondSignUpRejected | backend/services/user_service.go:98-100 | as written, once any user has an empty Google id, every new email is rejected by the unique google_id index |
| UserService.TwoSignUpsAsWritten | backend/services/user_service.go:98-100 | as written, the second of two sign-ups with different emails into an empty store fails with a duplicate key |
| Auth.StringClaim | backend/utils/auth.go:41-52 | a claim's text when it is present and a string, else "" |
| Auth.ClaimsOf | backend/utils/auth.go:37-52 | authenticated iff the email claim is a string. A missing or null email gives "email not found". Email and Google id come from the token, and name and picture only when they are strings |
| Auth.ValidateAndExtractClaims | backend/utils/auth.go:19-54 | an empty header is refused as unauthorized |
| Auth.CheckToken | backend/utils/auth.go:29-39 | a rejected token gives "invalid Google Token: " plus the reason. An accepted one continues with its claims |
| Auth.NoSpaceRefused | backend/utils/auth.go:24-27 | a non-empty header without a space is refused as badly formatted |
| Auth.TokenIsRemainder | backend/utils/auth.go:24-32 | the token is everything after the first space, unchanged, even when empty or spaced. A scheme that is not "bearer" in some letter case is refused |
| Auth.BearerHeader | backend/utils/auth.go:25 | any spelling of the scheme whose lower case is "bearer" is accepted |
| Auth.SchemeCaseInsensitive | backend/utils/auth.go:25 | "BEARER", "bearer" and "Bearer" all pass the token on |
| Strings.SplitFirst | backend/utils/auth.go:24 | `strings.SplitN(s, " ", 2)`: one part iff there is no space. Otherwise the text before the first space and the rest |
| Strings.Lower | backend/utils/auth.go:25 | lower case of the ASCII letters, one character at a time; other characters are kept |
| Strings.ParseUint32OrDefault | backend/handlers/medical_handler.go:84 | `ParseUint(…, 10, 32)` with the error dropped: never above 2^32-1 |
| Strings.ParseIdRoundTrip | backend/handlers/medical_handler.go:84 | every decimal id up to 2^32-1 reads back as itself |
| Strings.ParseNonNumericIsZero | backend/handlers/medical_handler.go:84 | a parameter that does not start with a digit reads as 0 |
| Strings.DecimalRoundTrip | frontend/src/pages/Patients.tsx:132 | decimal rendering reads back as the number |
| Strings.PadZerosReadsBack | frontend/src/pages/Patients.tsx:132 | padding digits with leading zeros keeps their value |
| Strings.IncludesIffOccurs | frontend/src/pages/Patients.tsx:59-62 | `includes` holds iff the needle occurs at some position |
| MedicalHandler.Append | backend/handlers/medical_handler.go:97-103 | `append` on a possibly-nil slice: the elements are concatenated, and the result is nil iff both sides are empty and the left is nil |
| MedicalHandler.Answer | backend/handlers/medical_handler.go:181-186 | a service error maps to 500 with an error body, and success to the given status |
| MedicalHandler.PathId | backend/handlers/medical_handler.go:84 | a path id is at most 2^32-1, and a non-numeric one is 0 |
| MedicalHandler.PathIdRoundTrip | backend/handlers/medical_handler.go:167 | a client's decimal id is the id the handler uses |
| MedicalHandler.GetMyAppointments | backend/handlers/medical_handler.go:116-142 | the method, with its reassignments, follows the role projection `MyAppointments` |
| MedicalHandler.AdminSeesAll | backend/handlers/medical_handler.go:123-124 | an admin gets exactly `GetAllAppointments` |
| MedicalHandler.DoctorSeesBoth | backend/handlers/medical_handler.go:127-139 | a doctor gets the doctor list followed by the patient list. A failed patient query leaves the doctor list, and a failed doctor query gives 500 |
| MedicalHandler.OthersSeePatientList | backend/handlers/medical_handler.go:131-141 | any other role gets the patient list only, and a failed query is swallowed into `null` with 200 |
| MedicalHandler.Availability | backend/handlers/medical_handler.go:97-104 | one (date, status) entry per appointment, in order. The feed is `null` iff there are none |
| MedicalHandler.BuildAvailability | backend/handlers/medical_handler.go:97-103 | the append loop builds exactly `Availability` |
| MedicalHandler.AvailabilityPush | backend/handlers/medical_handler.go:99-102 | one loop step appends the entry of the next appointment |
| MedicalHandler.GetDoctorAvailability | backend/handlers/medical_handler.go:82-105 | 500 when the query fails, else 200 with the feed of the parsed doctor id |
| MedicalHandler.AvailabilityOfEach | backend/handlers/medical_handler.go:98-103 | every appointment has an entry, and every entry comes from an appointment |
| MedicalHandler.AvailabilityCoversAll | backend/handlers/medical_handler.go:98-103 | cancelled and completed appointments appear too: there is no status filter |
| MedicalHandler.SlotDateParses | backend/handlers/medical_handler.go:100 | a feed date read back as RFC 3339 is the appointment's instant to the second |
| MedicalHandler.CreateAppointment | backend/handlers/medical_handler.go:144-163 | a bad body gives 400 and changes nothing. Otherwise the booking is made for the authenticated user, answering 201 on success and 500 on error |
| MedicalHandler.BookedForCaller | backend/handlers/medical_handler.go:150-162 | a booked appointment belongs to the caller and is stored |
| MedicalHandler.CompleteAppointment | backend/handlers/medical_handler.go:165-187 | 400 on a bad body. Otherwise the completion of the parsed id, answering 500 on error and 200 on success |
| MedicalHandler.CancelAppointment | backend/handlers/medical_handler.go:189-200 | the cancellation of the parsed id, answering 500 on error and 200 on success |
| MedicalHandler.DeleteAppointment | backend/handlers/medical_handler.go:202-211 | the deletion of the parsed id, answering 500 on error and 200 on success |
| MedicalHandler.NonNumericCancelFails | backend/handlers/medical_handler.go:191 | a non-numeric id cancels id 0, which no store holds: 500 and nothing changes |
| MedicalHandler.UpdatePrescription | backend/handlers/medical_handler.go:223-243 | 400 on a bad body. Otherwise the intended status update of the parsed id (see Findings), answering 500 on error and 200 on success |
| MedicalHandler.MyPrescriptions | backend/handlers/medical_handler.go:213-221 | 500 iff the query fails. Otherwise 200 with exactly the caller's prescriptions, newest first, as the repository lists them |
| MedicalHandler.PatientHistory | backend/handlers/medical_handler.go:245-256 | 500 iff a query fails. Otherwise 200 with the patient's history |
| GoTime.Zone | backend/services/medical_service.go:85 | `Z07:00`: `Z` is UTC, otherwise a signed `hh:mm` offset within ±25 hours |
| GoTime.DateHourMinute | backend/services/medical_service.go:89 | `2006-01-02T15:04`: a valid month, hour and minute, no seconds |
| GoTime.ParseRendered | backend/handlers/medical_handler.go:100 | the RFC 3339 rendering of wall-clock fields with a four-digit year parses back to the same instant |
| GoTime.FormatParseRoundTrip | backend/handlers/medical_handler.go:100 | formatting an instant as RFC 3339 and parsing it back gives the instant truncated to whole seconds |
| Civil.DaysInMonth | frontend/src/pages/Dashboard.tsx:103 | the Gregorian month length: February has 29 days iff the year is a leap year |
| Civil.DateOfDayNumber | frontend/src/pages/Dashboard.tsx:103 | day numbers and civil dates are inverse |
| Civil.NextMonthStart | frontend/src/pages/Dashboard.tsx:103 | the day after a month's last day is the 1st of the next month |
| Dashboard.LocalOf | frontend/src/pages/Dashboard.tsx:103 | a JavaScript `Date` read back from a day number is a valid local date |
| Dashboard.MonthStart | frontend/src/pages/Dashboard.tsx:164-166 | the 1st of a month given possibly out of range, with the year carried; the callers pass the full year |
| Dashboard.TwoDigitYears | frontend/src/pages/Dashboard.tsx:103-104 | `new Date(y, m, d)` with a year 0..99 is the same day as with year 1900 + y, and so are the month length and the weekday of the 1st |
| Dashboard.TwoDigitFebruary | frontend/src/pages/Dashboard.tsx:103 | February of a year 0..99 has 29 days iff the year is a multiple of 4 other than 0, as in the 1900s |
| Dashboard.FebruaryLength | frontend/src/pages/Dashboard.tsx:103 | February has 29 days in a leap full year and 28 otherwise |
| Dashboard.FirstOfMonth | frontend/src/pages/Dashboard.tsx:165 | `new Date(y, m, 1)` is the 1st of month `m`, with rollover, of the full year (1900 + y for a year 0..99) |
| Dashboard.MonthAway | frontend/src/pages/Dashboard.tsx:165 | the month `offset` months away from the full year and month, at its 1st |
| Dashboard.GetDaysInMonth | frontend/src/pages/Dashboard.tsx:103 | `new Date(y, m + 1, 0).getDate()` is the Gregorian length of month `m` of the full year after rollover, between 28 and 31 |
| Dashboard.LastDayOfMonth | frontend/src/pages/Dashboard.tsx:103 | day 0 of the next month is the last day of this one |
| Dashboard.DaysInMonthCases | frontend/src/pages/Dashboard.tsx:103 | February has 29 days iff the full year is a leap year. Month -1 is December of the full year before and month 12 is January of the full year after |
| Dashboard.GetFirstDayOfMonth | frontend/src/pages/Dashboard.tsx:104 | the weekday of the 1st, Sunday = 0, in 0..6 |
| Dashboard.March2024 | frontend/src/pages/Dashboard.tsx:104 | 1 March 2024 is a Friday |
| Dashboard.Headers | frontend/src/pages/Dashboard.tsx:130-133 | seven weekday headers |
| Dashboard.CalendarLayout | frontend/src/pages/Dashboard.tsx:123-162 | the grid has 7 headers, then one filler per weekday before the 1st, then one cell per day of the month |
| Dashboard.CalendarDays | frontend/src/pages/Dashboard.tsx:142-159 | cell `6 + first + d` is day `d`, with its today, selected and has-appointment marks |
| Dashboard.CalendarFillers | frontend/src/pages/Dashboard.tsx:136-139 | the fillers show the last `first` days of the previous month |
| Dashboard.CellsAt | frontend/src/pages/Dashboard.tsx:130-159 | the cell at every position of the grid |
| Dashboard.RenderCalendar | frontend/src/pages/Dashboard.tsx:123-162 | the method, with its push loops, builds exactly the grid `Calendar` |
| Dashboard.PushHeaders | frontend/src/pages/Dashboard.tsx:130-133 | the header loop pushes the seven headers |
| Dashboard.PushFillers | frontend/src/pages/Dashboard.tsx:136-139 | the filler loop pushes exactly the fillers |
| Dashboard.PushDays | frontend/src/pages/Dashboard.tsx:142-159 | the day loop pushes exactly the day cells |
| Dashboard.FillersArePreviousDays | frontend/src/pages/Dashboard.tsx:136-139 | the filler labels are real days of the previous month, in ascending order and ending at its last day |
| Dashboard.HasApptIffSomeOnDay | frontend/src/pages/Dashboard.tsx:145-148 | a day is marked iff some appointment, of any status, falls on it |
| Dashboard.AppointmentsOn | frontend/src/pages/Dashboard.tsx:111 | exactly the appointments on that day, in order |
| Dashboard.FilteredOperations | frontend/src/pages/Dashboard.tsx:168-175 | with a filter, that day's appointments in list order. Without one, the first 6 |
| Dashboard.DateParamFields | frontend/src/pages/Dashboard.tsx:56 | the URL date is `YYYY-MM-DD`, zero-padded, with a 1-based month; each field reads back |
| Dashboard.UrlDate | frontend/src/pages/Dashboard.tsx:54-62 | the URL carries a date iff a filter is set |
| Dashboard.DashboardPage.constructor | frontend/src/pages/Dashboard.tsx:37-52 | the page starts on the given date, with that day selected and no day detail open |
| Dashboard.DashboardPage.Operations | frontend/src/pages/Dashboard.tsx:168-175 | the operations list of the current state |
| Dashboard.DashboardPage.HandleDayClick | frontend/src/pages/Dashboard.tsx:106-121 | the filter is always set to the clicked day. The detail opens iff that day has appointments, and then lists exactly those |
| Dashboard.DashboardPage.ChangeMonth | frontend/src/pages/Dashboard.tsx:164-166 | moves to the 1st of month plus offset, with year rollover, from the full year (1900 + y for a year 0..99) |
| Dashboard.DashboardPage.ClearFilter | frontend/src/pages/Dashboard.tsx:279 | clears the filter |
| Dashboard.DashboardPage.CloseDayDetail | frontend/src/pages/Dashboard.tsx:332 | closes the day detail |
| Dashboard.ChangeMonthBackAndForth | frontend/src/pages/Dashboard.tsx:164-166 | moving `offset` months and back returns to the 1st of the starting month of the full year, unless the first move lands in a year 0..99 |
| AppointmentsPage.SetField | frontend/src/pages/Appointments.tsx:133-137 | one field of an entry changes and the other is kept |
| AppointmentsPage.RemoveAt | frontend/src/pages/Appointments.tsx:132 | `filter((_, i) => i !== index)`: the entry at `index` is dropped, and an index out of range drops nothing |
| AppointmentsPage.RemoveAtPositions | frontend/src/pages/Appointments.tsx:132 | the length drops by one and the others keep their order |
| AppointmentsPage.AddThenRemove | frontend/src/pages/Appointments.tsx:131-132 | removing the entry just added restores the list |
| AppointmentsPage.ParseIntPrefix | frontend/src/pages/Appointments.tsx:71 | `parseInt` of an empty string is `NaN` |
| AppointmentsPage.ParseDigits | frontend/src/pages/Appointments.tsx:71 | a number iff the text starts with a digit |
| AppointmentsPage.ParseIntOfId | frontend/src/pages/Appointments.tsx:71 | the doctor option's decimal id reads back as the id |
| AppointmentsPage.CompletionBody | frontend/src/pages/Appointments.tsx:87-91 | diagnosis, notes and the medications, in list order, reduced to `{medication, dosage}` |
| AppointmentsPage.CompletionIssuesRows | frontend/src/pages/Appointments.tsx:87-91 | the backend issues one prescription per entry, with its drug and dose, in order |
| AppointmentsPage.PathCarriesId | frontend/src/pages/Appointments.tsx:103 | the appointment path carries the id, and the handler parses it back |
| AppointmentsPage.Actions | frontend/src/pages/Appointments.tsx:201-221 | Complete iff a doctor and `Scheduled`. Cancel iff `Scheduled`. Delete iff an admin, whatever the status |
| AppointmentsPage.ActionsAfterScheduled | frontend/src/pages/Appointments.tsx:201-221 | a settled appointment offers only Delete, to an admin. A patient can at most cancel |
| AppointmentsPage.Badge | frontend/src/pages/Appointments.tsx:170 | `success` iff `Completed`, `primary` iff `Scheduled`, otherwise `warning` |
| AppointmentsPage.BadgeOfCancelled | frontend/src/pages/Appointments.tsx:170 | a cancelled appointment gets `warning` |
| AppointmentsPage.HandleCancel | frontend/src/pages/Appointments.tsx:100-108 | a request is sent iff confirmed, and then it is the PUT to `/cancel` |
| AppointmentsPage.HandleDelete | frontend/src/pages/Appointments.tsx:110-118 | a request is sent iff confirmed, and then it is the DELETE |
| AppointmentsPage.Page.constructor | frontend/src/pages/Appointments.tsx:46 | the role is the stored one, or `patient` when none or empty. The forms start empty |
| AppointmentsPage.Page.AddMed | frontend/src/pages/Appointments.tsx:131 | appends one blank entry |
| AppointmentsPage.Page.RemoveMed | frontend/src/pages/Appointments.tsx:132 | removes exactly that entry |
| AppointmentsPage.Page.UpdateMed | frontend/src/pages/Appointments.tsx:133-137 | changes one field of one entry. An index out of range throws and changes nothing |
| AppointmentsPage.Page.ResetBookForm | frontend/src/pages/Appointments.tsx:120-123 | empties the doctor and the date |
| AppointmentsPage.Page.ResetCompleteForm | frontend/src/pages/Appointments.tsx:125-129 | empties diagnosis, notes and medications |
| AppointmentsPage.Page.HandleBook | frontend/src/pages/Appointments.tsx:67-80 | posts the parsed doctor id and date. On success it closes and resets the form, and otherwise keeps it |
| AppointmentsPage.Page.HandleComplete | frontend/src/pages/Appointments.tsx:82-98 | with no appointment open, or id 0, it sends nothing. Otherwise it sends the completion body to that appointment and resets on success |
| Search.EmptySearchMatches | frontend/src/pages/Patients.tsx:59-62 | an empty search matches everyone |
| Search.SearchIgnoresTermCase | frontend/src/pages/Patients.tsx:59-62 | lower-casing the term (ASCII letters) does not change the match |
| Search.NamePartMatches | frontend/src/pages/Patients.tsx:59-62 | a term inside the name matches |
| PatientsPage.FilteredPatients | frontend/src/pages/Patients.tsx:59-62 | a patient is kept iff the term is in the name or email, both with ASCII letters lower-cased. The result keeps input order |
| PatientsPage.EmptySearchKeepsAll | frontend/src/pages/Patients.tsx:59-62 | an empty search keeps everyone |
| PatientsPage.PastAppointments | frontend/src/pages/Patients.tsx:176 | at most the first 3 `Completed` appointments, in history order |
| PatientsPage.NoConsultationsIffEmpty | frontend/src/pages/Patients.tsx:185 | the message shows iff no appointment is `Completed` |
| PatientsPage.RecentPrescriptions | frontend/src/pages/Patients.tsx:197 | the first 3 prescriptions |
| PatientsPage.NoPrescriptionsIffEmpty | frontend/src/pages/Patients.tsx:203 | the message shows iff the list is empty |
| PatientsPage.RecordId | frontend/src/pages/Patients.tsx:132 | the id, zero-padded to at least 5 characters |
| PatientsPage.RecordIdReadsBack | frontend/src/pages/Patients.tsx:132 | the padded id is all digits and reads back as the id |
| AdminUsers.FilteredUsers | frontend/src/pages/AdminUsers.tsx:47-50 | a user is kept iff the term is in the name or email, ignoring the case of ASCII letters. The result keeps input order |
| AdminUsers.EmptySearchKeepsAll | frontend/src/pages/AdminUsers.tsx:47-50 | an empty search keeps everyone |
| AdminUsers.FoundCount | frontend/src/pages/AdminUsers.tsx:75 | the count is the length of the filtered list, and equals the number of users iff all match |
| AdminUsers.RoleOptionsAreTheRoles | frontend/src/pages/AdminUsers.tsx:132-134 | the options are exactly the three roles, each once |
| AdminUsers.OnlyUpdatedUserLocked | frontend/src/pages/AdminUsers.tsx:129 | a selector is disabled iff `updating` holds its user's id |
| AdminUsers.RoleRequestFor | frontend/src/pages/AdminUsers.tsx:37 | the PUT to `/api/v1/users/{id}/role` with the new role |
| AdminUsers.RolePathCarriesId | backend/handlers/user_handler.go:47-56 | the id segment of the role path parses back, under `ParseUint(…, 10, 32)`, to the user's id |
| AdminUsers.Loaded | frontend/src/pages/AdminUsers.tsx:26 | `res.data \|\| []`: a `null` list is empty |
| AdminUsers.AdminUsersPage.constructor | frontend/src/pages/AdminUsers.tsx:17 | starts with no users, no search and nothing updating |
| AdminUsers.AdminUsersPage.Shown | frontend/src/pages/AdminUsers.tsx:47-50 | the shown users are the stored users matching the search, ignoring the case of ASCII letters |
| AdminUsers.AdminUsersPage.SetSearch | frontend/src/pages/AdminUsers.tsx:47-50 | just the search term changes |
| AdminUsers.AdminUsersPage.FetchUsers | frontend/src/pages/AdminUsers.tsx:23-32 | a response replaces the list, and a failure keeps it |
| AdminUsers.AdminUsersPage.BeginRoleUpdate | frontend/src/pages/AdminUsers.tsx:35-37 | marks the user as updating and sends the role request |
| AdminUsers.AdminUsersPage.FinishRoleUpdate | frontend/src/pages/AdminUsers.tsx:38-44 | clears `updating` whatever the outcome. The list is refreshed only after an accepted request and a served refetch |
| AdminUsers.AdminUsersPage.UpdateUserRole | frontend/src/pages/AdminUsers.tsx:34-45 | the user's selector is locked during the request, and afterwards nothing is locked |

## Left out

- Departments are left out: `GetAllDepartments`, `CreateDepartment`, `UpdateDepartment` and `DeleteDepartment`, with their service and handler wrappers. The `Department` record exists, but its unique name index is not enforced.
- `GetDoctorPrescriptions` calls a repository method that does not exist.
- The Casbin middleware, routing, configuration, database connection and logging are not part of this model. Of `user_handler.go`, only the id parse of `UpdateUserRole` is modelled, through `MedicalHandler.PathId`, which parses the same way.
- The frontend's login, layout and prescriptions pages are not part of this model.
- GORM preloading of associations is left out: queries return bare rows.
- `CreatedAt`/`UpdatedAt` on every table except `prescriptions.created_at` are left out, because the code never reads them.
- The texts of database errors are left out: `DbError` only names the kind.
- None of the ORDER BY queries fixes an order among equal dates. The model keeps such rows in table order, which is one admissible order. The finds without ORDER BY (`GetAllPatients`, `GetPrescriptionsByConsultation`) are likewise given in table order, one admissible order of rows SQL returns unordered.
- Concurrency is left out (two requests interleaving): each repository statement is one atomic step.
- Google's ID-token validation (`idtoken.Validate`) is a network call. It is the `verify` parameter of `Auth.ValidateAndExtractClaims`.
- HTTP request binding is left out: a body that fails to bind is `None`.
- The clock GORM reads for `prescriptions.created_at` is the `clock` parameter of the completion: the instant at which each statement runs, so each prescription insert gets its own reading. That the clock moves forward is a premise of `MedicalService.IssuedInOrder`, not a fact the model derives.
- `MedicalService.CompleteAppointment`: the request's medications are bound as whole `Prescription` records, while the model's `Medication` carries only the drug and the dose, so the fields a client may add, which GORM keeps on insert, are not modelled: a non-zero `ID` is inserted under that key instead of the sequence value (a taken key then fails as a duplicate after the appointment is already `Completed` and the consultation inserted); a non-null `DeletedAt` hides the new prescription from soft-delete-aware queries; a non-zero `CreatedAt` or `UpdatedAt` replaces the clock reading; and a nested `Consultation` is saved with the row.
- `MedicalHandler.CompleteAppointment`: the same gap. The bound `Medications []models.Prescription` can carry `ID`, `CreatedAt`, `UpdatedAt`, `DeletedAt` and a nested `Consultation`, which the model's request cannot express.
- Browser `confirm`/`alert` dialogs, the network answers and `localStorage` are parameters of the page methods: `confirmed`, `accepted`, `stored`, `refetch`.
- The page refetches (`fetchData`) are left out.
- Time zones are left out: all instants are UTC. The JavaScript `Date` conversion of `AppointmentDate` is left out too; calendar appointments arrive as local year, month and day.
- `models.RFC3339NoNano` is not defined in the shown code; it is taken as RFC 3339 with whole seconds.
- `new Date(dateParam)` parsing of the URL date is left out (the dashboard constructor takes the start date); the URL update itself is the value `Dashboard.UrlDate`.
- `GoTime.FormatRFC3339UTC`: only years 0 to 9999 are proved to round-trip, because Go formats other years too but cannot parse them under this layout.
- `AppointmentsPage.ParseIntPrefix`: the leading whitespace that `parseInt` skips is not modelled (the sign is), because the ids it reads are rendered digits.
- `AppointmentsPage.Page.UpdateMed`: the model with a fresh list does not capture that `[...meds]` is a shallow copy, so the code also mutates the entry object the old list shares.
- `Dashboard.March2024`: only the weekday of the 1st is stated for this concrete month; month lengths are covered in general by `Dashboard.DaysInMonthCases`.
- `Strings.Lower`: only ASCII letters are folded. JavaScript `toLowerCase` and Go `strings.ToLower` fold all of Unicode, so a term "É" matches a name "éva" on the page but not in the model.
- `Search.MatchesSearch`: the match ignores only the case of ASCII letters, because it is built on `Strings.Lower`.
- `Search.SearchIgnoresTermCase`: stated for ASCII case folding only, because it is built on `Strings.Lower`.
- `PatientsPage.FilteredPatients`: the search ignores only the case of ASCII letters, because it is built on `Strings.Lower`.
- `AdminUsers.FilteredUsers`: the search ignores only the case of ASCII letters, because it is built on `Strings.Lower`.
- `AdminUsers.AdminUsersPage.Shown`: the search ignores only the case of ASCII letters, because it is built on `Strings.Lower`.
- `MedicalHandler.UpdatePrescription`: the handler is modelled on the corrected service update, `MedicalService.UpdatePrescriptionStatusEffect`. The code as written answers through the blanking `Save` of `MedicalService.UpdatePrescriptionStatusAsWritten`, so the model does not capture the blank row the deployed handler leaves (see Findings).
- Prescription statuses are not kept among `Issued` and `Dispensed`: the status update stores the body's string unchecked, as `MedicalService.PrescriptionStatusUnchecked` shows. Appointment statuses are kept among the three by every service write.
- `MedicalService.UpdateUnknownPrescriptionInserts`: the blank row is stated with the zero creation time of the saved record. GORM's fallback `Create` would fill that zero `CreatedAt` with the current time; nothing else in the model reads it.
- The system description speaks of blank leading calendar cells. The code shows the last days of the previous month, and the model follows the code.
- The code has no slot generation, booking conflict check, status guard on cancel or complete, check that the actor is the assigned doctor, or validation of diagnosis and notes. The model has none either. `MedicalService.DoubleBookingAccepted` and `MedicalService.CancelSetsStatus` state the absence.

## Findings

| source | as written | input that shows it | evidently intended | confidence | as-written member | corrected member |
|---|---|---|---|---|---|---|
| backend/services/medical_service.go:171 | `UpdatePrescriptionStatus` saves a `Prescription` holding only `ID` and `Status`. `Save` writes every column, so it blanks the consultation link, medication, dosage and creation time; an unknown id even inserts a blank row | prescription 1 of consultation 7, "Amoxicillin" "500mg" `Issued`, updated to `Dispensed`: the row becomes consultation 0 with empty medication and dosage | only the status column of the row with that key changes | not executed | MedicalService.UpdatePrescriptionStatusExample | MedicalService.UpdatePrescriptionStatusKeepsHistory |
| backend/services/user_service.go:91-96 | `GetOrCreateUserByClaims` builds the new user without `GoogleID`, so every user gets "". `google_id` has a unique index, so once one user exists every later first sign-in fails with a duplicate key | an empty store, then sign-ins from two different email addresses: the second fails. The unique index comes from the model's struct tag; the migrations that build the live schema are not part of this model | the new user stores the token's Google id, so distinct users can sign up | not executed | UserService.TwoSignUpsAsWritten | UserService.TwoSignUps |
