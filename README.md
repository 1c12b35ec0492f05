# Snap-hire booking rules, modelled in Dafny

Snap-hire is a marketplace where clients book photographers. The code calls
photographers "doctors" and clients "patients", and this model keeps those
names. The server is an Express application over MongoDB. The client is a
set of React pages.

This project models the parts that decide or compute something:

- booking a slot, with its checks and its two writes;
- the appointment status changes made by doctors and by patients;
- reviews, accounts, logins and the admin's doctor approval;
- the Bearer-token middleware;
- the doctor's chart data and reports, and the site-wide report;
- the client's availability editor, doctor directory, booking page,
  dashboards with their CSV exports, and the review list on a profile.

How the source is turned into Dafny:

- **Store.** The database is `Store.Tables`, one sequence per collection
  plus an id counter. It is held in the mutable class `Store.Db`.
- **Route handlers.** Each state-changing handler is a method that takes the `Db`. Its
  `ensures` ties the reply and the new state to a pure function of the old
  state, such as `Booking.Book` or `PatientRoutes.Cancel`. The lemmas state
  what the source promises about that function.
- **Loops.** The `forEach` loops and `reduce`s that build counters
  (`generateGraphData`, the report reduces, `groupData`) are methods with
  loop invariants. They are proved equal to the fold they compute.
- **Client pages.** The page logic is written as functions over values.
  The one exception is the registration form: its availability editor
  changes its list in place, so it is a class.
- **Outside calls.** Stripe, bcrypt, JWT, the clock and locale date
  formatting are parameters of the functions that use them.

JavaScript objects used as counters (`acc[k] = (acc[k] || 0) + 1`) are
association lists, `Tally.Assoc`. Their keys keep insertion order, as
`Object.keys` does for string keys.

## Model

| member | source | states |
|---|---|---|
| Store.Db.SaveUser | server/controllers/authController.js:32-40 | Saving a user under the next id appends it, advances the counter and keeps ids unique; nothing else changes. |
| Store.Db.SaveDoctor | server/controllers/authController.js:43-53 | Saving a doctor profile under the next id appends it, advances the counter and keeps ids unique; nothing else changes. |
| Store.Db.SaveAdmin | server/controllers/authController.js:55-58 | Saving an admin record under the next id appends it, advances the counter and keeps ids unique; nothing else changes. |
| Store.FirstWhere | server/controllers/bookingController.js:33-37 | `findOne`/`find` returns the first index whose element satisfies the filter, or None exactly when no element does. |
| Store.AppendFresh | server/controllers/bookingController.js:77-90 | Saving a document with a fresh id keeps ids unique and below the counter. |
| Store.ReplaceSameId | server/routes/ratingsRoutes.js:67-69 | Saving a document back under its own id keeps ids unique. |
| Store.RemoveAt | server/routes/ratingsRoutes.js:94 | Deleting a document keeps ids unique. |
| AuthMiddleware.BearerSplit | server/middleware/authMiddleware.js:6-10 | A header that passes the "Bearer " test splits on spaces into "Bearer" followed by the pieces of the rest. |
| AuthMiddleware.TokenIsFirstWord | server/middleware/authMiddleware.js:10 | The token is the text after "Bearer " up to the next space, if there is one. |
| AuthMiddleware.TokenExamples | server/middleware/authMiddleware.js:10 | "Bearer a b" yields token "a"; "Bearer  a" (two spaces) yields the empty token. |
| AuthMiddleware.BearerRoundTrip | server/middleware/authMiddleware.js:6-15 | The client's `Bearer ${token}` header, for a token without spaces, reads back as that token, and the decision is the verifier's. |
| AuthMiddleware.NoBearerDenied | server/middleware/authMiddleware.js:6-8 | A missing header, or one not starting with exactly "Bearer ", is answered 401 "No token, authorization denied". |
| AuthMiddleware.SchemeIsCaseSensitive | server/middleware/authMiddleware.js:6 | "bearer abc" and a bare "Bearer" are both refused with 401. |
| AuthMiddleware.Authenticate | server/middleware/authMiddleware.js:3-19 | The middleware's decision for every header and verifier answer. Its properties are stated by `NextIffVerified`, `NoBearerDenied`, `SchemeIsCaseSensitive` and `BearerRoundTrip`. |
| AuthMiddleware.NextIffVerified | server/middleware/authMiddleware.js:3-19 | next is called exactly when the header has the Bearer form and the token verifies; req.user is then the payload's `user`; every refusal is 401. |
| Booking.SlotOffered | server/controllers/bookingController.js:23-25 | A slot passes exactly when some availability entry, of any weekday, lists it. |
| Booking.Book | server/controllers/bookingController.js:8-141 | The reply and new store of a booking, for every request and gateway answer. Its properties are stated by `RejectionWritesNothing`, `MissingFieldRejected`, `TakenSlotRejected`, `SuccessWrites`, `BookKeepsWellFormed` and `SecondBookingRejected`. |
| Booking.BookAppointment | server/controllers/bookingController.js:8-141 | The handler's reply and new store are those of `Book`, and the store stays well formed. |
| Booking.SaveBooking | server/controllers/bookingController.js:68-90 | The two saves: a Pending, Paid appointment under the next id and a Success payment pointing at it under the id after, with the fee as amount; ids stay unique and nothing else changes. |
| Booking.RejectionWritesNothing | server/controllers/bookingController.js:14-65 | Every rejection leaves the store unchanged and carries one of the listed messages. |
| Booking.MissingFieldRejected | server/controllers/bookingController.js:14-16 | A request missing doctorId, date, timeSlot or paymentMethodId gets 400 and writes nothing. |
| Booking.TakenSlotRejected | server/controllers/bookingController.js:33-42 | Any stored appointment with the same doctor, date and slot, whatever its status, makes the booking fail with 400. |
| Booking.SuccessWrites | server/controllers/bookingController.js:52-90 | Success adds exactly one Pending, Paid appointment and one Success payment linked to it. The gateway was asked for the fee times 100 and the payment records the fee. Nothing else changes. |
| Booking.BookKeepsWellFormed | server/controllers/bookingController.js:68-90 | The two new documents get fresh ids, so ids stay unique. |
| Booking.SecondBookingRejected | server/controllers/bookingController.js:33-42 | After a successful booking, another request for the same doctor, date and slot is refused as already booked. |
| AuthController.Register | server/controllers/authController.js:8-78 | The reply and new store of a registration, for every request. Its properties are stated by `RegisterCreates`, `DuplicateEmailRejected`, `MissingPasswordWritesNothing`, `DoctorProfileFailureKeepsUser` and `RegisterKeepsWellFormed`. |
| AuthController.RegisterUser | server/controllers/authController.js:8-78 | The handler's reply and new store are those of `Register`, and the store stays well formed. |
| AuthController.RegisterKeepsWellFormed | server/controllers/authController.js:32-58 | Registration keeps ids unique. |
| AuthController.DuplicateEmailRejected | server/controllers/authController.js:22-25 | An e-mail already on file gets 400 "User already exists" and nothing is created. |
| AuthController.RegisterCreates | server/controllers/authController.js:27-58 | A registration succeeds only with a password, and stores one user with its salted hash as password. A Doctor also gets one Pending profile with the supplied details, every availability entry of which has a day and non-empty slots. An Admin gets one admin record, and a Patient neither. |
| AuthController.MissingPasswordWritesNothing | server/controllers/authController.js:22-29 | A request without a password writes nothing: a known e-mail still gets 400 "User already exists", and a new one gets 500 "Server error", because hashing fails before the user is built. |
| AuthController.DoctorProfileFailureKeepsUser | server/controllers/authController.js:40-52 | A Doctor whose profile fails its schema is answered 500 but keeps the saved user account. The failures are a missing specialization, experience or fee, and an availability entry without a day or with an empty slot. |
| AuthController.Login | server/controllers/authController.js:81-125 | The reply to a login, for every e-mail and password. Its properties are stated by `LoginErrorIsUniform` and `RegisterThenLogin`. |
| AuthController.LoginErrorIsUniform | server/controllers/authController.js:81-125 | With a password sent, every login failure is the same 400 "Invalid credentials", whether the e-mail is unknown or the password is wrong. Without one, a known e-mail gets 500 "Server error", because the comparison rejects. Login succeeds exactly when a password is sent, the e-mail is on file and the password matches that user's hash. |
| AuthController.RegisterThenLogin | server/controllers/authController.js:86-119 | A newly registered account logs in with its password, as the new user and role. |
| AuthController.Approved | server/controllers/authController.js:212 | The listing holds exactly the doctors whose status is Approved. |
| AuthController.GetAllDoctors | server/controllers/authController.js:210-221 | The reply of the approved-doctor listing. Its properties are stated by `ListingIsApprovedOnly`. |
| AuthController.ListingIsApprovedOnly | server/controllers/authController.js:210-221 | `getAllDoctors` returns only approved doctors, and 404 exactly when there is none. |
| AuthController.UpdateProfile | server/controllers/authController.js:162-207 | The reply and new store of a profile update. Its properties are stated by `ProfileUpdateKeepsFalsy`, `DoctorProfileKeepsFalsy` and `ZeroCannotBeSet`. |
| AuthController.UpdateUserProfile | server/controllers/authController.js:162-207 | The handler's reply and new store are those of `UpdateProfile`, and the store stays well formed; a doctor profile that fails its schema is answered 500 after the user is saved. |
| AuthController.ProfileUpdateKeepsFalsy | server/controllers/authController.js:179-187 | A falsy name or contact keeps the old one and a truthy one replaces it. The image changes only with an upload. E-mail, password and role never change. No other user changes, nor do appointments, payments, reviews or admins. The doctors change only for a Doctor with a profile. |
| AuthController.DoctorProfileKeepsFalsy | server/controllers/authController.js:189-205 | A Doctor's profile takes each truthy specialization, experience, fee and availability and keeps each falsy one (missing, "" or 0). Any array replaces the availability, provided every entry has a day and non-empty slots. Otherwise the save fails: 500, with the user already saved and no doctor changed. Id, user and status stay, and no other doctor changes. |
| AuthController.ZeroCannotBeSet | server/controllers/authController.js:193-196 | Experience and fee sent as 0 keep the stored values. |
| AuthController.UpdateDoctorStatus | server/controllers/authController.js:229-246 | The reply and new store of the doctor status update. Its properties are stated by `DoctorStatusLeftToSchema`. |
| AuthController.SetDoctorStatus | server/controllers/authController.js:229-246 | The handler's reply and new store are those of `UpdateDoctorStatus`. |
| AuthController.DoctorStatusLeftToSchema | server/controllers/authController.js:230-244 | An unknown doctor gets 404 and no change; a body without `status` unsets the field (stored as the empty string, never Approved) and is answered with the doctor; any status in the schema's enum is stored, Pending included; any other value, the empty string too, is refused only by the schema, with 500 and no change; no table but the doctors ever changes. |
| AdminRoutes.CountAtMostLength | server/routes/adminRoutes.js:14-16 | A status count never exceeds the number of appointments, and equals it exactly when every appointment has that status. |
| AdminRoutes.GetStats | server/routes/adminRoutes.js:11-29 | The admin's figures over the store. Their properties are stated by `PendingAtMostTotal`, `RevenueIsTheSum` and `BookingMovesStats`. |
| AdminRoutes.PendingAtMostTotal | server/routes/adminRoutes.js:11-29 | pendingAppointments is at most totalAppointments, and equal exactly when all are Pending. |
| AdminRoutes.RevenueIsTheSum | server/routes/adminRoutes.js:18-28 | totalRevenue is 0 without payments, and adds up over any split of the payments in either order. |
| AdminRoutes.BookingMovesStats | server/routes/adminRoutes.js:11-29 | A successful booking adds one to total and pending appointments and to payments, and the doctor's fee to revenue; a rejected one changes no figure. |
| AdminRoutes.SetDoctorStatus | server/routes/adminRoutes.js:59-71 | The reply and new store of the admin's approval. Its properties are stated by `StatusUpdateOnlyTouchesStatus`. |
| AdminRoutes.UpdateDoctorStatus | server/routes/adminRoutes.js:59-71 | The handler's reply and new store are those of `SetDoctorStatus`. |
| AdminRoutes.StatusUpdateOnlyTouchesStatus | server/routes/adminRoutes.js:61-67 | Only Approved and Rejected pass; anything else gets 400 and no change. An accepted one always gets the success reply, even for an unknown id, and changes only the addressed doctor's status. |
| PatientRoutes.AppointmentsOf | server/routes/patientRoutes.js:19 | The caller's appointments: exactly those with their patientId, and never more than are stored. |
| PatientRoutes.AppointmentsOfExact | server/routes/patientRoutes.js:19 | Each of the caller's appointments appears as often as it is stored, and no other appointment appears. |
| PatientRoutes.GetProfile | server/routes/patientRoutes.js:19-36 | The patient's profile as written. Its properties are stated by `ProfileNeverNamesDoctor`. |
| PatientRoutes.ProfileNeverNamesDoctor | server/routes/patientRoutes.js:19-29 | As written, no profile entry carries a doctor's name (see Findings). |
| PatientRoutes.GetProfileWithNames | server/routes/patientRoutes.js:19-31 | The corrected profile, naming each doctor's user. Its properties are stated by `ProfileOnlyForPatients` and `ProfileWithNamesListsOwnAppointments`. |
| PatientRoutes.ProfileOnlyForPatients | server/routes/patientRoutes.js:14-17 | A profile is returned exactly when the caller is a stored user with role Patient. |
| PatientRoutes.ProfileWithNamesListsOwnAppointments | server/routes/patientRoutes.js:19-31 | The intended profile has one entry per appointment of the caller, in date order, each named after its doctor's user. |
| PatientRoutes.FindOwnAppointment | server/routes/patientRoutes.js:47-51 | Finds an appointment whose id and patientId both match, or None when none does. |
| PatientRoutes.Cancel | server/routes/patientRoutes.js:39-63 | The reply and new store of a cancellation. Its properties are stated by `CancelOwnOnly` and `CancelIdempotent`. |
| PatientRoutes.CancelAppointment | server/routes/patientRoutes.js:39-63 | The handler's reply and new store are those of `Cancel`, and the store stays well formed. |
| PatientRoutes.CancelOwnOnly | server/routes/patientRoutes.js:47-57 | The reply is 404 with no change exactly when no appointment with that id is the caller's. Otherwise that appointment becomes Cancelled, from any status, and nothing else changes. |
| PatientRoutes.CancelIdempotent | server/routes/patientRoutes.js:47-51 | Cancelling twice leaves the store as cancelling once. |
| PatientRoutes.UpdateProfile | server/routes/patientRoutes.js:65-98 | The reply and new store of a patient's profile update. Its properties are stated by `UpdateKeepsEmailsUnique`. |
| PatientRoutes.UpdatePatientProfile | server/routes/patientRoutes.js:65-98 | The handler's reply and new store are those of `UpdateProfile`, with a loop that looks for another user holding the requested e-mail. |
| PatientRoutes.UpdateKeepsEmailsUnique | server/routes/patientRoutes.js:68-84 | E-mails stay unique. An accepted update writes each of name, e-mail and contact that was sent and keeps each that was not. The image changes only with a non-empty upload, and role and password stay. The reply is the stored user, and no other user changes. A refusal changes nothing. |
| RatingsRoutes.Create | server/routes/ratingsRoutes.js:8-24 | The reply and new store of a new review. Its properties are stated by `CreateRecordsCaller`. |
| RatingsRoutes.CreateReview | server/routes/ratingsRoutes.js:8-24 | The handler's reply and new store are those of `Create`. |
| RatingsRoutes.CreateRecordsCaller | server/routes/ratingsRoutes.js:10-14 | A new review's author is always the caller, and it is the only review added. |
| RatingsRoutes.ReviewsOf | server/routes/ratingsRoutes.js:30 | The listing is no longer than the stored reviews. |
| RatingsRoutes.ReviewsOfExact | server/routes/ratingsRoutes.js:27-38 | The listing holds exactly the doctor's reviews, each as often as it is stored. |
| RatingsRoutes.GetReview | server/routes/ratingsRoutes.js:41-53 | The reply for one review. Its properties are stated by `GetReviewFinds`. |
| RatingsRoutes.GetReviewFinds | server/routes/ratingsRoutes.js:41-53 | A stored review is found by its id; otherwise 404. |
| RatingsRoutes.Update | server/routes/ratingsRoutes.js:56-82 | The reply and new store of a review edit. Its properties are stated by `UpdateByAuthorOnly`. |
| RatingsRoutes.UpdateReview | server/routes/ratingsRoutes.js:56-82 | The handler's reply and new store are those of `Update`. |
| RatingsRoutes.UpdateByAuthorOnly | server/routes/ratingsRoutes.js:59-69 | An unknown id gets 404 and anyone but the author 403, neither with a change. An accepted update replies 200 with the saved review. It keeps id, doctor and author, takes a truthy rating or comment, keeps a falsy one, and changes no other review. |
| RatingsRoutes.Delete | server/routes/ratingsRoutes.js:85-99 | The reply and new store of a review deletion. Its properties are stated by `DeleteByAuthorOnly` and `DeleteRemovesOnlyThat`. |
| RatingsRoutes.DeleteReview | server/routes/ratingsRoutes.js:85-99 | The handler's reply and new store are those of `Delete`. |
| RatingsRoutes.DeleteByAuthorOnly | server/routes/ratingsRoutes.js:87-95 | An unknown id gets 404 and anyone but the author 403. Success, with "Review deleted successfully", exactly when the review exists and the caller wrote it. A refusal changes nothing. |
| RatingsRoutes.DeleteRemovesOnlyThat | server/routes/ratingsRoutes.js:94 | A deletion removes that one review and keeps every other one. |
| DocRoutes.GraphOf | server/routes/docRoutes.js:147-184 | The appointment chart data as a fold over the appointments. Its properties are stated by `GenerateGraphData`, `GraphConservation` and `StatusCountsAddUp`. |
| DocRoutes.GenerateGraphData | server/routes/docRoutes.js:147-184 | The loop builds exactly `GraphOf`: status counts, revenue and the three counters. |
| DocRoutes.StatusCountsAddUp | server/routes/docRoutes.js:159-168 | When every status is in the enum, completed + cancelled + pending is the number of appointments. |
| DocRoutes.GraphConservation | server/routes/docRoutes.js:149-180 | Each counter adds up to totalAppointments. Each status count is its byStatus entry, and revenue is 100 per completed appointment. The three counts add up to the total exactly when no status lies outside the enum. |
| DocRoutes.StatusTally | server/routes/docRoutes.js:174-176 | The byStatus entry of a status is its number of appointments. |
| DocRoutes.StatusOccurrences | server/routes/docRoutes.js:161-168 | A status count is the number of occurrences of that status. |
| DocRoutes.Average | server/routes/docRoutes.js:278-282 | 0 for no items; otherwise average × count = total. |
| DocRoutes.SumAmounts | server/routes/docRoutes.js:277 | The `reduce` gives the sum of the payments' amounts. |
| DocRoutes.PaymentGraphOf | server/routes/docRoutes.js:274-313 | The payment chart data as a fold over the payments. Its properties are stated by `GeneratePaymentGraphData`, `PaymentGraphConservation` and `PaymentStatusNeverGrouped`. |
| DocRoutes.GeneratePaymentGraphData | server/routes/docRoutes.js:274-313 | The loop builds exactly `PaymentGraphOf`, or stops where a missing patient makes the source throw. |
| DocRoutes.PaymentGraphConservation | server/routes/docRoutes.js:276-309 | totalEarnings is the sum of the amounts. The per-day and per-patient sums add up to it, and so do the per-method sums when every payment has a method. The average is 0 for no payments. |
| DocRoutes.PaymentStatusNeverGrouped | server/routes/docRoutes.js:299-303 | As written, byStatus is always empty (see Findings). |
| DocRoutes.ByPaymentStatusConserves | server/routes/docRoutes.js:299-303 | Grouped by paymentStatus, each payment lands under its status, the groups add up to the earnings, and each status appears once. |
| DocRoutes.UpdateAvailability | server/routes/docRoutes.js:25-57 | The reply and new store of an availability update. Its properties are stated by `AvailabilityNeedsList`. |
| DocRoutes.SetAvailability | server/routes/docRoutes.js:25-57 | The handler's reply and new store are those of `UpdateAvailability`. |
| DocRoutes.AvailabilityNeedsList | server/routes/docRoutes.js:34-52 | 404 without a doctor profile; a body without an array gets 400 and no change; an accepted one replaces the caller's whole availability and nothing else. |
| DocRoutes.FindDoctorsAppointment | server/routes/docRoutes.js:369 | Finds an appointment with that id belonging to that doctor, or None when none does. |
| DocRoutes.UpdateStatus | server/routes/docRoutes.js:343-462 | The reply and new store of a doctor's status change. Its properties are stated by `StatusUpdateGuarded` and `NoTerminalStates`. |
| DocRoutes.SetAppointmentStatus | server/routes/docRoutes.js:343-462 | The handler's reply and new store are those of `UpdateStatus`. |
| DocRoutes.StatusUpdateGuarded | server/routes/docRoutes.js:354-387 | A status other than Completed or Cancelled gets 400, and another doctor's appointment gets 404, both without change. Otherwise that appointment takes the status and nothing else changes. |
| DocRoutes.NoTerminalStates | server/routes/docRoutes.js:361-380 | Completed can become Cancelled and Cancelled can become Completed; the old status is not consulted. |
| DocRoutes.DoctorsAppointments | server/routes/docRoutes.js:85-131 | The listing holds exactly the doctor's appointments dated in the window. |
| DocRoutes.ListAppointments | server/routes/docRoutes.js:60-144 | The doctor's appointment listing with its chart data. Its properties are stated by `DoctorsAppointments` and `AppointmentListingScope`. |
| DocRoutes.AppointmentListingScope | server/routes/docRoutes.js:60-144 | Once the doctor is known the listing never fails. Without a period or a complete custom range it lists every appointment of the doctor. |
| DocRoutes.DoctorsPayments | server/routes/docRoutes.js:253-259 | The listing holds exactly the doctor's payments created in the window. |
| DocRoutes.ListPayments | server/routes/docRoutes.js:207-259 | The doctor's payment listing with its chart data. Its properties are stated by `DoctorsPayments` and `PaymentListingScope`. |
| DocRoutes.PaymentListingScope | server/routes/docRoutes.js:207-259 | A custom period without both dates gets 400; any listing holds only the doctor's payments in the window. |
| DocReport.PeriodValidation | server/routes/docRoutes.js:482-546 | The four periods are accepted and any other is refused; a custom period needs both dates. |
| DocReport.MonthlyWindowDropsLastDay | server/routes/docRoutes.js:517-525 | As written, a record created on the month's last day falls outside the monthly window (see Findings). |
| DocReport.CorrectedMonthIsTheMonth | server/routes/docRoutes.js:517-525 | The corrected monthly window holds every instant of the month and nothing else; the other periods are unchanged. |
| DocReport.AppointmentsIn | server/routes/docRoutes.js:550 | Exactly the doctor's appointments created in the window. |
| DocReport.PaymentsIn | server/routes/docRoutes.js:551 | Exactly the doctor's payments created in the window. |
| DocReport.ReviewsIn | server/routes/docRoutes.js:552 | Exactly the doctor's reviews created in the window. |
| DocReport.SelectionScope | server/routes/docRoutes.js:549-553 | Each list holds exactly the doctor's records created in the window, and each list is sorted by date. The appointments appear as often as in the store. |
| DocReport.AggregateAppointments | server/routes/docRoutes.js:556-579 | The reduce builds exactly the grouping of the appointments by ISO day. |
| DocReport.AggregatePayments | server/routes/docRoutes.js:582-601 | The reduce builds exactly the grouping of the payments by ISO day, with a per-method counter. |
| DocReport.AggregateReviews | server/routes/docRoutes.js:604-618 | The reduce builds exactly the grouping of the reviews by ISO day. |
| DocReport.TopByRevenue | server/routes/docRoutes.js:666-668 | At most five rows, in non-increasing revenue, drawn from the rows. |
| DocReport.TopIsTop | server/routes/docRoutes.js:666-668 | A row left out of the top five has no more revenue than any row kept. |
| DocReport.PatientRowsAsWritten | server/routes/docRoutes.js:648-663 | As written, every patient row has no name, no e-mail and revenue 0 (see Findings). |
| DocReport.TopPatientsAsWrittenInOrder | server/routes/docRoutes.js:648-668 | As written, the "top patients by revenue" are the first five patients to appear. |
| DocReport.PatientTotals | server/routes/docRoutes.js:648-663 | Corrected, the rows count every appointment and add up the revenue of every appointment's payment. |
| DocReport.UniquePatients | server/routes/docRoutes.js:645-647 | The corrected count is at most the number of appointments. |
| DocReport.UniquePatientsAreDistinct | server/routes/docRoutes.js:645-647 | The corrected count is the number of distinct patients among the appointments. |
| DocReport.PatientMetricsExample | server/routes/docRoutes.js:645-668 | Two appointments of one patient, the first paid 100: as written, two patients and no revenue; corrected, one patient with 100. |
| DocReport.GenerateReport | server/routes/docRoutes.js:465-553 | The reply of the doctor's report. Its properties are stated by `ReportResponses` and `SelectionScope`. |
| DocReport.ReportResponses | server/routes/docRoutes.js:465-553 | 404 without a doctor profile. 400 exactly when the period is refused. Otherwise the totals count the doctor's records in the window. |
| DocReport.LabelsAreTheDays | server/routes/docRoutes.js:678-682 | The labels are the days on which some record was made, each once. |
| DocReport.LabelsCover | server/routes/docRoutes.js:678-682 | The labels are distinct and cover the days of all three groupings. |
| DocReport.Summarise | server/routes/docRoutes.js:556-738 | The report body over the selected records. Its properties are stated by `LabelsAreTheDays`, `LabelsCover`, `ReportConservation` and `AppointmentSeries`. |
| DocReport.ReportConservation | server/routes/docRoutes.js:620-642 | Each labelled series adds up to its total, and the method distribution adds up to the number of payments. |
| DocReport.AppointmentSeries | server/routes/docRoutes.js:683-693 | The three appointment series add up to the number of appointments and to the completed and cancelled counts. |
| ReportRoutes.Counted | server/routes/reportRoutes.js:15 | An item is counted exactly when start <= createdAt <= end, both bounds included. |
| ReportRoutes.GroupDataOf | server/routes/reportRoutes.js:10-35 | The grouped counts as a fold over the records. Their properties are stated by `GroupData`, `TalliesConserve` and `GroupDataKeys`. |
| ReportRoutes.GroupData | server/routes/reportRoutes.js:10-35 | The reduce, creating each map on the first counted item, builds exactly `GroupDataOf`. |
| ReportRoutes.TalliesConserve | server/routes/reportRoutes.js:11-34 | A report that counts nothing is the empty object; otherwise each of its three maps adds up to the number of counted items. |
| ReportRoutes.GroupDataKeys | server/routes/reportRoutes.js:15-23 | A day is a key of dateWise exactly when some item inside the bounds falls on it. |
| ReportRoutes.MonthKeyShape | server/routes/reportRoutes.js:18 | The month key is the year's digits, "-", and the month 1 to 12 without padding. |
| ReportRoutes.CountedTwice | server/routes/reportRoutes.js:78-91 | Filtering by the bounds again after the query changes nothing. |
| ReportRoutes.CountedNone | server/routes/reportRoutes.js:15 | When no item lies within the bounds, nothing is counted. |
| ReportRoutes.GenerateReport | server/routes/reportRoutes.js:56-106 | The reply of the site-wide report. Its properties are stated by `RangedReport` and `LifetimeDetailIsEmpty`. |
| ReportRoutes.RangedReport | server/routes/reportRoutes.js:56-106 | 400 exactly when both dates are given and one does not parse. With a parsed range, each total counts the records inside it and each detail map adds up to that total. |
| ReportRoutes.LifetimeDetailIsEmpty | server/routes/reportRoutes.js:60-100 | As written, without both dates the summary counts every record but the detailed report is empty (see Findings). |
| ReportRoutes.LifetimeDetailCorrected | server/routes/reportRoutes.js:60-91 | Corrected, a lifetime report's maps each add up to the number of records. |
| Registration.FindDay | client/src/pages/RegistrationPage.jsx:64-66 | The index of the first entry for the day, or -1 exactly when there is none. |
| Registration.Without | client/src/pages/RegistrationPage.jsx:72-74 | Exactly the slots other than the one removed; a list without duplicates stays so. |
| Registration.Toggle | client/src/pages/RegistrationPage.jsx:61-88 | The availability list after a slot is toggled. Its properties are stated by `ToggleShapes`, `ToggleKeepsWellFormed`, `ToggleFlips`, `ToggleTwice` and `ToggleLeavesOtherDays`. |
| Registration.RegistrationForm.ToggleAvailability | client/src/pages/RegistrationPage.jsx:61-88 | The in-place edit leaves the availability equal to `Toggle` of the old one. |
| Registration.RegistrationForm.RemoveTimeSlot | client/src/pages/RegistrationPage.jsx:127-138 | The global list loses the slot and every day's list loses it too. |
| Registration.RegistrationForm.AddTimeSlot | client/src/pages/RegistrationPage.jsx:141-146 | The global list becomes `AddSlot` of the old list and the prompt's answer. |
| Registration.AddSlot | client/src/pages/RegistrationPage.jsx:141-146 | A new non-empty slot is added once. The list never gains an empty slot or a duplicate, and grows by at most one. |
| Registration.WithoutEmpty | client/src/pages/RegistrationPage.jsx:74-78 | Removing a slot empties a list exactly when it held only that slot. |
| Registration.ToggleShapes | client/src/pages/RegistrationPage.jsx:68-84 | A day without an entry gets a new entry at the end. Otherwise the list keeps its length, or loses the emptied entry. |
| Registration.ToggleKeepsWellFormed | client/src/pages/RegistrationPage.jsx:61-88 | If each day has at most one entry and no list is empty or repeats a slot, a toggle keeps all of that. |
| Registration.ToggleFlips | client/src/pages/RegistrationPage.jsx:61-88 | A toggle flips whether the slot is selected for the day and changes no other (day, slot) selection. |
| Registration.FlipsNewDay | client/src/pages/RegistrationPage.jsx:82-83 | The flip for a day without an entry. |
| Registration.FlipsEmptiedDay | client/src/pages/RegistrationPage.jsx:69-78 | The flip when removing the last slot drops the day's entry. |
| Registration.FlipsEditedDay | client/src/pages/RegistrationPage.jsx:69-81 | The flip when the day's entry stays. |
| Registration.ToggleTwice | client/src/pages/RegistrationPage.jsx:61-88 | Toggling the same pair twice restores every selection. |
| Registration.ToggleLeavesOtherDays | client/src/pages/RegistrationPage.jsx:61-88 | Entries for other days are neither changed nor lost. |
| Registration.RemoveSlotEffect | client/src/pages/RegistrationPage.jsx:127-138 | The slot leaves every day; each day's other slots stay; days left empty are kept. |
| Registration.Submit | client/src/pages/RegistrationPage.jsx:95-103 | Nothing is sent exactly when the passwords differ, with "Passwords do not match". Otherwise every field but confirmPassword is sent as entered. |
| DoctorList.Filter | client/src/pages/DoctorList.jsx:44-61 | `filter` keeps exactly the elements that pass, and never adds any. |
| DoctorList.FilterTwice | client/src/pages/DoctorList.jsx:44-61 | Two filters in a row keep what their conjunction keeps, in order. |
| DoctorList.FeeBoundsRoundTrip | client/src/pages/DoctorList.jsx:57-60 | A fee option "lo-hi" reads back as the bounds lo and hi. |
| DoctorList.FilterSteps | client/src/pages/DoctorList.jsx:42-61 | The three filter steps keep, in order, exactly the doctors passing every active filter. |
| DoctorList.Visible | client/src/pages/DoctorList.jsx:41-70 | The doctors shown for the chosen filters. Their properties are stated by `VisibleIsTheMatches`, `NoSelectionShowsAll`, `VisibleOrder` and `FeeRangeInclusive`. |
| DoctorList.VisibleIsTheMatches | client/src/pages/DoctorList.jsx:41-70 | The list shown is a permutation of exactly the doctors passing every active filter. |
| DoctorList.NoSelectionShowsAll | client/src/pages/DoctorList.jsx:42-69 | With no filter and no sort key the fetched list is shown as it came. |
| DoctorList.Order | client/src/pages/DoctorList.jsx:63-66 | The display order. Its properties are stated by `VisibleOrder`. |
| DoctorList.VisibleOrder | client/src/pages/DoctorList.jsx:63-66 | Sorting by experience gives non-increasing experience; by fees, non-decreasing fees. |
| DoctorList.FeeRangeInclusive | client/src/pages/DoctorList.jsx:56-61 | Under a fee option "lo-hi", a doctor passing the other filters is shown exactly when lo <= fee <= hi. |
| DoctorList.Specializations | client/src/pages/DoctorList.jsx:94 | The options are the specializations of the fetched doctors, each once. |
| BookAppointment.AvailableDays | client/src/pages/BookAppointment.jsx:34-35 | The day of every availability entry, in order. |
| BookAppointment.DateChange | client/src/pages/BookAppointment.jsx:45-63 | An unavailable weekday alerts and clears the date and slots; otherwise the picked date is kept. |
| BookAppointment.DateChangeOffersTheDaysSlots | client/src/pages/BookAppointment.jsx:45-63 | The page alerts exactly when the doctor has no entry for the weekday; otherwise it offers the slots of the first entry for that day. |
| BookAppointment.OfferedSlotsAreAccepted | client/src/pages/BookAppointment.jsx:58-62 | Every slot the page offers passes the server's slot check. |
| BookAppointment.SelectorDisabled | client/src/pages/BookAppointment.jsx:98 | The selector is disabled exactly when there is no date or no slot. |
| BookAppointment.HandlePayment | client/src/pages/BookAppointment.jsx:130-158 | An incomplete form stops with the fill-all-fields error, and a card error stops with its message. Otherwise the post goes to /booking/book/ with exactly date, timeSlot and the payment method id. |
| BookAppointment.AfterReply | client/src/pages/BookAppointment.jsx:159-162 | A booking navigates to its appointment page; a failure shows the server's message or "Booking failed.". |
| AppointmentCharts.CountStatusOccurrences | client/src/pages/DoctorReports.jsx:22-30 | A status count is its number of occurrences. |
| AppointmentCharts.StatusData | client/src/pages/DocDashboard/Dashboard.jsx:111-114 | The status bar chart. Its properties are stated by `StatusDataCounts` and `ThreeStatuses`. |
| AppointmentCharts.StatusDataCounts | client/src/pages/DocDashboard/Dashboard.jsx:111-114 | Three bars, Completed, Cancelled and Pending in that order, each counting its appointments. |
| AppointmentCharts.ThreeStatuses | client/src/pages/DoctorReports.jsx:19-32 | The three bars add up to the number of appointments when no status lies outside the enum. |
| AppointmentCharts.TimeSlotData | client/src/pages/DocDashboard/Dashboard.jsx:116-119 | The time-slot chart. Its properties are stated by `TimeSlotTotals`. |
| AppointmentCharts.TimeSlotTotals | client/src/pages/DocDashboard/Dashboard.jsx:116-119 | Every appointment is counted once, under its own slot, so the counts add up to the number of appointments. |
| AppointmentCharts.PieData | client/src/pages/DoctorReports.jsx:40-43 | The time-slot pie. Its properties are stated by `PieDataSlices`. |
| AppointmentCharts.PieDataSlices | client/src/pages/DoctorReports.jsx:40-43 | One slice per distinct slot, sized by its count. |
| AppointmentCharts.CompletedOnes | client/src/pages/DocDashboard/Dashboard.jsx:127 | Exactly the completed appointments, as many as there are. |
| AppointmentCharts.RevenueData | client/src/pages/DoctorReports.jsx:46-51 | The revenue line chart. Its properties are stated by `RevenueDataPoints`. |
| AppointmentCharts.RevenueDataPoints | client/src/pages/DoctorReports.jsx:46-51 | One point of 100 per completed appointment, in list order, dated by it, adding up to 100 times their number. |
| AppointmentCharts.Actions | client/src/pages/DocDashboard/Dashboard.jsx:217-235 | Accept and Reject are offered exactly for Pending appointments, sending Completed and Cancelled. |
| AppointmentCharts.ActionsPassStatusCheck | client/src/pages/DocDashboard/Dashboard.jsx:217-235 | Every status an action sends passes the server's status check. |
| AppointmentCharts.QueryParams | client/src/pages/DocDashboard/Dashboard.jsx:37-40 | The query reads back as the period, plus both dates exactly when the period is custom and both are set. |
| AppointmentCharts.Csv | client/src/pages/DocDashboard/Dashboard.jsx:98 | The CSV text of a table. Its properties are stated by `CsvRoundTrip` and `CommaInNameShiftsColumns`. |
| AppointmentCharts.CsvRoundTrip | client/src/pages/DocDashboard/Dashboard.jsx:98 | When no field holds a comma or a line break, the CSV splits back into its rows and fields. |
| AppointmentCharts.AppointmentCsv | client/src/pages/DocDashboard/Dashboard.jsx:88-98 | The appointment export. Its properties are stated by `AppointmentCsvShape` and `HeaderLine`. |
| AppointmentCharts.AppointmentCsvShape | client/src/pages/DocDashboard/Dashboard.jsx:88-98 | With plain fields, the export is the header and one four-field line per appointment. |
| AppointmentCharts.HeaderLine | client/src/pages/DocDashboard/Dashboard.jsx:89 | The header line reads back as its four column names. |
| AppointmentCharts.CommaInNameShiftsColumns | client/src/pages/DocDashboard/Dashboard.jsx:88-98 | Without quoting, a name "first,last" turns the line into five fields. |
| PaymentDashboard.Fetch | client/src/pages/DocDashboard/Payment.jsx:29-49 | The URL the payment page fetches, if any. Its properties are stated by `CustomFetchCarriesRange` and `OtherPeriodsFetchAtOnce`. |
| PaymentDashboard.CustomFetchCarriesRange | client/src/pages/DocDashboard/Payment.jsx:29-49 | A custom fetch happens exactly with both dates, and its query carries the period and both dates. |
| PaymentDashboard.OtherPeriodsFetchAtOnce | client/src/pages/DocDashboard/Payment.jsx:29-49 | Any period but custom fetches at once, and its query carries the period alone. |
| PaymentDashboard.ServedNames | server/routes/docRoutes.js:259 | Each listed payment is sent as stored, named after the user its patientId refers to, and without a name exactly when no user has that id. |
| PaymentDashboard.PaymentField | client/src/pages/DocDashboard/Payment.jsx:83-84 | Reading a field by name gives a value exactly for the schema's string fields. |
| PaymentDashboard.PaymentRowAsWritten | client/src/pages/DocDashboard/Payment.jsx:79-85 | The row as written has five fields. |
| PaymentDashboard.PaymentRow | client/src/pages/DocDashboard/Payment.jsx:79-85 | The corrected row has five fields. |
| PaymentDashboard.StatusColumnAlwaysNA | client/src/pages/DocDashboard/Payment.jsx:83 | As written, the status column is always "N/A" (see Findings). |
| PaymentDashboard.PaymentRowColumns | client/src/pages/DocDashboard/Payment.jsx:80-84 | Corrected, the row shows the patient's name, or "Unknown" when it is missing or empty. Then the day label, then "$" and the amount. Then the recorded status, or "N/A" when empty, and the method, or "N/A" when empty. |
| PaymentDashboard.PaymentCsv | client/src/pages/DocDashboard/Payment.jsx:77-88 | The corrected payment export. Its properties are stated by `PaymentCsvShape` and `PaymentRowColumns`. |
| PaymentDashboard.PaymentCsvShape | client/src/pages/DocDashboard/Payment.jsx:77-88 | With plain fields, the export is a five-column header and one five-field line per payment. |
| PaymentDashboard.StatusData | client/src/pages/DocDashboard/Payment.jsx:102-107 | The payment-status chart. Its properties are stated by `StatusChartEmptyAsServed` and `StatusChartCorrected`. |
| PaymentDashboard.StatusChartEmptyAsServed | client/src/pages/DocDashboard/Payment.jsx:102-107 | Fed by the server as written, the status chart is always empty. |
| PaymentDashboard.StatusChartCorrected | client/src/pages/DocDashboard/Payment.jsx:102-107 | Fed the grouping by paymentStatus, the chart has one bar per status among the payments, and the bars add up to the earnings. |
| DoctorProfile.AverageRating | client/src/pages/DoctorProfile.jsx:43-50 | 0 for no reviews; otherwise average × count = sum of the ratings. |
| DoctorProfile.RatingSumBounds | client/src/pages/DoctorProfile.jsx:48 | With ratings from 1 to 5, the sum lies between the count and five times it. |
| DoctorProfile.ReplaceReviewSum | client/src/pages/DoctorProfile.jsx:71-75 | Corrected, with unique ids, an edit replaces exactly that review in place and swaps its rating in the total. |
| DoctorProfile.RemoveReview | client/src/pages/DoctorProfile.jsx:104-106 | Deleting never lengthens the list. |
| DoctorProfile.RemoveReviewSum | client/src/pages/DoctorProfile.jsx:104-108 | With unique ids, deleting removes exactly that review, keeps the others in order and drops its rating from the total. |
| DoctorProfile.RemoveReviewMembers | client/src/pages/DoctorProfile.jsx:104-106 | The filter keeps exactly the reviews with another id. |
| DoctorProfile.StartEdit | client/src/pages/DoctorProfile.jsx:91-95 | The form shows the review's rating and comment and edit mode targets its id. |
| DoctorProfile.AfterSubmit | client/src/pages/DoctorProfile.jsx:70-83 | The corrected list page after a submit. Its properties are stated by `AfterSubmitState` and `SubmitUnwrapped`. |
| DoctorProfile.AfterSubmitState | client/src/pages/DoctorProfile.jsx:70-83 | Corrected (the reply's review unwrapped): after a saved submit the form is rating 5 with an empty comment and edit mode is left. A new review is appended and adds its rating; an edit keeps the length. A failed submit changes nothing. |
| DoctorProfile.AverageAsWritten | client/src/pages/DoctorProfile.jsx:42-51 | The average shown, as written. Its properties are stated by `RatingTotal`, `SubmitStoresReplyBody` and `NaNAfterCreateExample`. |
| DoctorProfile.RatingTotal | client/src/pages/DoctorProfile.jsx:48 | As written, the rating total is NaN exactly when some entry is a stored reply body; otherwise it is the sum of the ratings. |
| DoctorProfile.SubmitAsWritten | client/src/pages/DoctorProfile.jsx:71-79 | The list page after a submit, as written. Its properties are stated by `SubmitStoresReplyBody`, `SubmitUnwrapped` and `NaNAfterCreateExample`. |
| DoctorProfile.SubmitStoresReplyBody | client/src/pages/DoctorProfile.jsx:53-86 | As written, a saved create, or a saved edit of an entry on the list, puts the reply body, which has no rating, on the list, and the average becomes NaN. |
| DoctorProfile.SubmitUnwrapped | client/src/pages/DoctorProfile.jsx:53-86 | The corrected list is the list as written with every reply body read as the review inside it. |
| DoctorProfile.NaNAfterCreateExample | client/src/pages/DoctorProfile.jsx:43-86 | One review rated 4 plus a saved new review rated 5: as written the average is NaN, corrected it is 4.5. |
| DoctorProfile.AfterDelete | client/src/pages/DoctorProfile.jsx:104-107 | The list keeps exactly the reviews with another id; the form and edit mode stay. |
| DoctorProfile.StarsShowRating | client/src/pages/DoctorProfile.jsx:117-123 | A rating from 0 to 5 fills exactly that many stars. |
| Tally.BumpGet | server/routes/docRoutes.js:172 | `acc[k] = (acc[k] \|\| 0) + w` raises k's value by w and leaves every other key's. |
| Tally.AccumulateSum | server/routes/docRoutes.js:289-310 | The counter's values add up to the total weight. |
| Tally.AccumulateGet | server/routes/docRoutes.js:289-310 | Each key holds exactly the weights paired with it. |
| Tally.AccumulateKeys | server/routes/docRoutes.js:289-310 | The keys are exactly those that occur, each once. |
| Tally.CountSum | client/src/pages/DoctorReports.jsx:35-38 | A count's values add up to the number of keys counted. |
| Tally.CountGet | client/src/pages/DoctorReports.jsx:35-38 | Each key's count is its number of occurrences. |
| Tally.CountKeys | client/src/pages/DoctorReports.jsx:35-38 | The counter's keys are the distinct keys counted. |
| Grouping.UpsertFound | server/routes/docRoutes.js:560-568 | An existing day's record is updated where it is. |
| Grouping.UpsertNew | server/routes/docRoutes.js:560-568 | A new day's record starts from the initial record and goes to the end. |
| Grouping.GroupByKeys | server/routes/docRoutes.js:556-579 | The grouping's keys are distinct and are exactly the items' keys. |
| Grouping.MergeKeys | server/routes/docRoutes.js:678-682 | `Object.keys({...a, ...b})`: a's keys, then b's keys that a lacks. |
| Grouping.SeriesTotal | server/routes/docRoutes.js:683-703 | A series read off a grouping at labels covering its keys once adds up to the items' total weight. |
| Strings.Split | server/middleware/authMiddleware.js:10 | `split` on one character gives at least one piece, and no piece holds the separator. |
| Strings.JoinSplit | client/src/pages/DocDashboard/Dashboard.jsx:98 | Joining the pieces of a split gives back the string. |
| Strings.SplitJoin | client/src/pages/DocDashboard/Dashboard.jsx:98 | Splitting the join of separator-free pieces gives back the pieces. |
| Strings.NatToString | client/src/pages/DocDashboard/Payment.jsx:82 | The decimal form of a natural: digits only, without a leading zero. |
| Strings.ParseNatToString | client/src/pages/DoctorList.jsx:57 | Reading back the decimal form of a natural gives the natural. |
| Sorting.SortBy | client/src/pages/DoctorList.jsx:63-66 | The result is ordered by the key and is a permutation of the input. |
| Sorting.SortSorted | client/src/pages/DoctorList.jsx:63-66 | Sorting a list that is already ordered changes nothing. |

## Left out

- The Stripe gateway, nodemailer and the HTML mail bodies. The gateway is a parameter (`charge`, and the client's tokeniser answer `Tokenised`). The e-mails do not affect the stored state.
- bcrypt and jsonwebtoken. `hash`, `matches`, `sign` and `verify` are parameters, and token expiry is not modelled.
- MongoDB mechanics are not modelled: `populate`, schema casting, `countDocuments`, `aggregate`, and the tie order of `sort`. A query is a filter over a sequence. A sort by date is a stable insertion sort. The schema's required checks are predicates.
- The 500 answers to thrown database errors are not modelled, except where a schema refuses a save or bcrypt rejects a missing password.
- Calendar and locale arithmetic are not modelled. The period windows, `toLocaleDateString`, `toISOString`, `getWeekNumber` and the weekday of a picked date are parameters (`Calendar`, `Clock`, `dateKey`, `isoDay`, `dayLabel`, `weekday`). `getWeekNumber`'s floating-point division is not modelled.
- Invalid `Date` strings appear only as the `parse` parameter of the site-wide report. Elsewhere dates are integers.
- Number fields (experience, feesPerSession, amount, rating) are integers. Fractional values, and the non-integer cent amount they would send to the gateway as `feesPerSession * 100`, are not modelled.
- Averages are exact reals. `toFixed(1)` and `toFixed(2)` rounding for display is not modelled.
- `Number()` parsing of the fee range accepts decimal digits only. Whitespace, signs, decimals and `Number("") === 0` are not modelled; such a range matches nothing.
- JavaScript objects used as maps keep insertion order here. Integer-like keys, which `Object.keys` lists first, are not modelled.
- Requests are handled one at a time. The race between the booking's slot check and its write is out of scope.
- Rendering, charts, colours, PDF export and the Blob/link download plumbing of the CSV exports are left out.
- DoctorList.Order: `Array.prototype.sort` sorts the local array in place. The model returns a sorted copy.
- Registration.RegistrationForm.ToggleAvailability: the source copies the outer array but edits day objects it shares with the previous state. The model does not track that aliasing and treats each day entry as a value.
- DoctorProfile.RemoveReview: the function itself states only that the list does not grow; what it keeps is stated by RemoveReviewMembers and RemoveReviewSum.
- DoctorProfile.StartEdit, DoctorProfile.AfterDelete: these act on the corrected list of reviews. On the list as written, a stored reply body has no `_id`, so a delete never removes it. That is not modelled beyond the submit.
- DocReport.MethodsColumn, DocReport.AverageColumn: these contracts state only that there is one value per label. The totals they feed are stated by ReportConservation.
- PaymentDashboard.PaymentRowAsWritten, PaymentDashboard.PaymentRow: these contracts state only the row width. The columns are stated by StatusColumnAlwaysNA and PaymentRowColumns.
- The doctor-side GET /reviews route (server/routes/docRoutes.js:316-340) runs the same query as RatingsRoutes.ReviewsOf and is not modelled separately.
- `getProfile` and `getDoctorById` in server/controllers/authController.js are single lookups that decide nothing and are not modelled.
- The admin's plain listings of users, doctors, appointments and payments are not modelled.
- The Review and Admin schema files are not part of this model. Their fields are taken from the handlers that use them.
- server/routes/docreportRoutes.js is not modelled: it is a set of aggregation pipelines keyed on `req.user._id`, which `authenticate` never sets.
- server/controllers/appointmentController.js is not modelled: it is a read-only projection of stored appointments.
- server/config/Connection.js (the database connection) is not modelled; `Store.Db` starts empty.
- The paymentMethodData and earningsByDate charts of the payment dashboard are not modelled separately. They are the same `Object.entries` mapping as the status chart (`AppointmentCharts.Entries`).
- The client pages call two hosts, a deployed one and localhost. The model keeps each page's base URL as a constant.
- The model does not check that the routes run with the right middleware. Route handlers take the caller's id as the value `authenticate` puts in `req.user`.

## Findings

The route models keep each handler's behaviour as written. Each corrected
definition stands beside its as-written one, with the intended property
proved about it. The client CSV export uses the corrected row.

| source | as written | input that shows it | evidently intended | confidence | as-written member | corrected member |
|---|---|---|---|---|---|---|
| server/routes/patientRoutes.js:20,25 | `populate("doctorId", "name")` reads `name` off a Doctor, which has no such field, so every `doctorName` is undefined | a patient with one appointment: its entry's doctorName is undefined | each entry names the doctor's user | high (not executed) | PatientRoutes.ProfileNeverNamesDoctor | PatientRoutes.ProfileWithNamesListsOwnAppointments |
| server/routes/docRoutes.js:300-303 | byStatus groups on `payment.status`, a field the Payment schema does not have | any list of payments: byStatus is {} | group the amounts by `paymentStatus` | high (not executed) | DocRoutes.PaymentStatusNeverGrouped | DocRoutes.ByPaymentStatusConserves |
| server/routes/docRoutes.js:648-663 | the appointments are not populated, so name and e-mail are undefined; `payment.appointmentId === appointment._id` compares two ObjectId objects, so no revenue is ever added | two appointments of one patient, the first paid 100: one row, revenue 0, no name | rows with the patient's name and e-mail and the revenue of their payments | medium (not executed) | DocReport.PatientRowsAsWritten | DocReport.PatientTotals |
| server/routes/docRoutes.js:645-647 | `new Set` of ObjectId objects compares by reference, so uniquePatients is the number of appointments | the same two appointments: uniquePatients is 2 | the number of distinct patients | medium (not executed) | DocReport.PatientMetricsExample | DocReport.UniquePatientsAreDistinct |
| server/routes/docRoutes.js:517-525 | the monthly window ends with `$lt` midnight of the month's last day | a payment made at noon on the month's last day is left out | the whole month, up to the next month's first midnight | high (not executed) | DocReport.MonthlyWindowDropsLastDay | DocReport.CorrectedMonthIsTheMonth |
| server/routes/reportRoutes.js:15,60-63 | without dates both bounds are null and compare as 0, so `date > endDate` skips every record after 1970 | no query dates and one appointment: the summary counts 1, the detail is {} | a lifetime report whose detail counts every record | high (not executed) | ReportRoutes.LifetimeDetailIsEmpty | ReportRoutes.LifetimeDetailCorrected |
| client/src/pages/DoctorProfile.jsx:71-79 | the list stores `response.data`, the reply's `{ message, review }` body, in place of the saved review | one review rated 4 and a saved new review: the average shown is NaN | store `response.data.review` | high (not executed) | DoctorProfile.SubmitStoresReplyBody | DoctorProfile.AfterSubmitState |
| client/src/pages/DocDashboard/Payment.jsx:83 | the CSV status column reads `payment.status`, which payments do not have | any payment: its status prints "N/A" | print the payment's `paymentStatus` | high (not executed) | PaymentDashboard.StatusColumnAlwaysNA | PaymentDashboard.PaymentRowColumns |
