# Training compliance app: a model of its record logic

The app is a React Native front end for tracking cooperative officers'
training compliance. An admin manages trainings, records attendance and
generates reports. An officer sees their own profile. All data lives in three
in-memory lists (trainings, officers, attendance records) that are seeded from
mock data. The only logic in the app is a handful of pure operations on those
lists, plus a small login/logout state machine. This project models those
operations as Dafny functions on immutable sequences and proves what they do.

It also proves what they do not do. The only input checks are the login
form's non-empty check and the attendance screen's check for a selected
training and a known officer id. The training form sends whatever was typed.
No operation rejects a duplicate attendance record, cascades a delete,
derives compliance from missing requirements or issues a certificate. The
generated training ids can collide after a delete, and then editing one of
the twins overwrites the other.

Modules, one per source file, plus shared helpers:

- `Wrappers`: `Option`, used where JavaScript yields `undefined` or `null`.
- `Seqs`: `filter`, `find`, `some`, `map` and the replace-by-key `map` idiom. Their order and multiplicity behaviour is proved once here, including subsequence and distinct-key lemmas.
- `Strings`: the `a || b` string fallback, `join`, and decimal text with its parse-back lemma.
- `Model`: the record types, status strings, and named selectors for the list operations.
- `MockData`: the seed lists, and which consistency properties do and do not hold of them.
- `AdminDashboard`: the three lists and their update, add and delete operations; the overview counters; how the form and the attendance screen connect to the lists.
- `AttendanceTracker`, `Reports`, `TrainingManagement`, `OfficerDashboard`, `LoginScreen`, `App`: one module per screen.

Some inputs come from outside the code and become parameters. The check-in
time (the clock) is a string parameter. `parseInt` is a function parameter of
type `string -> Capacity`, where `Capacity` is a number or NaN.

## Model

| member | source | states |
|---|---|---|
| AdminDashboard.UpdateTraining | component/Admin/AdminDashboard.js:19-21 | The length is kept. Every training whose id equals the update's id becomes the update. Every other position is unchanged. Officers and attendance are untouched. |
| AdminDashboard.UpdateTrainingUnknownId | component/Admin/AdminDashboard.js:19-21 | An update whose id is not in the list returns the lists unchanged. No error is raised. |
| AdminDashboard.UpdateTrainingKeepsIds | component/Admin/AdminDashboard.js:19-21 | Every position keeps its id, so distinct ids stay distinct. Applying the same update twice gives the same result as applying it once. |
| AdminDashboard.AddTraining | component/Admin/AdminDashboard.js:23-25 | Exactly one training is appended. The old list is its prefix. The new training's fields are the draft's fields, and its id is "t" followed by the old length plus one. Officers and attendance are untouched. |
| AdminDashboard.AddKeepsCanonicalIds | component/Admin/AdminDashboard.js:23-25 | If the ids are t1..tn, then after an add they are t1..tn+1, so ids stay distinct as long as nothing is deleted. |
| AdminDashboard.DeleteTraining | component/Admin/AdminDashboard.js:27-29 | No remaining training has the deleted id. Every other training is kept, in order, as many times as before. Officers and attendance are untouched: the delete does not cascade. |
| AdminDashboard.DeleteKeepsDistinctIds | component/Admin/AdminDashboard.js:27-29 | A delete keeps distinct training ids distinct. |
| AdminDashboard.DeleteLeavesDanglingRecords | component/Admin/AdminDashboard.js:27-29 | An attendance record for the deleted training remains, and it now refers to no training. |
| AdminDashboard.DeleteThenAddCollides | component/Admin/AdminDashboard.js:23-29 | Take a list with ids t1..tn and n >= 2. Deleting t1 and then adding gives two trainings with id tn. |
| AdminDashboard.SeedDeleteThenAddCollides | component/Admin/AdminDashboard.js:23-29 | From the seed, deleting t1 and then adding gives two trainings with id t4. |
| AdminDashboard.UpdateOfficer | component/Admin/AdminDashboard.js:31-33 | Same replace-by-id behaviour as for trainings, applied to the officers list. Trainings and attendance are untouched. |
| AdminDashboard.UpdateOfficerKeepsIds | component/Admin/AdminDashboard.js:31-33 | An unknown id changes nothing. Ids are kept at every position, so distinct officer ids stay distinct. |
| AdminDashboard.AddAttendanceRecord | component/Admin/AdminDashboard.js:35-37 | The record is appended with no check. Everything before it is unchanged, and trainings and officers are untouched. |
| AdminDashboard.AddAttendanceCountsPair | component/Admin/AdminDashboard.js:35-37 | Appending a record adds exactly one to the count for its (training, officer) pair. A pair that is already recorded therefore ends up recorded twice. |
| AdminDashboard.NonCompliantCount | component/Admin/AdminDashboard.js:91 | The counter equals the number of officer positions whose stored status is "Non-compliant". |
| AdminDashboard.TotalTrainings | component/Admin/AdminDashboard.js:83 | The "Total Trainings" counter counts list entries, not ids. It is never less than the number of different training ids, and it equals that number exactly when ids are distinct. |
| AdminDashboard.SeedDeleteThenAddOvercounts | component/Admin/AdminDashboard.js:23-83 | From the seed, deleting t1 and then adding makes "Total Trainings" larger than the number of different training ids. |
| AdminDashboard.RegisteredOfficers | component/Admin/AdminDashboard.js:87 | The "Registered Officers" counter counts list entries, not ids. It is never less than the number of different officer ids, and it equals that number exactly when ids are distinct. |
| AdminDashboard.SeedOverview | component/Admin/AdminDashboard.js:83-91 | On the seed, the overview shows 4 trainings, 3 officers and 1 non-compliant officer. |
| AdminDashboard.ApplyTrainingCommand | component/Admin/AdminDashboard.js:43-48 | The training screen's update command goes to `updateTraining`, its add command to `addTraining` and its delete command to `deleteTraining`, each with the command's argument. |
| AdminDashboard.EditSaveOverwritesSameId | component/Admin/AdminDashboard.js:19-21 | Editing a listed training and saving without changes writes that training over every training that shares its id. Every other training and the other two lists stay as they were. This assumes `parseInt` reads the capacity text back. |
| AdminDashboard.EditSaveKeepsLedger | component/Admin/TrainingManagement.js:33-54 | An unchanged edit-save leaves all three lists as they were exactly when every training sharing the edited one's id equals it. That always holds when ids are distinct. This assumes `parseInt` reads the capacity text back. |
| AdminDashboard.EditSaveAfterCollision | component/Admin/AdminDashboard.js:19-21 | Take two different trainings that share an id. An unchanged edit-save of the second turns the list into two copies of the second: the first is lost. |
| AdminDashboard.EditSaveChangesOnlyEdited | component/Admin/AdminDashboard.js:19-21 | With distinct ids, saving the edit form of the training at position k, whatever was typed, rewrites only position k. It gets the form's fields and keeps its id. Every other training and the other two lists stay as they were. |
| AdminDashboard.FreshAddThenEditChangesOnlyEdited | component/Admin/AdminDashboard.js:19-25 | Start from distinct ids and add a training with the corrected id. Then saving the edit form of any training, the new one included, rewrites only that training and keeps its id. |
| AdminDashboard.FreshAddThenEditKeepsLedger | component/Admin/AdminDashboard.js:19-25 | Start from distinct ids and add a training with the corrected id. The ids are still distinct, so an unchanged edit-save of any training leaves the lists as they were. |
| AdminDashboard.RecordAttendance | component/Admin/AdminDashboard.js:58-66 | The attendance screen's emitted record, if there is one, is appended to the list. Otherwise the lists are unchanged. |
| AdminDashboard.RecordTwiceDuplicates | component/Admin/AttendanceTracker.js:21-32 | Record an officer for a training, re-enter the same id, and record again. The pair now has two more records: nothing rejects the duplicate. |
| AdminDashboard.MaxIdNumber | component/Admin/AdminDashboard.js:24 | No training id of the form "t<digits>" carries a number larger than the result. |
| AdminDashboard.FreshTrainingId | component/Admin/AdminDashboard.js:24 | The corrected id differs from every id in the list. |
| AdminDashboard.AddTrainingFresh | component/Admin/AdminDashboard.js:23-25 | The corrected add appends exactly one training. It keeps distinct ids distinct, whatever was deleted before. |
| AdminDashboard.FreshIdAgreesOnCanonical | component/Admin/AdminDashboard.js:24 | On a list with ids t1..tn, the corrected id equals the generated one, t(n+1). |
| AdminDashboard.SeedDeleteThenAddFreshDistinct | component/Admin/AdminDashboard.js:23-29 | From the seed, deleting t1 and then adding with the corrected id keeps ids distinct. |
| AdminDashboard.GeneratedIdsDiffer | component/Admin/AdminDashboard.js:24 | Ids generated for different numbers differ, because decimal text is injective. |
| AdminDashboard.SeedIdsCanonical | data/mockData.js:3-44 | The seed training ids are t1..t4, which is the scheme the generated ids follow. |
| AdminDashboard.CanonicalIdsAreDistinct | component/Admin/AdminDashboard.js:24 | A list whose ids follow the t1..tn scheme has no repeated id. |
| MockData.SeedTrainingsWellFormed | data/mockData.js:3-44 | There are four seed trainings, with ids t1, t2, t3 and t4, which are distinct. Capacities are positive. Each status is "Upcoming" or "Completed". |
| MockData.SeedOfficerIdsDistinct | data/mockData.js:46-77 | The seed officer ids are distinct. |
| MockData.SeedAttendanceConsistent | data/mockData.js:79-83 | Every seed record names a seed training and a seed officer and is marked present. No (training, officer) pair repeats. |
| MockData.SeedComplianceMatchesRequirements | data/mockData.js:46-77 | In the seed, each officer is "Compliant" exactly when their missing-requirements list is empty. |
| MockData.SeedCertificatesConsistent | data/mockData.js:55-75 | The two seed certificates have distinct ids and distinct numbers. Each names a seed training. |
| MockData.SeedAttendedDrift | data/mockData.js:54-83 | The attended lists agree with present records for officer-456 and officer-789. They do not agree for officer-101, who has no records at all. |
| MockData.SeedCertificateWithoutAttendance | data/mockData.js:3-83 | officer-101 holds a certificate for t1, but t1 is "Upcoming" and has no attendance record. |
| AttendanceTracker.SelectedTraining | component/Admin/AttendanceTracker.js:11 | Returns None exactly when no training has the selected id. Otherwise it returns the first training with that id. |
| AttendanceTracker.SelectedTrainingUnique | component/Admin/AttendanceTracker.js:11 | When ids are distinct, the selected training is the one that carries the selected id. |
| AttendanceTracker.OfficersForSelectedTraining | component/Admin/AttendanceTracker.js:12-14 | The result is an order-preserving subsequence of the officers. It contains an officer exactly when no record exists for (selected training, that officer). Such an officer appears as many times as in the officer list. The screen computes this value but never renders it or uses it. |
| Model.CapacityText | component/Admin/TrainingManagement.js:41 | The capacity as text is never empty. It is "NaN" exactly for NaN. A non-negative number is written in digits that parse back to it. A negative number is "-" followed by digits that parse back to its absolute value. |
| Model.UpcomingTrainings | component/Admin/AttendanceTracker.js:71 | The list holds exactly the trainings with status "Upcoming", in stored order, each as many times as it is stored. The attendance screen offers these for selection. The officer dashboard lists the same trainings as upcoming (component/Officer/OfficerDashboard.js line 19), whoever the officer is. |
| AttendanceTracker.ShownRecords | component/Admin/AttendanceTracker.js:95 | The shown records are exactly the records for the selected training, in stored order, with their multiplicity. |
| AttendanceTracker.RecordAttendance | component/Admin/AttendanceTracker.js:21-40 | A record is emitted exactly when both inputs are non-empty and some officer has the entered id. The record carries the selected training, the entered officer, the check-in time and present = true. Otherwise exactly one alert is raised. It is "Please select a training and enter an Officer ID." when an input is empty, and "Officer ID not found." when both are filled but no officer has the id. The input is cleared only on success. |
| AttendanceTracker.RecordIgnoresExistingRecords | component/Admin/AttendanceTracker.js:12-30 | The handler does not consult `officersForSelectedTraining`. An officer who already has a record for the selected training, and so is absent from that value, is emitted a second time. |
| AttendanceTracker.RecordIgnoresTrainings | component/Admin/AttendanceTracker.js:21-30 | This is a fact about the handler alone: given a known officer, any non-empty selected id is accepted, even one that matches no upcoming training. The screen offers only upcoming trainings for selection, so the app does not reach such an id this way. |
| Reports.AttendeeName | component/Admin/Reports.js:12 | The name is never empty. If no officer has the record's officer id, it is "Unknown Officer". Otherwise it is the first such officer's name, or "Unknown Officer" when that name is empty. |
| Reports.Attendees | component/Admin/Reports.js:11-12 | There is one non-empty name per record for the training. The i-th name is the one shown for the i-th such record, in stored order. |
| Reports.AttendanceRowFor | component/Admin/Reports.js:11-18 | The row copies the training's id, title and date. The total is the number of records with that training id, counting duplicates and ignoring present. A total of 0 gives "No attendees". Otherwise the list is the non-empty join of the names with ", ". |
| Reports.AttendanceReport | component/Admin/Reports.js:10-19 | The report has one row per training, in training order. |
| Reports.CountIgnoresPresence | component/Admin/Reports.js:11-17 | Two identical records that are marked absent count as 2 attendees. |
| Reports.FallbackTextIsAmbiguous | component/Admin/Reports.js:18 | An officer named "No attendees" produces a row with one attendee whose list reads the same as an empty row. |
| Reports.ComplianceRowFor | component/Admin/Reports.js:26-33 | The status is copied from the stored status, not recomputed. The completed count is the attended list's length. The missing text is "None" for no label or a single empty label; otherwise it is the labels joined with ", ". |
| Reports.ComplianceReport | component/Admin/Reports.js:26-33 | The report has one row per officer, in officer order. |
| Reports.EmptyLabelsAreNotNone | component/Admin/Reports.js:31 | Two empty labels give ", " rather than "None". |
| Reports.StatusNotRecomputed | component/Admin/Reports.js:30-31 | A "Compliant" officer with a missing requirement is reported as "Compliant". |
| TrainingManagement.OpenAdd | component/Admin/TrainingManagement.js:19-31 | Opening the add form empties all text fields, sets the status to "Upcoming", clears the current training and shows the modal. |
| TrainingManagement.OpenEdit | component/Admin/TrainingManagement.js:33-45 | The form holds the training's fields with the capacity as text. The edited training is remembered. |
| TrainingManagement.Save | component/Admin/TrainingManagement.js:47-54 | In edit mode, save sends an update carrying the edited training's id with every other field taken from the form. In add mode it sends an add with the form's fields and no id. The capacity is `parseInt` of its text. The modal closes. No field is checked. |
| TrainingManagement.EditSaveRoundTrip | component/Admin/TrainingManagement.js:33-49 | Opening the edit form and saving unchanged sends back the original training, provided `parseInt` reads the capacity text back. |
| TrainingManagement.SaveDoesNotValidate | component/Admin/TrainingManagement.js:47-54 | A blank add form is sent as is: empty text fields, and whatever `parseInt` returns for the empty capacity. |
| TrainingManagement.HandleDelete | component/Admin/TrainingManagement.js:56-77 | The id is forwarded only on the "Delete" answer. "Cancel" or dismissing the alert forwards nothing. |
| OfficerDashboard.CurrentOfficer | component/Officer/OfficerDashboard.js:13 | Returns None exactly when no officer has the user id. Otherwise it returns the first officer with that id. |
| OfficerDashboard.CompletedTrainings | component/Officer/OfficerDashboard.js:21 | The list is the trainings whose id is in the officer's attended list, in training order, each as many times as it is stored, whatever their status. |
| OfficerDashboard.Compute | component/Officer/OfficerDashboard.js:11-26 | The officer is looked up. If found, both lists are recomputed. If not, the old lists are kept. |
| OfficerDashboard.Render | component/Officer/OfficerDashboard.js:11-26 | The lists are recomputed from the seed data only when the user id differs from the last one. |
| OfficerDashboard.RenderIdempotent | component/Officer/OfficerDashboard.js:26 | A second render with the same user id changes nothing. |
| OfficerDashboard.View | component/Officer/OfficerDashboard.js:28-34 | The loading view is shown exactly when no officer was found. |
| OfficerDashboard.UnknownUserStaysLoading | component/Officer/OfficerDashboard.js:13-34 | A user id that names no seed officer keeps the loading view across renders. |
| OfficerDashboard.MissingSection | component/Officer/OfficerDashboard.js:70-78 | The labels are listed exactly when the missing-requirements list is non-empty. |
| OfficerDashboard.MissingSectionIgnoresStatus | component/Officer/OfficerDashboard.js:49-78 | A "Non-compliant" officer with no listed requirement is shown the compliant notice. |
| OfficerDashboard.CertificateTitle | component/Officer/OfficerDashboard.js:83-86 | The title is never empty. If no training has the certificate's training id, it is "Unknown Training". Otherwise it is the first such training's title, or "Unknown Training" when that title is empty. |
| OfficerDashboard.SeedOfficerView | component/Officer/OfficerDashboard.js:11-26 | officer-456 sees t1 and t2 as upcoming and t3 and t4 as completed. |
| OfficerDashboard.CompletedNotFilteredByStatus | component/Officer/OfficerDashboard.js:19-21 | An attended training that is still upcoming appears in both lists. |
| OfficerDashboard.CompletedOverlapsUpcoming | component/Officer/OfficerDashboard.js:19-21 | For officer-101, t1 appears in both the upcoming and the completed list. |
| LoginScreen.HandleLoginPress | component/Auth/LoginScreen.js:10-18 | If either field is empty, the error is set and nothing is passed on. Otherwise the error is cleared and exactly the entered values are passed on. |
| LoginScreen.ErrorLine | component/Auth/LoginScreen.js:48 | The error line is shown exactly when the error text is non-empty, and it shows that text. |
| LoginScreen.PressShowsErrorIffRefused | component/Auth/LoginScreen.js:10-48 | After a press, the error line is shown exactly when the press was refused. A refused press shows the text asking for both fields. |
| LoginScreen.BlanksPass | component/Auth/LoginScreen.js:11 | Input is not trimmed: blank-only fields pass the check. |
| App.Login | App.js:10-19 | Login succeeds exactly for the two accounts in the credential table, with that account's role and user id. Every other pair fails with "Invalid credentials". |
| App.BeginLogin | App.js:33 | `handleLogin` first shows the spinner and keeps the role and user id. |
| App.FinishLogin | App.js:35-42 | A success sets the role and user id. A failure keeps both. Loading is turned off either way. |
| App.HandleLogin | App.js:32-43 | After login, the session holds the account's role and id if the credentials are in the table. Otherwise it is unchanged. Loading is off. |
| App.BeginLogout | App.js:47 | `handleLogout` first shows the spinner and keeps the role and user id. |
| App.FinishLogout | App.js:49-51 | After the logout call, the role and user id are null, loading is off and the login screen is shown. |
| App.HandleLogout | App.js:46-52 | Logout clears the role and the user id and turns loading off. |
| App.TransitionsKeepWellFormed | App.js:27-52 | Every transition keeps role and id both set or both null, and keeps the role admin or officer. |
| App.Render | App.js:54-69 | The spinner is shown exactly while loading. Otherwise role admin shows the admin dashboard, role officer shows the officer dashboard, and anything else shows the login screen. |
| App.SpinnerWhileWaiting | App.js:32-60 | The spinner is shown while the login or logout call is pending. |
| App.SubmitLogin | App.js:32-69 | If either field is empty, the press is refused: the session is unchanged and the form shows the error. Otherwise the session is the result of `handleLogin` on exactly the entered values. The login screen is unmounted while the spinner shows, so the next login form is blank. |
| App.RejectedLoginShowsBlankForm | App.js:32-69 | Non-empty credentials that are not in the table lead back to the login screen with a blank form and no error line. |
| App.LoginScenarios | App.js:13-18 | From the start, the two accounts reach their dashboards. Any other pair, including empty input, stays on the login screen. |
| App.LogoutReturnsToLogin | App.js:46-69 | After logout the login screen is shown. |

## Left out

- Rendering, styles, `FlatList`, `Modal`, `Alert` and tab navigation are not modelled. The modal flags are kept only where they are part of an operation's state. `activeTab` switching is not modelled.
- The delays in the mock service (`setTimeout`) are not modelled. Each async handler is split into the part before the awaited call and the part after it.
- `new Date().toISOString()` is not modelled. The check-in time is a parameter. `toLocaleString` in the record list is display only and is left out.
- `parseInt` is a function parameter. The edit round trip assumes it reads `String(capacity)` back.
- Model.CapacityText: a JavaScript capacity is a double, but the model uses an unbounded integer or NaN, written as plain decimal. From 1e21 up, `String` switches to exponent form, so `parseInt` does not read such a capacity back. `parseInt` can also return `Infinity`. Neither case is modelled. The edit round-trip lemmas assume the read-back as a precondition, so they say nothing about these capacities.
- Selecting a training, typing into the officer-id field and typing into the training form are plain state setters. The model takes the resulting state as the input to the operations instead of modelling each keystroke.
- `OfficerCompliance` is not part of this model. The argument to `updateOfficer` is any officer record.
- `console.log` and `console.error` are left out. So are React state batching and stale closures: each handler is one atomic step.
- The display fallbacks in the attendance record list ('N/A') and the report screen's "No data to display" text are view text only and are left out.
- Missing or `undefined` fields are left out. Records are typed, so every field is present.
- Report generation is not modelled as a state change. The reports are functions of the three lists and return only rows, so the lists are unchanged by construction. No lemma states this.
- The login screen's typing is not modelled. The form is taken as the input to a press.
- Cascading deletes, duplicate-attendance rejection, certificate issuance, compliance derived from requirements, and not-found errors are left out because the code has none of them. The lemmas above show their absence.

## Findings

| source | as written | input that shows it | evidently intended | confidence | as-written member | corrected member |
|---|---|---|---|---|---|---|
| component/Admin/AdminDashboard.js:24 | A new training gets id `t` + (list length + 1) | From the seed (t1..t4), delete t1, then add a training: t4 now occurs twice | A new training gets an id no other training has | high; not executed | AdminDashboard.SeedDeleteThenAddCollides | AdminDashboard.AddTrainingFresh |
| component/Admin/AdminDashboard.js:20 | `updateTraining` replaces every training with the update's id | After the collision in the row above, the list holds two different t4 trainings. Opening the second for edit and saving unchanged replaces the first with a copy of the second | An edit changes only the edited training | high; not executed | AdminDashboard.EditSaveAfterCollision | AdminDashboard.FreshAddThenEditChangesOnlyEdited |

The corrected scheme numbers a new training one past the largest number in any
"t<digits>" id. `AdminDashboard.FreshIdAgreesOnCanonical` shows that it gives
the same id as the original whenever nothing has been deleted. The form's
command routing (`AdminDashboard.ApplyTrainingCommand`) keeps the as-written
`AddTraining`, because it describes the app as it behaves.

The second row is a consequence of the first. `updateTraining` itself is fine
as long as ids are unique: `AdminDashboard.EditSaveKeepsLedger` proves that an
unchanged edit-save leaves the lists as they were exactly when no different
training shares the edited one's id. `AdminDashboard.EditSaveChangesOnlyEdited`
proves that with unique ids any edit-save, changed or not, rewrites only the
edited training. The corrected add keeps ids unique, so
`AdminDashboard.FreshAddThenEditChangesOnlyEdited` carries this over to the
lists after a corrected add, and `AdminDashboard.FreshAddThenEditKeepsLedger`
proves that an unchanged edit-save there leaves the lists as they were.
