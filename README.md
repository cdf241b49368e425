# School finance dashboard — a Dafny model

This project models the core of a school-finance web dashboard for schools in Somalia.
School administrators, finance staff and a super administrator sign in and manage
students, fee items, invoices and payments. The application is a React front end over a
hosted Postgres database. The model covers its client-side logic:

- **Signing in and routing.** The auth provider resolves a user's role from three tables
  in order, keeps a 24-hour record of the role in local storage, and handles sign-out,
  auth events and a loading timeout. The session-refresh hook has a 45-minute timer and a
  tab-visibility check. The route table sends each role to its own dashboard
  (`AuthContext`, `SessionRefresh`, `AppRoutes`).
- **Bulk upload.** The validators for student, payment and fee item rows, the upload
  wizard and its validation summary (`Validation`, `BulkUpload`, `DataValidator`).
- **Student import.** Three importers: the simple one (name and class columns), the wizard
  with column detection and name/class cleaning, and the flexible one with column
  selection and mapping (`SimpleBulkImport`, `BulkStudentImport`, `FlexibleBulkImport`,
  `SmartMapping`, `ColumnSelection`, `ColumnSelector`).
- **Screens.** Invoice generation with its student selection, the reports screen with its
  filters, payment marking and CSV export, the student export, the print page, the
  student list, the student management tools, the fee item list, the super
  administrator's school list and the password change dialog (`InvoiceGeneration`,
  `Reports`, `ReportExport`, `BulkExport`, `PrintUtils`, `StudentsList`,
  `StudentManagementTools`, `FeeItemsList`, `SchoolsList`, `PasswordChange`).

Each source file is one module. Helper modules hold the JavaScript string and list
behaviour the code relies on:
- `Strings`: ASCII case mapping, `trim`, `includes`, `split` and `join`, decimal numerals.
- `Lists`: `filter`, `map`, toggling, `new Set` order, grouping.
- `StringOrder`: the default order of `Array.prototype.sort`.
- `Csv`: a reader for CSV records as section 2 of RFC 4180 describes them.
- `Wrappers`: `Option`.

Components that hold state and change it through handlers are classes. Each handler is a
method whose `ensures` gives the new state, usually as a transition function on a state
datatype; the properties are lemmas about those functions. Loops in the source are
methods with loop invariants, proved against a specification function. Database tables
are sequences of rows, and each remote call is an outcome supplied by the caller.

Role resolution queries `school_admins`, then `super_admins`, then `finance_staff`, each
once (src/contexts/AuthContext.tsx:94-148), and takes the first table that holds a row for
the user; a user found in none of them is left with no role. The 10-second loading timeout
(src/contexts/AuthContext.tsx:270-273) only clears `loading`; it assigns no role.

## Model

| member | source | states |
|---|---|---|
| AppRoutes.ProtectedRouteRules | src/App.tsx:16-33 | the guard shows the spinner exactly while loading without a user, sends a signed-out visitor to /login, sends a user whose known role is not allowed to /unauthorized, and renders the page for every other user, including one whose role is not known yet |
| AppRoutes.StripTrailingSlashes | src/App.tsx:47-115 | the path loses only trailing slashes: what is left is a prefix of it that does not end in a slash |
| AppRoutes.PrefixSurvivesStrip | src/App.tsx:75-100 | a prefix that does not end in a slash is still a prefix once trailing slashes are removed |
| AppRoutes.UnderAt | src/App.tsx:75-100 | a path below a starred prefix agrees with it position by position |
| AppRoutes.DiffersAt | src/App.tsx:75-100 | a path that differs from a prefix at some position is not below it |
| AppRoutes.SplatsApart | src/App.tsx:75-100 | two starred routes whose prefixes differ at some position admit no common path |
| AppRoutes.ExactBelowSplat | src/App.tsx:72-111 | a plain route shorter than a starred prefix admits no path the starred route admits |
| AppRoutes.RoutesDisjoint | src/App.tsx:72-113 | no path, in any spelling, matches two routes of the signed-in table, so the order of the table does not decide any path |
| AppRoutes.OnlyMatch | src/App.tsx:72-113 | a path matching one route of the table matches no other |
| AppRoutes.CanonicalPath | src/App.tsx:47-111 | a lower-case path without a trailing slash is matched as it is written |
| AppRoutes.UnauthorizedUnmatched | src/App.tsx:72-113 | /unauthorized matches no route of the table |
| AppRoutes.RouteOf | src/App.tsx:75-100 | each of the three dashboard roles has the route whose starred prefix is its own |
| AppRoutes.SignedOutRoutes | src/App.tsx:47-55 | without a user the login page renders exactly on the paths that match /login (ASCII case ignored, trailing slashes allowed), the setup page exactly on those that match /setup, and every other path redirects to /login |
| AppRoutes.UpperLoginMatches | src/App.tsx:50 | /LOGIN matches the login route |
| AppRoutes.SlashedLoginMatches | src/App.tsx:50 | /login/ matches the login route |
| AppRoutes.SignedOutLoginSpellings | src/App.tsx:47-55 | signed out, /LOGIN and /login/ both render the login page |
| AppRoutes.NoRoleNoDashboard | src/App.tsx:58-67 | a signed-in user without a role sees the loading screen on every path, however many redirects are followed |
| AppRoutes.PrefixAdmitsOnlyItsRole | src/App.tsx:75-100 | every path at or below a dashboard's starred prefix, in any ASCII case, renders that dashboard for its own role and redirects every other role to /unauthorized |
| AppRoutes.PrefixAdmitsOwnRole | src/App.tsx:75-100 | each dashboard prefix as written renders its own role's dashboard |
| AppRoutes.OwnPrefixMatches | src/App.tsx:75-100 | each dashboard prefix matches its own starred route |
| AppRoutes.DashboardMatchesItself | src/App.tsx:103-111 | /dashboard matches the dashboard route |
| AppRoutes.DashboardRedirect | src/App.tsx:103-111 | every path matching /dashboard redirects each of the three dashboard roles to its own prefix and shows a sub_admin "Loading user role..." |
| AppRoutes.RouteShape | src/App.tsx:70-115 | for a dashboard role every path renders that role's dashboard or redirects to its prefix, to /dashboard or to /unauthorized |
| AppRoutes.DashboardLands | src/App.tsx:103-111 | from /dashboard one redirect reaches the role's own dashboard |
| AppRoutes.UnauthorizedGoesToDashboard | src/App.tsx:113 | a signed-in user with a role is sent from /unauthorized to /dashboard |
| AppRoutes.EveryPathReachesOwnDashboard | src/App.tsx:70-115 | every path leads a dashboard role to its own dashboard within three redirects |
| AppRoutes.SubAdminStuck | src/App.tsx:103-113 | a sub_admin, a role with no dashboard, ends on "Loading user role..." from every path |
| AppRoutes.SubAdminRouteShape | src/App.tsx:70-115 | for a sub_admin every path shows the role text or redirects to /dashboard or /unauthorized |
| AuthContext.ResolveIsFirstHit | src/contexts/AuthContext.tsx:89-166 | role resolution asks school_admins, then super_admins, then finance_staff, and takes the first table that has a row for the e-mail |
| AuthContext.FirstHitWins | src/contexts/AuthContext.tsx:103-149 | when every earlier table answers with no row and table i has rows, the role of table i and its first row are taken |
| AuthContext.FirstHitUnresolved | src/contexts/AuthContext.tsx:151-165 | no role is found exactly when every table that has a row is preceded by a table whose query failed |
| AuthContext.SchoolAdminFirst | src/contexts/AuthContext.tsx:93-111 | a school admin row wins: role school_admin, its school id and database id, whatever the other tables hold |
| AuthContext.SuperAdminHasNoSchool | src/contexts/AuthContext.tsx:113-131 | a super admin gets no school id and is stored with an empty school id |
| AuthContext.ResolveNeverSubAdmin | src/contexts/AuthContext.tsx:89-166 | role resolution never yields sub_admin |
| AuthContext.Initial | src/contexts/AuthContext.tsx:42-51 | the provider starts loading, with no user and no role, and in a consistent state |
| AuthContext.TransitionsKeepValid | src/contexts/AuthContext.tsx:204-279 | initialisation, auth events, sign-out, mounting, the timeout and unmounting keep the state consistent |
| AuthContext.ResolvedEffect | src/contexts/AuthContext.tsx:89-166 | after resolution loading is over; an unresolved e-mail clears role, school and id and keeps the stored record; a resolved one sets role and id and stores role, school, e-mail and time |
| AuthContext.FreshRecordSkipsResolution | src/contexts/AuthContext.tsx:64-87 | a stored record for the same e-mail younger than 24 hours supplies role and school without querying the tables |
| AuthContext.StaleRecordResolves | src/contexts/AuthContext.tsx:211-225 | an absent, foreign or stale record leads to role resolution for the session's user |
| AuthContext.AuthEventIgnoresAge | src/contexts/AuthContext.tsx:243-256 | an auth event for the stored e-mail only sets the user, however old the record is |
| AuthContext.SignOutClears | src/contexts/AuthContext.tsx:190-202 | sign-out and a signed-out auth event clear user, role, school, id and the stored record, and leave loading as it was |
| AuthContext.TimeoutEndsLoading | src/contexts/AuthContext.tsx:269-273 | the ten-second timeout ends loading and changes nothing else |
| AuthContext.PersistRoundTrip | src/contexts/AuthContext.tsx:53-87 | a role saved by resolution is read back within 24 hours as the same role and school (an empty school for a super admin) |
| AuthContext.SignIn | src/contexts/AuthContext.tsx:169-188 | sign-in reports no error exactly when the password is accepted, and otherwise the error it got |
| AuthContext.ChangePassword | src/contexts/AuthContext.tsx:289-292 | the update sends the new password |
| AuthContext.ChangePasswordIgnoresCurrent | src/contexts/AuthContext.tsx:289-292 | the current password has no effect on the update |
| AuthContext.RefreshSessionIfNeeded | src/contexts/AuthContext.tsx:309-315 | a refresh is requested exactly when there is a session, and the call never returns a truthy value |
| AuthContext.AuthProvider.constructor | src/contexts/AuthContext.tsx:42-51 | the provider's fields start as the initial state over the stored record |
| AuthContext.AuthProvider.SaveSessionData | src/contexts/AuthContext.tsx:53-62 | the stored record becomes role, school, e-mail and the current time |
| AuthContext.AuthProvider.LoadPersistedSession | src/contexts/AuthContext.tsx:64-87 | returns whether the record is for this e-mail and younger than 24 hours, and then sets role and school from it and ends loading |
| AuthContext.AuthProvider.DetermineUserRole | src/contexts/AuthContext.tsx:89-166 | the new state is the resolution's effect on the old one |
| AuthContext.AuthProvider.ClearRole | src/contexts/AuthContext.tsx:151-165 | role, school and id are cleared and loading ends |
| AuthContext.AuthProvider.InitializeAuth | src/contexts/AuthContext.tsx:207-233 | the new state is the initialisation's effect on the old one |
| AuthContext.AuthProvider.OnAuthStateChange | src/contexts/AuthContext.tsx:237-267 | the new state is the auth event's effect on the old one |
| AuthContext.AuthProvider.SignOut | src/contexts/AuthContext.tsx:190-202 | the new state is the sign-out's effect, a failing remote sign-out changing nothing |
| AuthContext.AuthProvider.Mount | src/contexts/AuthContext.tsx:204-273 | mounting subscribes to auth events and arms the ten-second timeout |
| AuthContext.AuthProvider.TimeoutFired | src/contexts/AuthContext.tsx:269-273 | an armed timeout ends loading and disarms itself |
| AuthContext.AuthProvider.Unmount | src/contexts/AuthContext.tsx:275-278 | unmounting unsubscribes and disarms the timeout, so a later expiry changes nothing |
| SessionRefresh.NoSessionNoEffect | src/hooks/useSessionRefresh.ts:10-11 | without a session the effect schedules nothing and listens to nothing |
| SessionRefresh.AsWiredNeverArms | src/hooks/useSessionRefresh.ts:6-11 | the context always supplies `session: null`, so the hook as mounted arms no timer and no listener |
| SessionRefresh.TimerRule | src/hooks/useSessionRefresh.ts:19-30 | only a pending timer whose time has come fires; it refreshes exactly when more than 30 minutes have passed since the last recorded refresh, and always re-arms itself 45 minutes later |
| SessionRefresh.VisibilityRule | src/hooks/useSessionRefresh.ts:36-47 | returning to the tab refreshes exactly when the listener is installed, the page is visible and more than 10 minutes have passed since the last recorded refresh; the timer is untouched |
| SessionRefresh.CleanupSilences | src/hooks/useSessionRefresh.ts:51-56 | cleanup clears the timer and removes the listener, after which neither a timer firing nor a visibility change does anything |
| SessionRefresh.CleanedUpStaysSilent | src/hooks/useSessionRefresh.ts:51-56 | after cleanup any run of timer and visibility events leaves the hook unchanged and asks for no refresh |
| SessionRefresh.LastRefreshOnlyOnSuccess | src/hooks/useSessionRefresh.ts:24-44 | the recorded refresh time only ever changes to the time of a refresh that reported success |
| SessionRefresh.AsWiredLastRefreshFixed | src/hooks/useSessionRefresh.ts:24-44 | since the refresh call never reports success, the recorded refresh time never changes |
| SessionRefresh.ThrottleIneffectiveAsWired | src/hooks/useSessionRefresh.ts:39-44 | two tab returns one second apart both refresh: the 10-minute throttle never engages |
| SessionRefresh.RefreshReportingSuccess | src/contexts/AuthContext.tsx:309-315 | a refresh call that returns whether it refreshed reports success only when there was a session |
| SessionRefresh.ThrottleHoldsWhenSuccessReported | src/hooks/useSessionRefresh.ts:19-47 | with a refresh that reports success, a refresh records its time and no further refresh happens within 10 minutes on tab return or within 30 minutes on the timer |
| SessionRefresh.SessionRefresher.constructor | src/hooks/useSessionRefresh.ts:7-8 | no timer, no listener, last refresh at time 0 |
| SessionRefresh.SessionRefresher.ScheduleRefresh | src/hooks/useSessionRefresh.ts:14-31 | any pending timer is replaced by one due 45 minutes from now |
| SessionRefresh.SessionRefresher.Mount | src/hooks/useSessionRefresh.ts:10-49 | with a session the timer is scheduled and the listener installed; without one nothing changes |
| SessionRefresh.SessionRefresher.TimerCallback | src/hooks/useSessionRefresh.ts:19-30 | the new state is the timer rule's effect on the old one; a cleared or not yet due timer changes nothing |
| SessionRefresh.SessionRefresher.HandleVisibilityChange | src/hooks/useSessionRefresh.ts:36-47 | the new state is the visibility rule's effect on the old one |
| SessionRefresh.SessionRefresher.Cleanup | src/hooks/useSessionRefresh.ts:51-56 | the timer is cleared and the listener removed |
| Validation.BlankIsTrimEmpty | src/utils/validation.ts:28 | a cell counts as missing exactly when it trims to the empty string |
| Validation.Stamp | src/utils/validation.ts:23-35 | each issue of a row becomes an error carrying the row's 1-based number and the issue's field, message and value, in order |
| Validation.Validate | src/utils/validation.ts:22-88 | the shared `forEach` loop returns the result of the sweep: a row without issues is cleaned and kept, a row with issues contributes all of them; the result is valid exactly when there are no errors |
| Validation.SweepAllOrNothing | src/utils/validation.ts:74-88 | at most every row is kept, there are no errors exactly when every row is kept, and every error names a row between 1 and the number of rows |
| Validation.SweepRowsOrdered | src/utils/validation.ts:22-82 | errors come out in row order |
| Validation.SweepLast | src/utils/validation.ts:74-81 | the last row is appended cleaned when it has no issues against the rows kept before it, and otherwise the kept rows stay as they were |
| Validation.SweepKeeps | src/utils/validation.ts:74-81 | a property of the kept rows that holds initially and survives appending any cleaned issue-free row holds of the final kept rows |
| Validation.RequiredIssues | src/utils/validation.ts:27-36 | one "<field> is required" issue for exactly each required field whose cell is missing or blank |
| Validation.AmountIssues | src/utils/validation.ts:127-137 | an amount raises no issue exactly when it is absent or parses to a number that is not negative |
| Validation.DuplicateIssues | src/utils/validation.ts:65-72 | the duplicate issue is raised exactly when an earlier kept row matched |
| Validation.StudentFieldIssues | src/utils/validation.ts:38-56 | no field issue exactly when a given name trims to at least two characters and a given class trims to at least one |
| Validation.StudentRequiredPresent | src/utils/validation.ts:20-36 | a student row has no required-field issue exactly when name and class are present and not blank |
| Validation.StudentAcceptedIff | src/utils/validation.ts:26-74 | a student row is kept exactly when name and class are present, the trimmed name has at least two characters and no kept row has the same name and class ignoring case and surrounding blanks |
| Validation.ValidateStudentData | src/utils/validation.ts:17-89 | the loop computes the student validation result |
| Validation.KeyOfTrim | src/utils/validation.ts:61-62 | trimming before comparison keys changes nothing |
| Validation.CleanStudentGood | src/utils/validation.ts:75-78 | the kept form of a passing row has a trimmed name of at least two characters and a trimmed non-empty class |
| Validation.StudentKeysDiffer | src/utils/validation.ts:58-63 | a row that matches no kept student differs from each of them in name or class once cleaned |
| Validation.AcceptStudent | src/utils/validation.ts:74-78 | keeping a passing row keeps the kept students well formed and free of repeated name and class |
| Validation.StudentStep | src/utils/validation.ts:74-78 | keeping a row without issues keeps the kept students well formed and distinct |
| Validation.StudentsAccepted | src/utils/validation.ts:17-89 | every kept student is trimmed, named with at least two characters, has a class, and no two share name and class |
| Validation.BlankClassRequired | src/utils/validation.ts:27-36 | a blank class raises "class_name is required" |
| Validation.BlankClassField | src/utils/validation.ts:49-56 | a non-empty blank class also raises "Class name cannot be empty" |
| Validation.BlankClassTwoErrors | src/utils/validation.ts:27-56 | a class of blanks is reported twice, once as required and once as empty |
| Validation.RepeatedStudentRow | src/utils/validation.ts:58-72 | a passing row repeated right after itself gets exactly the duplicate issue naming row 1 |
| Validation.PassingStudentFields | src/utils/validation.ts:26-56 | a passing row raises neither required-field nor field issues |
| Validation.SweepThree | src/utils/validation.ts:22-82 | the error of a third row is numbered 3 whatever happened to the rows before it |
| Validation.DuplicateCountsAcceptedRows | src/utils/validation.ts:59-69 | the duplicate message's row number is the position among kept rows, not among input rows: a repeat of row 2 after a refused row 1 says "row 1" |
| Validation.StatusIssues | src/utils/validation.ts:113-124 | a status raises no issue exactly when absent or, lower-cased and trimmed, "paid" or "unpaid" |
| Validation.DateIssues | src/utils/validation.ts:139-150 | a date raises no issue exactly when absent or accepted by the date parser |
| Validation.PaymentRequiredPresent | src/utils/validation.ts:95-111 | a payment row has no required-field issue exactly when student name, class, fee item and status are present and not blank |
| Validation.PaymentAcceptedIff | src/utils/validation.ts:97-152 | a payment row is kept exactly when the required cells are present, the status is paid or unpaid, a given amount is a number that is not negative and a given date parses |
| Validation.ValidatePaymentData | src/utils/validation.ts:92-171 | the loop computes the payment validation result |
| Validation.CleanPaymentGood | src/utils/validation.ts:152-160 | the kept form of a passing payment has its text cells present, status "paid" or "unpaid" and any amount not negative |
| Validation.AcceptPayment | src/utils/validation.ts:152-160 | keeping a passing payment keeps all kept payments well formed |
| Validation.PaymentStep | src/utils/validation.ts:152-160 | keeping a payment without issues keeps all kept payments well formed |
| Validation.PaymentsAccepted | src/utils/validation.ts:92-171 | every kept payment is well formed |
| Validation.FeeItemNameIssues | src/utils/validation.ts:195-203 | no name issue exactly when a given name trims to at least two characters |
| Validation.FeeItemRequiredPresent | src/utils/validation.ts:177-193 | a fee item row has no required-field issue exactly when name and amount are present and not blank |
| Validation.FeeItemAcceptedIff | src/utils/validation.ts:179-233 | a fee item row is kept exactly when the trimmed name has at least two characters, the amount parses to a number that is not negative, and no kept item has the same name ignoring case and surrounding blanks |
| Validation.ValidateFeeItemData | src/utils/validation.ts:174-248 | the loop computes the fee item validation result |
| Validation.CleanFeeItemGood | src/utils/validation.ts:233-237 | the kept form of a passing fee item has a trimmed name of at least two characters and an amount that is not negative |
| Validation.FeeItemKeysDiffer | src/utils/validation.ts:218-222 | a row that matches no kept item differs from each of them by name once cleaned |
| Validation.FeeItemsSnoc | src/utils/validation.ts:233-237 | appending a good item with a new name keeps the kept items good and distinct |
| Validation.AcceptFeeItem | src/utils/validation.ts:233-237 | keeping a passing fee item keeps the kept items good and distinct |
| Validation.FeeItemStep | src/utils/validation.ts:233-237 | keeping a fee item without issues keeps the kept items good and distinct |
| Validation.FeeItemsAccepted | src/utils/validation.ts:174-248 | every kept fee item is good and no two share a name |
| Validation.ValidateDataVerdict | src/utils/validation.ts:251-271 | an unknown type yields one "Unknown validation type" error at row 0 and no data; every result is valid exactly when it has no errors |
| BulkUpload.TypeName | src/components/BulkUpload.tsx:132 | the upload type is passed to the validators as "students", "payments" or "fee_items" |
| BulkUpload.SampleLinesPlain | src/components/BulkUpload.tsx:165-169 | a sample whose cells hold no comma or line break gives lines without line breaks |
| BulkUpload.ValueLineCells | src/components/BulkUpload.tsx:168 | a sample row's line splits at commas back into the row's values |
| BulkUpload.SampleCells | src/components/BulkUpload.tsx:166-169 | the sample's lines split into the field names of the first row, then each row's values |
| BulkUpload.SampleCsvRoundTrip | src/components/BulkUpload.tsx:165-169 | the sample file, split into lines and cells, gives back the header of field names and every row's values |
| BulkUpload.CheckedValidity | src/components/BulkUpload.tsx:128-145 | after a file is processed and the panel reports, an empty file is never valid; a non-empty file carries the validators' errors and is valid exactly when neither the parser nor the validators found anything |
| BulkUpload.ResetBlocksUpload | src/components/BulkUpload.tsx:147-163 | after a reset no upload can start, and the uploading flag is untouched |
| BulkUpload.FailureKeepsFile | src/components/BulkUpload.tsx:123-155 | a failed upload reports its message, ends uploading and keeps the file |
| BulkUpload.Uploader.constructor | src/components/BulkUpload.tsx:32-37 | no file, no errors, not valid, not uploading |
| BulkUpload.Uploader.HandleFileProcessed | src/components/BulkUpload.tsx:128-140 | the file and its parse errors are stored; a non-empty file takes the validators' errors and verdict, an empty one is not valid |
| BulkUpload.Uploader.HandleValidationComplete | src/components/BulkUpload.tsx:142-145 | the panel's verdict and errors replace the stored ones |
| BulkUpload.Uploader.HandleUpload | src/components/BulkUpload.tsx:147-152 | the rows are sent exactly when the file is valid and not empty, and uploading starts; otherwise nothing changes |
| BulkUpload.Uploader.OnUploadSettled | src/components/BulkUpload.tsx:84-126 | without a school the call fails with "School ID not found"; success reports the number of rows returned (0 when none) and resets; failure reports the message; uploading ends in every case |
| BulkUpload.Uploader.ResetUpload | src/components/BulkUpload.tsx:158-163 | file, errors and verdict are cleared |
| DataValidator.SummaryAsWritten | src/components/DataValidator.tsx:27-29 | the panel counts parse and validation errors together, and reports errors exactly when the count is positive |
| DataValidator.ErrorRows | src/components/DataValidator.tsx:28 | the rows named by the errors, each once |
| DataValidator.SummaryCorrected | src/components/DataValidator.tsx:27-29 | the same counts, with valid rows counted as rows minus rows with errors, never more than the rows |
| DataValidator.Verdict | src/components/DataValidator.tsx:31-33 | the panel reports valid exactly when there are no parse and no validation errors, and passes the rows and the validation errors on |
| DataValidator.ShownValidationErrors | src/components/DataValidator.tsx:95-106 | exactly the first min(10, n) of the n validation errors are listed, and the rest are counted |
| DataValidator.ShownParseErrors | src/components/DataValidator.tsx:121-129 | exactly the first min(5, n) of the n parse errors are listed, and the rest are counted |
| DataValidator.BlankClassIssueCount | src/utils/validation.ts:27-56 | a student row whose class is only blanks gets at least two issues |
| DataValidator.SweepOne | src/utils/validation.ts:22-82 | a one-row file's errors are its issues numbered 1 |
| DataValidator.ValidRowsNegativeAsWritten | src/components/DataValidator.tsx:28 | as written, a one-row file whose class is only blanks shows a negative number of valid rows |
| DataValidator.SweepErrorRows | src/utils/validation.ts:74-81 | the rows with errors and the kept rows together account for every row |
| DataValidator.ValidRowsCorrected | src/components/DataValidator.tsx:28 | counting rows rather than errors, the valid-row count equals the number of rows the validators kept, and is never negative |
| SimpleBulkImport.NameIndexRule | src/components/school-admin/SimpleBulkImport.tsx:46-48 | the name column is the first header mentioning "name" or "student", ignoring case, or -1 when none does |
| SimpleBulkImport.FirstHeaderServesBoth | src/components/school-admin/SimpleBulkImport.tsx:46-51 | a first header mentioning both "name" and "class" is taken as both the name and the class column |
| SimpleBulkImport.ParseStudents | src/components/school-admin/SimpleBulkImport.tsx:58-62 | the mapped rows never outnumber the table's rows |
| SimpleBulkImport.ParsedFromRows | src/components/school-admin/SimpleBulkImport.tsx:58-62 | every student kept comes from one row: its trimmed name and class cells, both non-empty, and the row's number in the file (its index plus 2) |
| SimpleBulkImport.ParsedInRowOrder | src/components/school-admin/SimpleBulkImport.tsx:58-62 | the students kept are in strictly increasing row order |
| SimpleBulkImport.CompleteRowsKept | src/components/school-admin/SimpleBulkImport.tsx:58-62 | every row whose trimmed name and class cells are non-empty is kept |
| SimpleBulkImport.FormatsAgree | src/components/school-admin/SimpleBulkImport.tsx:34-107 | a CSV file and a spreadsheet with the same table give the same result |
| SimpleBulkImport.TableReadRule | src/components/school-admin/SimpleBulkImport.tsx:42-65 | a missing name or class column sets the one error message and changes nothing else; otherwise the preview shows the mapped rows |
| SimpleBulkImport.ImportNeedsStudents | src/components/school-admin/SimpleBulkImport.tsx:161-165 | the import changes nothing when there are no students, and otherwise moves to the importing step |
| SimpleBulkImport.PreviewRows | src/components/school-admin/SimpleBulkImport.tsx:299-313 | the preview lists at most the first 10 students and counts the rest |
| SimpleBulkImport.SimpleImporter.constructor | src/components/school-admin/SimpleBulkImport.tsx:24-28 | the upload step, no students, no errors, no results |
| SimpleBulkImport.SimpleImporter.OnFileParsed | src/components/school-admin/SimpleBulkImport.tsx:31-108 | a CSV parse error or an empty table changes nothing; otherwise the table is read |
| SimpleBulkImport.SimpleImporter.HandleImport | src/components/school-admin/SimpleBulkImport.tsx:161-165 | the new state is the import's start |
| SimpleBulkImport.SimpleImporter.OnImportSettled | src/components/school-admin/SimpleBulkImport.tsx:131-159 | without a school the result is "No school ID"; success gives the inserted count (0 when absent) and one line per failed student; failure gives its message; the step becomes complete |
| SimpleBulkImport.SimpleImporter.ResetImport | src/components/school-admin/SimpleBulkImport.tsx:167-173 | everything returns to the initial state |
| BulkStudentImport.ReplaceSeparators | src/components/school-admin/BulkStudentImport.tsx:183 | every comma, underscore and hyphen becomes a space and every other character stays |
| BulkStudentImport.CollapseSpacesFacts | src/components/school-admin/BulkStudentImport.tsx:184 | runs of white space become single spaces: the visible characters are kept in order, nothing else is added, and the result ends in a space exactly when the input ends in white space |
| BulkStudentImport.CollapseCollapsed | src/components/school-admin/BulkStudentImport.tsx:184 | collapsing text that already has single spaces changes nothing |
| BulkStudentImport.Title | src/components/school-admin/BulkStudentImport.tsx:185-187 | a character right after a space, or at the start, is upper-cased; every other character is lower-cased |
| BulkStudentImport.CapitalizeIsTitle | src/components/school-admin/BulkStudentImport.tsx:186 | capitalising one word is the per-character rule on that word |
| BulkStudentImport.TitleWordsIsTitle | src/components/school-admin/BulkStudentImport.tsx:185-187 | splitting at spaces, capitalising each word and joining with spaces is the per-character rule |
| BulkStudentImport.CleanNameIsTitle | src/components/school-admin/BulkStudentImport.tsx:182-187 | the cleaned name is the per-character rule applied to the name with separators spaced and white space collapsed |
| BulkStudentImport.TitleKeepsSpaces | src/components/school-admin/BulkStudentImport.tsx:185-187 | capitalising keeps the spaces where they are |
| BulkStudentImport.Spaced | src/components/school-admin/BulkStudentImport.tsx:183-184 | after the two replacements there are no separators and no runs of white space, and the text is empty only if the name was |
| BulkStudentImport.TitleShape | src/components/school-admin/BulkStudentImport.tsx:182-187 | capitalised spaced text has single spaces, no separators, no lower-case letter starting a word and no upper-case letter inside one |
| BulkStudentImport.TitleLower | src/components/school-admin/BulkStudentImport.tsx:186 | capitalising changes only letter case |
| BulkStudentImport.CleanNameRules | src/components/school-admin/BulkStudentImport.tsx:182-187 | a cleaned name has that shape, equals the spaced name ignoring case, is no longer than the name and is empty only if the name is |
| BulkStudentImport.TitleTwice | src/components/school-admin/BulkStudentImport.tsx:185-187 | capitalising twice is capitalising once |
| BulkStudentImport.CleanNameIdempotent | src/components/school-admin/BulkStudentImport.tsx:182-187 | cleaning a cleaned name gives it back |
| BulkStudentImport.KeywordAt | src/components/school-admin/BulkStudentImport.tsx:194 | a keyword found at the start of the text is "class", "grade" or "form" and is a prefix of it |
| BulkStudentImport.RemoveFirstKeyword | src/components/school-admin/BulkStudentImport.tsx:194 | removing the keyword only deletes characters |
| BulkStudentImport.NoKeywordUnchanged | src/components/school-admin/BulkStudentImport.tsx:194 | text with no keyword anywhere is left as it is |
| BulkStudentImport.RemovesLeftmostKeyword | src/components/school-admin/BulkStudentImport.tsx:194 | exactly the leftmost keyword is cut out, everything around it kept |
| BulkStudentImport.CleanClassRules | src/components/school-admin/BulkStudentImport.tsx:190-199 | a non-empty class cell gives a non-empty class that is either all lower-case letters and digits or the lower-cased cell |
| BulkStudentImport.CleanClassKeywordOnly | src/components/school-admin/BulkStudentImport.tsx:194-199 | a cell that is nothing but a keyword falls back to the lower-cased cell |
| BulkStudentImport.LastMatch | src/components/school-admin/BulkStudentImport.tsx:58-76 | a chosen header is one of the headers and matches |
| BulkStudentImport.LastMatchSpec | src/components/school-admin/BulkStudentImport.tsx:58-76 | no header is chosen exactly when none matches; otherwise the chosen header is the last one that matches |
| BulkStudentImport.DetectColumns | src/components/school-admin/BulkStudentImport.tsx:44-79 | the overwriting loop over the headers chooses the last matching name header and the last matching class header |
| BulkStudentImport.BlankHeaderMatchesBoth | src/components/school-admin/BulkStudentImport.tsx:62-73 | a blank header is contained in every variation, so it matches both lists |
| BulkStudentImport.BlankLastHeaderTakesBoth | src/components/school-admin/BulkStudentImport.tsx:58-76 | a blank last header is chosen for both the name and the class column |
| BulkStudentImport.NameAndClassHeaderMatchesBoth | src/components/school-admin/BulkStudentImport.tsx:62-73 | a header containing both "name" and "class" matches both lists |
| BulkStudentImport.HeaderIndex | src/components/school-admin/BulkStudentImport.tsx:161-162 | the first position holding the header, or -1 exactly when it is absent |
| BulkStudentImport.PositionOf | src/components/school-admin/BulkStudentImport.tsx:161-162 | for a present header, the first position holding it |
| BulkStudentImport.Processed | src/components/school-admin/BulkStudentImport.tsx:164-201 | every row gives either one student or one error line |
| BulkStudentImport.ProcessRows | src/components/school-admin/BulkStudentImport.tsx:167-201 | the loop over the rows collects the students and the error lines of the row-by-row definition |
| BulkStudentImport.ProcessedSplitsRows | src/components/school-admin/BulkStudentImport.tsx:167-201 | the students are the complete rows, cleaned, in order |
| BulkStudentImport.ProcessedErrorPerIncompleteRow | src/components/school-admin/BulkStudentImport.tsx:171-179 | there is one error line per row missing its name or class |
| BulkStudentImport.CleanRowGood | src/components/school-admin/BulkStudentImport.tsx:181-200 | a complete row gives a student with a cleaned, non-empty name and a non-empty class |
| BulkStudentImport.ProcessedStudentsGood | src/components/school-admin/BulkStudentImport.tsx:164-201 | every student sent has a cleaned, non-empty name and a non-empty class |
| BulkStudentImport.FileParsedRule | src/components/school-admin/BulkStudentImport.tsx:82-135 | a parser error or an empty table changes nothing; otherwise the first row is the header row, the rest are the rows, the columns are detected and the step is mapping |
| BulkStudentImport.ProcessNeedsBothColumns | src/components/school-admin/BulkStudentImport.tsx:159 | processing changes nothing without parsed data and two chosen columns |
| BulkStudentImport.ProcessAccountsForEveryRow | src/components/school-admin/BulkStudentImport.tsx:158-205 | processing moves to the preview, keeps the table, and accounts for every row once, each student well formed |
| BulkStudentImport.ImportAlwaysCompletes | src/components/school-admin/BulkStudentImport.tsx:208-238 | the import always completes: "No school ID" without a school, the error's message on failure, otherwise the inserted count (0 when absent) and one line per refused row |
| BulkStudentImport.ResetClearsEverything | src/components/school-admin/BulkStudentImport.tsx:246-252 | reset returns to the upload step with nothing parsed, no mapping and no results |
| BulkStudentImport.ImportWizard.constructor | src/components/school-admin/BulkStudentImport.tsx:37-41 | the wizard starts at the upload step with nothing parsed, no mapping and no results |
| BulkStudentImport.ImportWizard.OnFileParsed | src/components/school-admin/BulkStudentImport.tsx:82-135 | the new state is the parsed-file transition of the old one |
| BulkStudentImport.ImportWizard.ChooseNameColumn | src/components/school-admin/BulkStudentImport.tsx:360 | only the name column choice changes |
| BulkStudentImport.ImportWizard.ChooseClassColumn | src/components/school-admin/BulkStudentImport.tsx:376 | only the class column choice changes |
| BulkStudentImport.ImportWizard.ProcessMappedData | src/components/school-admin/BulkStudentImport.tsx:158-205 | the new state is the processing transition of the old one |
| BulkStudentImport.ImportWizard.Back | src/components/school-admin/BulkStudentImport.tsx:462 | only the step changes, back to mapping |
| BulkStudentImport.ImportWizard.HandleImport | src/components/school-admin/BulkStudentImport.tsx:240-244 | with parsed data the step becomes importing; otherwise nothing changes |
| BulkStudentImport.ImportWizard.OnImportSettled | src/components/school-admin/BulkStudentImport.tsx:208-238 | the new state is the settled-import transition of the old one |
| BulkStudentImport.ImportWizard.ResetImport | src/components/school-admin/BulkStudentImport.tsx:246-252 | the new state is the initial one |
| FlexibleBulkImport.RowToRecord | src/components/school-admin/FlexibleBulkImport.tsx:77-83 | the loop over the headers builds the row's record of the row-to-record definition |
| FlexibleBulkImport.RowRecordSpec | src/components/school-admin/FlexibleBulkImport.tsx:77-83 | a row's record has exactly the headers as keys, and a header's value is its last column's cell, or "" when the row is short |
| FlexibleBulkImport.ContentRecords | src/components/school-admin/FlexibleBulkImport.tsx:88-91 | the records kept are exactly those with some non-blank value |
| FlexibleBulkImport.SheetRecords | src/components/school-admin/FlexibleBulkImport.tsx:69-83 | the loop over a sheet's rows gives the records of the sheet upload |
| FlexibleBulkImport.ColumnId | src/components/school-admin/FlexibleBulkImport.tsx:249 | the id has the name's length; every character is a lower-case letter, a digit or "_", and the name's lower-cased letters and digits stay in place |
| FlexibleBulkImport.FileColumns | src/components/school-admin/FlexibleBulkImport.tsx:122 | the file columns of the mapping list, in order |
| FlexibleBulkImport.MappingChangedSpec | src/components/school-admin/FlexibleBulkImport.tsx:120-133 | a changed mapping retargets the entries of that file column (mapped exactly when the target is non-empty), appends one when none exists, and leaves the others alone |
| FlexibleBulkImport.MappingChangedNoDup | src/components/school-admin/FlexibleBulkImport.tsx:120-133 | changing mappings never lists a file column twice |
| FlexibleBulkImport.MappingRemoved | src/components/school-admin/FlexibleBulkImport.tsx:135-137 | removal drops every entry of that file column and keeps every other entry |
| FlexibleBulkImport.RemoveAfterChange | src/components/school-admin/FlexibleBulkImport.tsx:120-137 | removing a file column after changing its mapping is the same as removing it |
| FlexibleBulkImport.RemoveAfterRetarget | src/components/school-admin/FlexibleBulkImport.tsx:124-136 | retargeting a column's entries does not affect the entries of other columns |
| FlexibleBulkImport.BuildStudentData | src/components/school-admin/FlexibleBulkImport.tsx:145-156 | the loop over the mappings builds the record of the student-data definition |
| FlexibleBulkImport.StudentDataKey | src/components/school-admin/FlexibleBulkImport.tsx:145-156 | a database column is sent exactly when a mapped entry targets it with a non-blank cell, and its value is the trimmed cell of the last such entry (later entries overwrite earlier ones) |
| FlexibleBulkImport.StudentDataSpec | src/components/school-admin/FlexibleBulkImport.tsx:145-156 | the same, for every database column at once |
| FlexibleBulkImport.ImportPayload | src/components/school-admin/FlexibleBulkImport.tsx:141-158 | the payload has at most one record per row and no empty record |
| FlexibleBulkImport.StudentDataValues | src/components/school-admin/FlexibleBulkImport.tsx:148-156 | every value sent is trimmed, non-empty and under a mapped database column |
| FlexibleBulkImport.PayloadRecordsSpec | src/components/school-admin/FlexibleBulkImport.tsx:141-158 | every record sent is non-empty, comes from one row, and holds only trimmed non-empty values under mapped columns |
| FlexibleBulkImport.ColumnToggleRule | src/components/school-admin/FlexibleBulkImport.tsx:111-117 | toggling flips exactly that column's membership, and toggling an unselected column twice restores the selection |
| FlexibleBulkImport.NextGuards | src/components/school-admin/FlexibleBulkImport.tsx:405-432 | Next leaves the select step exactly when a column is selected and the mapping step exactly when something is mapped; it changes neither list |
| FlexibleBulkImport.BackWalksBack | src/components/school-admin/FlexibleBulkImport.tsx:389-399 | Back moves select to upload, mapping to select and preview to mapping, changing nothing else |
| FlexibleBulkImport.FailureStaysImporting | src/components/school-admin/FlexibleBulkImport.tsx:140-184 | a failed call, made with a school and rows, leaves the wizard as it was |
| FlexibleBulkImport.FlexibleImporter.constructor | src/components/school-admin/FlexibleBulkImport.tsx:41-47 | the wizard starts at the upload step with empty lists and no result |
| FlexibleBulkImport.FlexibleImporter.OnFileParsed | src/components/school-admin/FlexibleBulkImport.tsx:50-100 | the new state is the file-read transition of the old one |
| FlexibleBulkImport.FlexibleImporter.HandleColumnToggle | src/components/school-admin/FlexibleBulkImport.tsx:111-117 | the new state is the toggle transition of the old one |
| FlexibleBulkImport.FlexibleImporter.HandleMappingChange | src/components/school-admin/FlexibleBulkImport.tsx:120-133 | the new state is the mapping-change transition of the old one |
| FlexibleBulkImport.FlexibleImporter.HandleRemoveMapping | src/components/school-admin/FlexibleBulkImport.tsx:135-137 | the new state is the removal transition of the old one |
| FlexibleBulkImport.FlexibleImporter.Next | src/components/school-admin/FlexibleBulkImport.tsx:405-432 | the new state is the Next transition of the old one, the preview's Next being the import |
| FlexibleBulkImport.FlexibleImporter.Back | src/components/school-admin/FlexibleBulkImport.tsx:389-399 | the new state is the Back transition of the old one |
| FlexibleBulkImport.FlexibleImporter.OnImportSettled | src/components/school-admin/FlexibleBulkImport.tsx:140-184 | the new state is the settled-import transition of the old one |
| FlexibleBulkImport.FlexibleImporter.HandleReset | src/components/school-admin/FlexibleBulkImport.tsx:192-200 | the new state is the initial one |
| SmartMapping.Normalize | src/components/school-admin/SmartMapping.tsx:43 | the normalised header holds only lower-case letters and digits |
| SmartMapping.Suggest | src/components/school-admin/SmartMapping.tsx:42-55 | a suggestion is empty or one of the database column ids offered |
| SmartMapping.NormalizeIdempotent | src/components/school-admin/SmartMapping.tsx:43 | normalising twice is normalising once, so a normalised header gets the same suggestion |
| SmartMapping.NormalizeKeepsWord | src/components/school-admin/SmartMapping.tsx:43 | a lower-case alphanumeric word in the header survives normalisation |
| SmartMapping.NameRuleFirst | src/components/school-admin/SmartMapping.tsx:46-47 | a header spelling "name" without "parent" is suggested as the student's name, even "class_name" |
| SmartMapping.ParentNameRule | src/components/school-admin/SmartMapping.tsx:46-50 | a header with both "parent" and "name" always gets a suggestion, never the student's name |
| SmartMapping.ParentAndNameSuggested | src/components/school-admin/SmartMapping.tsx:46-50 | the same for a header already normalised |
| SmartMapping.FindMapping | src/components/school-admin/SmartMapping.tsx:58-60 | a lookup finds nothing exactly when the file column has no entry, and otherwise an entry of that column |
| SmartMapping.LookupAfterChange | src/components/school-admin/SmartMapping.tsx:62-70 | after a change the column reads back the new target and is mapped exactly when the target is non-empty |
| SmartMapping.LookupAfterRemove | src/components/school-admin/SmartMapping.tsx:62-70 | after a removal the column reads back unmapped with an empty target |
| SmartMapping.FindAfterRetarget | src/components/school-admin/SmartMapping.tsx:58-60 | retargeting one column does not change the lookup of another |
| SmartMapping.FindAfterAppend | src/components/school-admin/SmartMapping.tsx:58-60 | appending an entry for one column does not change the lookup of another |
| SmartMapping.OtherColumnsUnaffected | src/components/school-admin/SmartMapping.tsx:58-70 | changing or removing one column's mapping leaves every other column's lookup as it was |
| SmartMapping.FindAfterRemove | src/components/school-admin/SmartMapping.tsx:58-60 | removing one column's entries does not change the lookup of another |
| SmartMapping.AvailableOptions | src/components/school-admin/SmartMapping.tsx:72-74 | an option is offered exactly when its id is among the selected columns |
| SmartMapping.AutoMapIgnoresSelection | src/components/school-admin/SmartMapping.tsx:91-131 | auto-mapping an unmapped column maps it to the suggestion, even when the suggestion is not among the options offered |
| SmartMapping.MappingSummary | src/components/school-admin/SmartMapping.tsx:162 | the mapped count is the number of entries marked mapped, zero exactly when none is and the number of entries exactly when all are, out of the file's column count |
| ColumnSelector.TemplateSelected | src/components/school-admin/ColumnSelector.tsx:232-237 | picking a template selects exactly its column ids in order, records the template and moves to customising |
| ColumnSelector.ColumnToggleRule | src/components/school-admin/ColumnSelector.tsx:239-247 | toggling flips exactly that column's membership, keeps the selection free of repeats, and changes neither the step nor the template |
| ColumnSelector.Continued | src/components/school-admin/ColumnSelector.tsx:411-413 | Continue hands over the selection exactly when it is not empty |
| ColumnSelector.GroupedColumnsRule | src/components/school-admin/ColumnSelector.tsx:254-260 | every category appears once, every column sits in its category's bucket only, and each bucket keeps the catalogue's order |
| ColumnSelector.ColumnSelectorDialog.constructor | src/components/school-admin/ColumnSelector.tsx:30-32 | the dialog starts on the template step with full_name and class_name selected and no template |
| ColumnSelector.ColumnSelectorDialog.HandleTemplateSelect | src/components/school-admin/ColumnSelector.tsx:232-237 | the new state is the template-selected transition of the old one |
| ColumnSelector.ColumnSelectorDialog.HandleColumnToggle | src/components/school-admin/ColumnSelector.tsx:239-247 | the new state is the toggle transition of the old one |
| ColumnSelector.ColumnSelectorDialog.HandleBack | src/components/school-admin/ColumnSelector.tsx:334 | only the step changes, back to the templates |
| ColumnSelector.ColumnSelectorDialog.HandleContinue | src/components/school-admin/ColumnSelector.tsx:249-252 | what is handed over is the continue rule applied to the current state; the `onClose()` that follows is the parent's and is not recorded |
| ColumnSelection.CategoryName | src/components/school-admin/ColumnSelection.tsx:34-41 | a category is shown as "Other" exactly when it is none of the three named ones |
| ColumnSelection.GroupedColumnsRule | src/components/school-admin/ColumnSelection.tsx:43-49 | every category appears once, every option sits in its category's bucket only, and each bucket keeps the catalogue's order |
| ColumnSelection.ColumnIdOfLower | src/components/school-admin/ColumnSelection.tsx:72 | the column id of a header does not depend on its case |
| ColumnSelection.AvailabilityIgnoresCase | src/components/school-admin/ColumnSelection.tsx:71-75 | an option's availability does not depend on the case of the file's headers |
| ColumnSelection.BlankHeaderOffersAll | src/components/school-admin/ColumnSelection.tsx:71-75 | a blank header makes every option available |
| ColumnSelection.SameNameOffers | src/components/school-admin/ColumnSelection.tsx:73-74 | a header equal to an option's name, ignoring case, makes it available |
| ColumnSelection.DisplayNameIn | src/components/school-admin/ColumnSelection.tsx:128-130 | the display name is that of the first option with the id, or empty when there is none |
| ColumnSelection.SelectionSummary | src/components/school-admin/ColumnSelection.tsx:125-131 | the summary counts the selected columns out of all options and lists each selected column's display name in order |
| InvoiceGeneration.FilteredStudents | src/components/school-admin/InvoiceGeneration.tsx:241-246 | a student is listed exactly when the term occurs in their name or class, ignoring case, and the class filter is empty or their class |
| InvoiceGeneration.EmptySearchMatchesAll | src/components/school-admin/InvoiceGeneration.tsx:242-243 | an empty term matches every student |
| InvoiceGeneration.IndividualSelectionStudents | src/components/school-admin/InvoiceGeneration.tsx:251-259 | nothing while the list is hidden; the selected students once some are selected; otherwise exactly the search hits |
| InvoiceGeneration.UniqueClassesSpec | src/components/school-admin/InvoiceGeneration.tsx:262 | the class list is sorted, repeats nothing and holds exactly the students' classes |
| InvoiceGeneration.StudentToggleRule | src/components/school-admin/InvoiceGeneration.tsx:265-273 | toggling flips exactly that id, and toggling twice restores the selection |
| InvoiceGeneration.SelectAllWithSelectionClears | src/components/school-admin/InvoiceGeneration.tsx:251-281 | with a selection whose ids are listed once, the list shows exactly the selection, and Select All clears it |
| InvoiceGeneration.SelectAllFromEmpty | src/components/school-admin/InvoiceGeneration.tsx:254-281 | from an empty selection with students shown, Select All selects exactly the ids of the search hits |
| InvoiceGeneration.ClassSelectionRule | src/components/school-admin/InvoiceGeneration.tsx:283-296 | ids outside the class keep their state; a fully selected class is deselected, any other class becomes fully selected; an empty class changes nothing |
| InvoiceGeneration.ClassButtonAgrees | src/components/school-admin/InvoiceGeneration.tsx:582-604 | the class button's selection change is the select-all-in-class rule, and a class not fully selected also opens the list |
| InvoiceGeneration.ProcedureFor | src/components/school-admin/InvoiceGeneration.tsx:129-152 | the per-student procedure is called exactly for a non-empty id list; otherwise the whole-school one |
| InvoiceGeneration.GenerateGuard | src/components/school-admin/InvoiceGeneration.tsx:174-198 | nothing is sent exactly when the fee item or the due date is missing, which is reported as a failure; otherwise the fee item is sent, to the whole school when nobody is selected and to the selection otherwise |
| InvoiceGeneration.SubmitSends | src/components/school-admin/InvoiceGeneration.tsx:708 | whenever the submit button is enabled, pressing it sends a request and marks the screen generating |
| InvoiceGeneration.SettledRule | src/components/school-admin/InvoiceGeneration.tsx:154-197 | generation stops and a result shows, successful exactly when the call succeeded; success clears the form and the selection, failure keeps them and shows a non-empty message |
| InvoiceGeneration.ReplaceFirstDash | src/components/school-admin/InvoiceGeneration.tsx:204 | only the first dash, if any, becomes a space; the length and every other character stay |
| InvoiceGeneration.FindPrefilledFeeItem | src/components/school-admin/InvoiceGeneration.tsx:203-206 | nothing is found exactly when no fee item matches the option; otherwise the first matching fee item |
| InvoiceGeneration.PrefilledMatchIgnoresCase | src/components/school-admin/InvoiceGeneration.tsx:204-205 | the match does not depend on the case of the fee item's name |
| InvoiceGeneration.PrefilledRule | src/components/school-admin/InvoiceGeneration.tsx:201-236 | an option card sends a request exactly when some fee item matches, always to the whole-school procedure; an unmatched card changes nothing |
| InvoiceGeneration.InvoiceGenerator.constructor | src/components/school-admin/InvoiceGeneration.tsx:83-93 | the screen starts with empty fields, no selection, no result and both panels hidden |
| InvoiceGeneration.InvoiceGenerator.SetFields | src/components/school-admin/InvoiceGeneration.tsx:446 | only the fee item, the due date and the search term change |
| InvoiceGeneration.InvoiceGenerator.HandleStudentSelection | src/components/school-admin/InvoiceGeneration.tsx:265-273 | only the selection changes, by the toggle rule |
| InvoiceGeneration.InvoiceGenerator.HandleSelectAll | src/components/school-admin/InvoiceGeneration.tsx:275-281 | only the selection changes, by the select-all rule over the students shown |
| InvoiceGeneration.InvoiceGenerator.HandleSelectAllInClass | src/components/school-admin/InvoiceGeneration.tsx:283-296 | only the selection changes, by the select-all-in-class rule |
| InvoiceGeneration.InvoiceGenerator.HandleClassButton | src/components/school-admin/InvoiceGeneration.tsx:588-601 | the selection and the list's visibility change by the class-button rule |
| InvoiceGeneration.InvoiceGenerator.HandleAllStudents | src/components/school-admin/InvoiceGeneration.tsx:567-570 | the selection is cleared and the list opens |
| InvoiceGeneration.InvoiceGenerator.ClearSelection | src/components/school-admin/InvoiceGeneration.tsx:298-300 | only the selection is cleared |
| InvoiceGeneration.InvoiceGenerator.ToggleStudentList | src/components/school-admin/InvoiceGeneration.tsx:625 | only the list's visibility flips |
| InvoiceGeneration.InvoiceGenerator.CloseTemplates | src/components/school-admin/InvoiceGeneration.tsx:367 | only the prefilled panel closes |
| InvoiceGeneration.InvoiceGenerator.HandleGenerateInvoices | src/components/school-admin/InvoiceGeneration.tsx:174-192 | the new state and the request sent are those of the generate rule |
| InvoiceGeneration.InvoiceGenerator.HandlePrefilled | src/components/school-admin/InvoiceGeneration.tsx:201-230 | the new state and the request sent are those of the prefilled rule |
| InvoiceGeneration.InvoiceGenerator.OnGenerationSettled | src/components/school-admin/InvoiceGeneration.tsx:154-197 | the new state is the settled-generation transition of the old one |
| InvoiceGeneration.DeleteAll | src/components/school-admin/InvoiceGeneration.tsx:291 | deleting the ids one by one removes exactly those ids |
| InvoiceGeneration.AddAll | src/components/school-admin/InvoiceGeneration.tsx:293 | adding the ids one by one adds exactly those ids |
| Reports.FilteredInvoices | src/components/school-admin/Reports.tsx:96-106 | an invoice is listed exactly when it passes the status, class, fee item and search filters, "all" letting everything through |
| Reports.NoFilterShowsAll | src/components/school-admin/Reports.tsx:96-106 | with every filter at "all" and no search term, every invoice is listed in order |
| Reports.SearchIgnoresCase | src/components/school-admin/Reports.tsx:100-103 | a term and its lower-case spelling match the same invoices |
| Reports.PickListsRule | src/components/school-admin/Reports.tsx:108-109 | the class and fee item lists repeat nothing, hold exactly the invoices' values, and keep their first-appearance order |
| Reports.ImageMembership | src/components/school-admin/Reports.tsx:108-109 | a value is in the mapped list exactly when some invoice has it |
| Reports.InvoiceCheckRule | src/components/school-admin/Reports.tsx:196-202 | checking appends the id once more; unchecking removes every copy of it and keeps every other id |
| Reports.SelectAllRule | src/components/school-admin/Reports.tsx:205-214 | checking the header selects exactly the unpaid listed invoices; unchecking selects nothing |
| Reports.SelectAllChecksHeader | src/components/school-admin/Reports.tsx:205-214 | after selecting all, the header shows checked exactly when some listed invoice is unpaid |
| Reports.MarkPaid | src/components/school-admin/Reports.tsx:113-154 | the update keeps every row and sets status paid and the paid date on exactly the rows whose id is requested |
| Reports.PaidLeaveSelectAll | src/components/school-admin/Reports.tsx:142-210 | once paid, an invoice is never picked by Select All again |
| Reports.BulkPayRequested | src/components/school-admin/Reports.tsx:175-184 | nothing is sent exactly when no invoice is selected; otherwise the selected ids with today's date |
| Reports.ConfirmRequested | src/components/school-admin/Reports.tsx:186-194 | nothing is sent exactly when no invoice is chosen or the date is empty; otherwise that one invoice with the chosen date |
| Reports.ConfirmPaysChosenInvoice | src/components/school-admin/Reports.tsx:168-194 | confirming a freshly opened dialog pays exactly the chosen invoice on today's date |
| Reports.ReportsScreen.constructor | src/components/school-admin/Reports.tsx:40-47 | the screen starts with every filter at "all", no term, no selection and the dialog closed |
| Reports.ReportsScreen.SetFilters | src/components/school-admin/Reports.tsx:401-448 | only the filters change |
| Reports.ReportsScreen.HandleInvoiceSelection | src/components/school-admin/Reports.tsx:196-202 | only the selection changes, by the check rule |
| Reports.ReportsScreen.HandleSelectAll | src/components/school-admin/Reports.tsx:205-214 | only the selection changes, by the select-all rule over the listed invoices |
| Reports.ReportsScreen.HandleBulkMarkAsPaid | src/components/school-admin/Reports.tsx:175-184 | the request sent is that of the bulk rule, and nothing changes |
| Reports.ReportsScreen.OnBulkSettled | src/components/school-admin/Reports.tsx:156-166 | success clears the selection; failure changes nothing |
| Reports.ReportsScreen.HandleMarkAsPaid | src/components/school-admin/Reports.tsx:168-173 | the dialog opens for the invoice with today's date |
| Reports.ReportsScreen.SetPaymentDate | src/components/school-admin/Reports.tsx:633 | only the chosen date changes |
| Reports.ReportsScreen.CloseModal | src/components/school-admin/Reports.tsx:600 | only the dialog closes |
| Reports.ReportsScreen.HandleConfirmPayment | src/components/school-admin/Reports.tsx:186-194 | the request sent is that of the confirm rule, and nothing changes |
| Reports.ReportsScreen.OnPaymentSettled | src/components/school-admin/Reports.tsx:127-139 | success closes the dialog and forgets the invoice and the date; failure changes nothing |
| ReportExport.ExportCsvAsWritten | src/components/school-admin/Reports.tsx:216-231 | as written, nothing is exported exactly when no invoice is listed |
| ReportExport.ExportCsv | src/components/school-admin/Reports.tsx:216-217 | with corrected quoting, nothing is exported exactly when no invoice is listed |
| ReportExport.ExportCsvReadsBack | src/components/school-admin/Reports.tsx:216-231 | with corrected quoting and fields without line breaks or bare commas, the export is the header followed by one line per listed invoice, and line k reads back as exactly the seven fields of the k-th invoice |
| ReportExport.ReportLineAsWrittenHasNoBreak | src/components/school-admin/Reports.tsx:222-230 | as written, an invoice without line breaks gives a line without one |
| ReportExport.ExportCsvAsWrittenBreaks | src/components/school-admin/Reports.tsx:216-231 | as written, an export whose first invoice names a student `a"` has a second line that no CSV reader accepts |
| ReportExport.NumberIsBare | src/components/school-admin/Reports.tsx:226 | a written amount needs no quoting |
| ReportExport.ReportCellsWellFormed | src/components/school-admin/Reports.tsx:222-230 | with plain dates, every cell of a line is well formed and the cells carry the invoice's seven fields |
| ReportExport.ReportLineRoundTrip | src/components/school-admin/Reports.tsx:222-230 | with plain dates, a CSV reader gets back exactly the invoice's seven fields from its line, whatever the names hold |
| ReportExport.DocumentLines | src/components/school-admin/Reports.tsx:220-231 | a document of single-line parts splits at line breaks back into the header and the lines |
| ReportExport.ExportDocumentLines | src/components/school-admin/Reports.tsx:219-231 | the same with the export's header |
| ReportExport.LinesHaveNoBreak | src/components/school-admin/Reports.tsx:222-230 | invoices without line breaks give lines without line breaks |
| ReportExport.ExportCsvLines | src/components/school-admin/Reports.tsx:216-231 | the export splits into the header and one line per listed invoice, in order |
| ReportExport.HeaderHasNoBreak | src/components/school-admin/Reports.tsx:219-221 | the header line has no line break |
| ReportExport.ReportLineHasNoBreak | src/components/school-admin/Reports.tsx:222-230 | an invoice without line breaks gives a line without one |
| ReportExport.NumberHasNoBreak | src/components/school-admin/Reports.tsx:226 | a written amount has no line break |
| ReportExport.ReportLineAsWrittenBreaks | src/components/school-admin/Reports.tsx:223-225 | as written, a student name holding a double quote gives a line no CSV reader accepts |
| ReportExport.UnclosedQuoteFails | src/components/school-admin/Reports.tsx:223-225 | the parse of such a line fails at its unbalanced quote |
| BulkExport.FindColumn | src/components/school-admin/BulkExport.tsx:84 | nothing is found exactly when no column has the id; otherwise a column with that id |
| BulkExport.SameTitleSameColumn | src/components/school-admin/BulkExport.tsx:43-62 | with distinct titles, two columns with one title are the same column |
| BulkExport.RowContents | src/components/school-admin/BulkExport.tsx:81-96 | a student's row is keyed by exactly the titles of the selected known columns, and with distinct titles each holds that column's value |
| BulkExport.RowsOf | src/components/school-admin/BulkExport.tsx:81-97 | one row per student, in order |
| BulkExport.BuildRow | src/components/school-admin/BulkExport.tsx:82-95 | the loop over the selected ids builds the student's row |
| BulkExport.BuildRows | src/components/school-admin/BulkExport.tsx:81-97 | the loop over the students builds every row |
| BulkExport.HeaderCells | src/components/school-admin/BulkExport.tsx:102 | one title per selected id, in order |
| BulkExport.LineFields | src/components/school-admin/BulkExport.tsx:104-106 | one value per selected id, read from the row under that id's title |
| BulkExport.Quoted | src/components/school-admin/BulkExport.tsx:106 | every field is written as a quoted cell |
| BulkExport.DataLines | src/components/school-admin/BulkExport.tsx:103-108 | one line per row, in order |
| BulkExport.DataLineRoundTrip | src/components/school-admin/BulkExport.tsx:103-108 | a CSV reader gets back exactly a line's fields, whatever they hold |
| BulkExport.LineFieldsOfRow | src/components/school-admin/BulkExport.tsx:81-108 | with distinct non-empty titles, a line's field for a selected id is the student's value for that column, or empty for an unknown id |
| BulkExport.HeaderRoundTrip | src/components/school-admin/BulkExport.tsx:102 | with titles needing no quotes, the header line reads back as the titles |
| BulkExport.CsvContentLines | src/components/school-admin/BulkExport.tsx:101-109 | single-line parts split at line breaks back into the header and the data lines |
| BulkExport.DataLineSingle | src/components/school-admin/BulkExport.tsx:103-108 | values without line breaks give a line without one |
| BulkExport.AvailableTitlesDistinct | src/components/school-admin/BulkExport.tsx:43-62 | the export's columns have distinct titles |
| BulkExport.AvailableTitlesNonEmpty | src/components/school-admin/BulkExport.tsx:43-62 | the export's columns have non-empty titles |
| BulkExport.ExpectedFields | src/components/school-admin/BulkExport.tsx:81-108 | one expected field per selected id |
| BulkExport.CsvLineReadsBack | src/components/school-admin/BulkExport.tsx:81-109 | with distinct non-empty titles, each student's CSV line reads back as that student's value for every selected column |
| BulkExport.DialogCsvLineReadsBack | src/components/school-admin/BulkExport.tsx:43-109 | the same for the dialog's own columns |
| BulkExport.BulkExporter.constructor | src/components/school-admin/BulkExport.tsx:21-23 | the dialog starts with name, class and student id selected, the spreadsheet format, not exporting |
| BulkExport.BulkExporter.HandleColumnToggle | src/components/school-admin/BulkExport.tsx:64-72 | the toggle flips exactly that column, keeps the selection free of repeats, and changes nothing else |
| BulkExport.BulkExporter.SetExportFormat | src/components/school-admin/BulkExport.tsx:181-191 | only the format changes |
| BulkExport.BulkExporter.HandleExport | src/components/school-admin/BulkExport.tsx:74-124 | nothing happens without students or a selected column; otherwise exporting starts and the output is the export in the chosen format |
| BulkExport.BulkExporter.FinishExport | src/components/school-admin/BulkExport.tsx:126-133 | exporting stops and nothing else changes |
| PrintUtils.Lookup | src/components/PrintUtils.tsx:101 | a value is found exactly when the item has a property of that exact name |
| PrintUtils.DataCells | src/components/PrintUtils.tsx:100-103 | one cell per column, in order |
| PrintUtils.DataRows | src/components/PrintUtils.tsx:98-105 | one table row per item, in order |
| PrintUtils.HandlePrint | src/components/PrintUtils.tsx:21-23 | a page is written exactly when the print window opened |
| PrintUtils.JoinContains | src/components/PrintUtils.tsx:94-103 | each part of a concatenation occurs in it |
| PrintUtils.TitleVerbatim | src/components/PrintUtils.tsx:94 | every column's title occurs in the header row as it is, without escaping |
| PrintUtils.CellVerbatim | src/components/PrintUtils.tsx:100-103 | every cell's text occurs in the item's row as it is, without escaping |
| PrintUtils.ContainsTrans | src/components/PrintUtils.tsx:94-105 | occurring in a part of a text means occurring in the text |
| PrintUtils.TotalLineCounts | src/components/PrintUtils.tsx:110 | the total line ends in the number of items |
| PrintUtils.DottedKeyFindsNothing | src/components/PrintUtils.tsx:101 | a dotted key without a renderer finds nothing in an item whose property names have no dot, so its cell is empty |
| PrintUtils.InvoiceNameCellsEmpty | src/components/PrintUtils.tsx:227-231 | the student name, class and fee item cells of the invoice report are always empty |
| PrintUtils.InvoiceItemKeys | src/components/PrintUtils.tsx:227-240 | an invoice row has only undotted property names |
| PrintUtils.InvoiceStatusCell | src/components/PrintUtils.tsx:233 | the status cell reads paid for "paid" and unpaid for anything else |
| StudentsList.Normalised | src/components/school-admin/StudentsList.tsx:79-84 | a fetched row keeps its id, and a missing name or class becomes empty |
| StudentsList.NormalisedRows | src/components/school-admin/StudentsList.tsx:79-84 | one student per fetched row, in order |
| StudentsList.FilteredStudents | src/components/school-admin/StudentsList.tsx:158-163 | a student is listed exactly when the term occurs in their name or class, ignoring case |
| StudentsList.EmptySearchKeepsAll | src/components/school-admin/StudentsList.tsx:158-163 | an empty term lists every student in order |
| StudentsList.SearchIgnoresCase | src/components/school-admin/StudentsList.tsx:158-163 | a term and its lower-case spelling list the same students |
| StudentsList.VisibleColumnsRule | src/components/school-admin/StudentsList.tsx:208-212 | name and class come first, no column repeats, the columns are exactly the defaults and the imported ones, in first-appearance order |
| StudentsList.ContactShownRule | src/components/school-admin/StudentsList.tsx:430-479 | the contact column shows exactly when email or phone was imported |
| StudentsList.AddRequested | src/components/school-admin/StudentsList.tsx:166-171 | the form is sent, as typed, exactly when its name and class are not blank |
| StudentsList.UpdateRequested | src/components/school-admin/StudentsList.tsx:173-182 | an update is sent exactly when a student is being edited with a name and class that are not blank, with their id, name and class |
| StudentsList.BlankNotFilled | src/components/school-admin/StudentsList.tsx:168 | a name of blanks is never accepted |
| StudentsList.DeleteOrder | src/components/school-admin/StudentsList.tsx:130-197 | every delete is about that student; the student row is deleted exactly when the id is set, the removal is confirmed and the invoices went first; the invoices are always deleted first |
| StudentsList.AddSucceeded | src/components/school-admin/StudentsList.tsx:106-110 | the form is cleared and hidden, nothing else changes |
| StudentsList.UpdateSucceeded | src/components/school-admin/StudentsList.tsx:124-127 | the edit dialog closes, nothing else changes |
| StudentsList.ImportCompleted | src/components/school-admin/StudentsList.tsx:203-205 | the imported columns are replaced, nothing else changes |
| StudentManagementTools.ClassKey | src/components/school-admin/StudentManagementTools.tsx:54 | a student is counted under "Unknown" exactly when their class is missing, empty or "Unknown" itself |
| StudentManagementTools.ClassKeys | src/components/school-admin/StudentManagementTools.tsx:53-57 | one class key per student, in order |
| StudentManagementTools.CountOfPositive | src/components/school-admin/StudentManagementTools.tsx:55 | a key is counted at least once exactly when it occurs |
| StudentManagementTools.IndexKeysBelow | src/components/school-admin/StudentManagementTools.tsx:59 | the leading index keys below a value are counted up to the first key that is not one of them |
| StudentManagementTools.AddKey | src/components/school-admin/StudentManagementTools.tsx:55 | adding a new key to an object's keys keeps them free of repeats and adds exactly that key |
| StudentManagementTools.AddKeyOrdered | src/components/school-admin/StudentManagementTools.tsx:55-59 | adding a key keeps the array-index keys first and in ascending order |
| StudentManagementTools.EntryOrder | src/components/school-admin/StudentManagementTools.tsx:53-59 | the keys of the counter are each class once, exactly the classes that occur |
| StudentManagementTools.FilterAddNameKey | src/components/school-admin/StudentManagementTools.tsx:55-59 | adding a key that is not an array index puts it after the other such keys; adding an index key leaves them alone |
| StudentManagementTools.EntryOrderRule | src/components/school-admin/StudentManagementTools.tsx:53-59 | `Object.entries` lists the array-index keys first in ascending numeric order, then the other keys in the order they were first added |
| StudentManagementTools.NameKeysInFirstOrder | src/components/school-admin/StudentManagementTools.tsx:53-59 | when no class name is an array index, the classes come in order of first appearance |
| StudentManagementTools.ClassStats | src/components/school-admin/StudentManagementTools.tsx:53-63 | one entry per class of the counter, in `Object.entries` order, each with the number of students in it |
| StudentManagementTools.CountClasses | src/components/school-admin/StudentManagementTools.tsx:53-57 | the accumulating loop gives a count for exactly the classes that occur, each the number of students in that class |
| StudentManagementTools.StatsFromCounts | src/components/school-admin/StudentManagementTools.tsx:59-62 | turning the counts into entries gives one entry per class of the counter, in `Object.entries` order, with its count |
| StudentManagementTools.ClassStatsOf | src/components/school-admin/StudentManagementTools.tsx:53-63 | the query's counting gives the class statistics |
| StudentManagementTools.SumCountsAppend | src/components/school-admin/StudentManagementTools.tsx:53-57 | the count sum over two runs of classes is the sum of their sums |
| StudentManagementTools.SumCountsAddKey | src/components/school-admin/StudentManagementTools.tsx:53-57 | adding a class anywhere among the classes adds its count to the sum |
| StudentManagementTools.SumOfEntries | src/components/school-admin/StudentManagementTools.tsx:53-57 | the counts of the counter's classes add up to the number of students |
| StudentManagementTools.CountsOfStats | src/components/school-admin/StudentManagementTools.tsx:53-63 | the counts of the first entries add up to the students in those classes |
| StudentManagementTools.ClassStatsRule | src/components/school-admin/StudentManagementTools.tsx:53-63 | no class is listed twice, the classes listed are exactly those of the students, every count is positive, and the counts add up to the number of students |
| StudentManagementTools.ToolsDialog.constructor | src/components/school-admin/StudentManagementTools.tsx:36-37 | the dialog starts from the filters and sort it is given, having reported nothing |
| StudentManagementTools.ToolsDialog.EditFilters | src/components/school-admin/StudentManagementTools.tsx:134-210 | only the draft filters change; nothing is reported |
| StudentManagementTools.ToolsDialog.EditSort | src/components/school-admin/StudentManagementTools.tsx:236-272 | only the draft sort changes; nothing is reported |
| StudentManagementTools.ToolsDialog.HandleApplyFilters | src/components/school-admin/StudentManagementTools.tsx:67-71 | the draft filters, then the draft sort, are reported, then the dialog closes |
| StudentManagementTools.ToolsDialog.HandleResetFilters | src/components/school-admin/StudentManagementTools.tsx:73-93 | the drafts become the defaults (empty filters, name ascending), which are reported without closing |
| FeeItemsList.ActiveItems | src/components/school-admin/FeeItemsList.tsx:111-116 | the list holds exactly the rows of the school that are active |
| FeeItemsList.SoftDelete | src/components/school-admin/FeeItemsList.tsx:162-168 | every row stays; the rows with the id are marked inactive and the others are unchanged |
| FeeItemsList.SoftDeleteRule | src/components/school-admin/FeeItemsList.tsx:111-168 | a delete keeps every row's id, name, amount and school; the deleted item leaves the list, every other listed item stays, and nothing new appears |
| FeeItemsList.FilteredFeeItems | src/components/school-admin/FeeItemsList.tsx:175-177 | nothing before the query answers; then exactly the items whose name contains the term, ignoring case |
| FeeItemsList.EmptySearchKeepsAll | src/components/school-admin/FeeItemsList.tsx:175-177 | an empty term keeps every item in order |
| FeeItemsList.SearchIgnoresCase | src/components/school-admin/FeeItemsList.tsx:175-177 | a term and its lower-case spelling select the same items |
| FeeItemsList.AddRequested | src/components/school-admin/FeeItemsList.tsx:179-185 | an insert is sent exactly when the name is not blank and the amount parses to a positive number, with the name as typed and that number |
| FeeItemsList.BlankNameRefused | src/components/school-admin/FeeItemsList.tsx:182 | a name of blanks is refused whatever the amount |
| FeeItemsList.UpdateRequested | src/components/school-admin/FeeItemsList.tsx:187-196 | an update is sent exactly when an item is being edited with a name that is not blank and a positive amount, with its id, name and amount |
| FeeItemsList.EditAmount | src/components/school-admin/FeeItemsList.tsx:569 | the edited amount is the parsed number, or 0 when the text is not a number |
| FeeItemsList.UnparsableAmountNotSent | src/components/school-admin/FeeItemsList.tsx:189 | typing a non-number into the edit dialog leaves an amount no update sends |
| FeeItemsList.PickPrefilled | src/components/school-admin/FeeItemsList.tsx:208-212 | picking a prefilled item fills in its name and its amount written in decimal digits, opens the form and closes the options |
| FeeItemsList.AddSucceeded | src/components/school-admin/FeeItemsList.tsx:138-142 | the form is cleared and hidden, nothing else changes |
| FeeItemsList.UpdateSucceeded | src/components/school-admin/FeeItemsList.tsx:156-159 | the edit dialog closes, nothing else changes |
| FeeItemsList.AmountEdited | src/components/school-admin/FeeItemsList.tsx:569 | only the edited item's amount changes, to the edit rule's value; without an item nothing changes |
| FeeItemsList.NotBlank | src/components/school-admin/FeeItemsList.tsx:182 | a name starting with a visible character is not blank |
| FeeItemsList.PrefilledAccepted | src/components/school-admin/FeeItemsList.tsx:179-212 | every prefilled item, once picked, is sent by the add form with its own name and amount |
| SchoolsList.FilteredSchools | src/components/super-admin/SchoolsList.tsx:75-82 | nothing before the procedure answers; then exactly the schools whose name or address contains the term, ignoring case, and whose status passes the filter |
| SchoolsList.StatusFiltersPartition | src/components/super-admin/SchoolsList.tsx:75-82 | the active and the inactive lists together are as long as the full list |
| SchoolsList.EmptySearchMatchesAll | src/components/super-admin/SchoolsList.tsx:76-77 | an empty term matches every school |
| SchoolsList.SchoolsScreen.constructor | src/components/super-admin/SchoolsList.tsx:40-44 | the screen starts with no term, every status, no school selected, the dialog closed and no call made |
| SchoolsList.SchoolsScreen.HandleToggleSchoolStatus | src/components/super-admin/SchoolsList.tsx:84-96 | an active school is selected and the dialog opens with no call; an inactive school is reactivated at once with no reason |
| SchoolsList.SchoolsScreen.SetDeactivateReason | src/components/super-admin/SchoolsList.tsx:356 | only the reason changes |
| SchoolsList.SchoolsScreen.HandleConfirmDeactivation | src/components/super-admin/SchoolsList.tsx:98-106 | with a school selected, one deactivation of it is sent with the typed reason; without one, nothing |
| SchoolsList.SchoolsScreen.ToggleSucceeded | src/components/super-admin/SchoolsList.tsx:67-72 | the dialog closes and forgets the school and the reason; no call is made |
| SchoolsList.SchoolsScreen.Cancel | src/components/super-admin/SchoolsList.tsx:364-368 | the same reset, with no call |
| SchoolsList.DeactivationNeedsConfirm | src/components/super-admin/SchoolsList.tsx:84-106 | toggling an active school, typing a reason and confirming sends exactly one deactivation of that school with that reason |
| SchoolsList.CancelSendsNothing | src/components/super-admin/SchoolsList.tsx:84-106 | toggling an active school and then cancelling sends nothing, even if confirm is pressed afterwards |
| PasswordChange.NewPasswordError | src/components/school-admin/PasswordChangeModal.tsx:10-14 | the new password gets no message exactly when it is at least 8 characters with an upper-case letter, a lower-case letter and a digit |
| PasswordChange.Validate | src/components/school-admin/PasswordChangeModal.tsx:8-19 | the current password has no message exactly when it is given; the new password's is its first broken rule; the confirmation has none exactly when it is given and equal to the new password |
| PasswordChange.SubmittableRule | src/components/school-admin/PasswordChangeModal.tsx:8-19 | a form is sent exactly when the current password is given, the new one is strong and both copies agree |
| PasswordChange.MismatchOnConfirm | src/components/school-admin/PasswordChangeModal.tsx:16-19 | two different new passwords are reported under the confirmation, and the new password's own message depends only on its strength |
| PasswordChange.StrongExtend | src/components/school-admin/PasswordChangeModal.tsx:10-14 | adding characters never weakens a strong password |
| PasswordChange.Checklist | src/components/school-admin/PasswordChangeModal.tsx:187-205 | the checklist shows exactly when something is typed, with four lines |
| PasswordChange.ChecklistMatchesSchema | src/components/school-admin/PasswordChangeModal.tsx:187-205 | the checklist is all green exactly when the schema has nothing to say about the new password |
| PasswordChange.SubmitStarted | src/components/school-admin/PasswordChangeModal.tsx:50-53 | submitting starts loading and clears the message and the success flag |
| PasswordChange.SubmitFinished | src/components/school-admin/PasswordChangeModal.tsx:55-73 | loading stops; success clears the form and sets the flag; an error shows its message or "Failed to change password"; an exception shows "An unexpected error occurred" and the form stays |
| PasswordChange.TimerFired | src/components/school-admin/PasswordChangeModal.tsx:63-66 | the dialog closes and the success banner goes |
| PasswordChange.HandleClose | src/components/school-admin/PasswordChangeModal.tsx:75-82 | ignored while loading; otherwise the form and messages are cleared and the dialog closes |
| PasswordChange.SuccessThenClosed | src/components/school-admin/PasswordChangeModal.tsx:50-73 | a successful change, once the timer fires, leaves the dialog closed, idle and empty |
| PasswordChange.CloseDuringSubmitIgnored | src/components/school-admin/PasswordChangeModal.tsx:50-82 | closing during the call changes nothing, so the outcome lands on an open dialog |

## Left out

- Database, RPC and storage calls: every Supabase query, update, insert, delete and RPC is replaced by its outcome, either a `Registry` value or a parameter. react-query caching, refetching and cache invalidation are not modelled because they are network plumbing.
- Concurrency: the auth handlers and the other asynchronous handlers run one at a time, each to completion. Interleavings of `initializeAuth` with the auth-state listener are not modelled because nothing in the code orders them.
- File parsing and browser output: Papa.parse, XLSX reading and writing, FileReader, drop zones, Blob downloads, `window.open` and `window.print` are foreign libraries. A parsed sheet enters as a table of text cells, and an export ends as the rows or text handed to the library.
- `window.confirm` is a boolean argument, because it is a browser dialog.
- Dates and the clock: `new Date`, `toISOString`, `toLocaleDateString`, due-date arithmetic and the date validity test are parameters or a `now`/`today` argument, because they depend on locale and clock.
- Floating point: amounts are exact `real` numbers in FeeItemsList and Validation (and whole numbers where the code only adds or shows them), so rounding is not modelled. `parseFloat` is an abstract parser parameter, and `toFixed` is not modelled, because JavaScript number formatting is out of reach of the model.
- Timers and the `visibilitychange` event are explicit method calls that carry `now`, because timers are not expressible in the model.
- Text: case mapping covers ASCII letters only. `trim` removes ASCII white space, the no-break space U+00A0 and the byte-order mark U+FEFF; the other Unicode space separators and the line and paragraph separators that JavaScript also trims are left out, as is non-ASCII case mapping, because strings are sequences of characters with no Unicode tables.
- Sorting compares UTF-16 code units as characters. This matches JavaScript's default sort for the characters the model handles.
- StudentManagementTools.ClassStats: a class name that is a property of `Object.prototype` ("constructor", "toString", "valueOf", "hasOwnProperty", "__proto__" and the like) is counted like any other name. The code's `{}` counter inherits those properties: `acc[className] || 0` reads the inherited function and yields a text "count", and "__proto__" goes to the prototype setter, so that class drops out of the entries. The model has no prototype chain.
- StudentManagementTools.CountClasses: for the same reason, the loop's counts for an `Object.prototype` property name are the number of students in that class, not the code's text or missing entry.
- StudentManagementTools.ClassStatsOf: inherits the gap of CountClasses and ClassStats for `Object.prototype` property names.
- StudentManagementTools.ClassStatsRule: the counts add up to the number of students in the model. In the code this fails when a class is named after an `Object.prototype` property, for the reasons above.
- BulkExport.RowContents: a row is a map from title to value, so the order of its keys, which is the order the columns were selected in, is not carried into the workbook. The CSV export keeps the order, because it is built from the selected ids.
- ColumnSelector.ColumnSelectorDialog.HandleContinue: the call to `onClose()` after the selection is handed over is not recorded; closing the dialog is left to its parent.
- Object.entries order: only the class counter of StudentManagementTools is modelled with JavaScript's key order (array-index keys ascending, then the rest in insertion order). The column groups of ColumnSelector and ColumnSelection are listed in first-appearance order, because their keys are fixed category names, none of them an array index.
- AppRoutes.Matches: path matching folds ASCII case only and does not percent-decode the path. A path holding a line terminator, which React Router's `.` does not match below a starred prefix, is not distinguished.
- Cells are text, and '' stands for a missing, undefined or falsy cell. A numeric 0 cell, which JavaScript also treats as falsy, is not modelled.
- List order from the database (newest first, or the RPC's order) is taken as given. The model keeps whatever order it receives.
- Page layout: CSS, HTML structure, icons, prefilled fee descriptions and categories are left out because they are presentation only.
- PrintUtils: the StudentPrint page's column layout is left out. PrintUtils builds its HTML without escaping, and the model keeps that. Name cells on the invoice print page are empty for dotted keys, as in the code.
- StudentManagementTools: the statistics RPC is a parameter. Only the class counting done on the page is modelled.
- InvoiceGeneration: no control on the screen opens the prefilled-options panel, so the model only closes it. No control sets the class filter either, so the class filter of `FilteredStudents` stays ''.
- AuthContext: the provider passes `session: null`, so the keep-alive hook never arms as wired. A sub_admin, whom no registry lists, stays on the "Loading user role..." screen, as the routes do.
- StudentsList and FeeItemsList send the name as typed, untrimmed, as the code does.
- Validation: the duplicate message counts the rows accepted so far, not the input rows, as the code does.
- BulkExport: an unknown column id gets an empty cell.
- BulkUpload: the students and payments RPCs report a failure in their result rather than by throwing, and the code then reports success with a count of 0. The model takes the upload's outcome as given, so such a failure is the outcome `Uploaded(None)`.
- InvoiceGeneration.UniqueClasses: a student's class is always text. A missing class, which the search reads as '' and the class list sorts as "null", is not modelled.
- FeeItemsList.SoftDelete: the confirmation dialog before a removal is not modelled. The delete is applied as confirmed; a declined dialog changes nothing.
- FlexibleBulkImport: a failed import call only raises an alert, and the wizard stays on its importing step.
- PasswordChange: the zod refinement that the two passwords match is taken to run alongside the field rules. An empty confirmation reports its own rule first.
- Reports.MarkPaid: the update's additional `school_id` condition is not modelled, because the invoices on the screen are already those of the signed-in school.
- Out of scope: CreateSchool, LoginPage, FileUpload, the three dashboards, SystemSettings, SystemStats, SchoolOverview, FileUploadTest, SessionManager, Logo, FullLogo and useOptimizedQueries are not part of this model. They are UI, configuration, or multi-step network writes with no logic of their own to state. src/lib/supabase.ts and src/types/import.ts hold only declarations; the role vocabulary is taken from them.
- Form-library checks: the zod and react-hook-form plumbing and the library's email-format checks are not modelled.

## Findings

| source | as written | input that shows it | evidently intended | confidence | as-written member | corrected member |
|---|---|---|---|---|---|---|
| src/hooks/useSessionRefresh.ts:24-27 | the hook updates `lastRefresh` only when the refresh call resolves truthy, but the context's refresh returns nothing | two visibility changes one second apart: both ask for a refresh | a successful refresh reports success, so the 10- and 30-minute throttles hold | not executed | SessionRefresh.ThrottleIneffectiveAsWired | SessionRefresh.ThrottleHoldsWhenSuccessReported |
| src/components/DataValidator.tsx:28 | valid rows = total rows minus the number of errors | one student row whose class cell is only spaces: two errors, so minus one valid rows | valid rows = total rows minus the number of distinct rows with errors | not executed | DataValidator.ValidRowsNegativeAsWritten | DataValidator.ValidRowsCorrected |
| src/components/school-admin/Reports.tsx:223-225 | text fields are wrapped in double quotes without doubling the quotes inside them | a student named `a"`: the exported line is not a valid CSV record | inner quotes doubled as RFC 4180 requires, so every line reads back as its invoice's fields | not executed | ReportExport.ExportCsvAsWrittenBreaks | ReportExport.ExportCsvReadsBack |
