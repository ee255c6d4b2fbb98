# VTC attendance app — business rules in Dafny

The VTC attendance app is a React single-page app for one company. Employees
sign in and out with a selfie and a location, and apply for leave. Managers
approve attendance and leave for their team. Admins enrol employees, decide
leave applications, keep the holiday calendar and print a fixed-formula salary
slip. All data sits in a hosted Postgres backend reached through a query
builder.

This project models the rules under the event handlers:

- **Backend.** The backend is one object, `Schema.Database`. Each table is a
  field: the row tables are sequences of keyed rows in insertion order, and
  `leave_balances` is a map keyed by employee.
- **Handlers as methods.** Each component keeps its React state in a class
  (`EmployeePanel`, `LeavePanel`, `ManagerPanel`, `AdminPanel`,
  `HolidayCalendarPanel`, `AppState`). Each handler is one sequential, atomic
  method over that state and the database.
- **Queries as functions.** Module `Tables` defines what the query-builder
  calls do: update by key, delete by key, filter, count, order, limit, find and
  single-row lookup.
- **Time.** Timestamps are integer milliseconds since the epoch. Calendar
  dates are UTC day numbers (`Clock`). Day counts use the source's own formula,
  `ceil((end - start) / 86400000) + 1`, with an exact integer ceiling. The
  salary month window is built from civil dates.

What is proved:

- Every write method states the new value of each field it may change, on the
  refused paths as well as on success.
- The pending lists hold exactly the team's pending rows, newest first.
- Balance counters are floored at zero and only the leave's own kind changes.
- A holiday sign-in adds exactly one compensatory credit and is not idempotent.
- The leave guard accepts a request longer than the balance.
- The salary figures are the fixed 25000 / 10000 / 37850 / 3200 / 34650.
- Hours are summed over paired records only.
- The month window drops the 31st.
- The five role checks render at most one dashboard.
- Holiday edits are admin-only.
- Deciding an offered request lowers the pending count by one.
- As written, capturing a selfie with a live camera clears it again, so the
  following sign-in is refused (see "## Findings").

A manager approval never checks the order of the leave's dates. A range that
ends two or more days before it starts has a negative day count, and approving
it raises the counter (`ManagerDashboard.ReversedRangeRaisesCounter`).

The code keeps two leave tables. The employee form and the manager dashboard
use `leaves`, while the admin dashboard lists and decides `leave_applications`.
The model keeps both, so an admin decision never moves a balance.

## Model

| member | source | states |
|---|---|---|
| Tables.Update | src/components/ManagerDaashboard.jsx:113-119 | an update by key changes exactly the rows with that key, applying the new columns, and keeps every other row and the length |
| Tables.Delete | src/components/HolidayCalender.jsx:59 | a delete by key removes every row with that key and keeps every other row |
| Tables.Filter | src/components/AdminDashboard.jsx:184 | an element is in the filtered list exactly when it is in the input and satisfies the predicate |
| Tables.FilterCounts | src/components/AdminDashboard.jsx:184 | the filtered list holds every satisfying element exactly as often as the input does, and no other element |
| Tables.FilterAppend | src/components/AdminDashboard.jsx:184 | the filter distributes over concatenation and keeps or drops each single element, so the kept elements stay in input order |
| Tables.Count | src/components/AdminDashboard.jsx:184 | the count is the length of the filtered list, at most the input length; it is 0 exactly when no element matches and the length exactly when all match |
| Tables.FindFirst | src/components/EmployeeDashboard.jsx:171-173 | `find` yields the first matching position, and yields nothing exactly when no element matches |
| Tables.Lookup | src/components/ManagerDaashboard.jsx:158-162 | a single-row read by key yields a stored row with that key, and yields nothing exactly when the key is absent |
| Tables.LookupAfterUpdate | src/components/ManagerDaashboard.jsx:132-162 | reading a row back after updating it by key sees the updated columns |
| Tables.Limit | src/components/EmployeeDashboard.jsx:165 | `.limit(n)` keeps the first min(n, length) elements |
| Tables.SortBy | src/components/HolidayCalender.jsx:32 | `.order(key)` returns a permutation of its input in ascending key order |
| Tables.LimitOmitted | src/components/EmployeeDashboard.jsx:164-165 | on a list in key order, every element `.limit(n)` drops has a key no smaller than every element it keeps |
| Tables.CountAfterUpdate | src/components/AdminDashboard.jsx:119-124 | an update that moves the one row with that key out of a predicate lowers the count by exactly one |
| Clock.DayOf | src/components/EmployeeDashboard.jsx:170 | a timestamp lies between the midnight that starts its UTC date and the next midnight |
| Clock.CeilDiv | src/components/ManagerDaashboard.jsx:170 | the integer ceiling c of a/d satisfies d(c-1) < a <= dc |
| Clock.InclusiveDays | src/components/ManagerDaashboard.jsx:170 | the day count n of a millisecond range satisfies day(n-2) < end-start <= day(n-1) |
| Clock.InclusiveDaysOfDates | src/components/LeaveApplication.jsx:84-89 | for two calendar dates the count is end - start + 1, so a one-day leave counts 1 |
| Clock.InclusiveDaysPositive | src/components/ManagerDaashboard.jsx:168-170 | a range that does not end before it starts counts at least one day |
| Clock.DaysInMonth | src/components/SalaryslipGenerator.jsx:29-31 | a month has 28 to 31 days, and 31 exactly for January, March, May, July, August, October and December |
| Clock.DaysFromCivilInMonth | src/components/SalaryslipGenerator.jsx:30-31 | within a month, `YYYY-MM-d` is day `YYYY-MM-01` plus d - 1 |
| Clock.DayOfMonotone | src/components/EmployeeDashboard.jsx:170 | a later timestamp never falls on an earlier date |
| Clock.CivilEpoch | src/components/SalaryslipGenerator.jsx:30-31 | the civil-date numbering starts at 1970-01-01, the epoch of the timestamps |
| Schema.Status.Name | src/components/ManagerDaashboard.jsx:40 | each status is stored as one of `pending`, `approved`, `rejected` |
| Schema.CounterOr | src/components/ManagerDaashboard.jsx:180 | `row?.<kind>_leaves \|\| x` is the stored counter when there is a row and the counter is neither null nor 0, else x |
| Schema.RoleOrEmployee | src/App.jsx:50 | the role is never empty: a missing row or an empty role reads as `employee`, any other role is kept |
| Schema.Database.InsertAttendance | src/components/EmployeeDashboard.jsx:237-243 | an insert appends exactly one row under a key no existing row has and keeps the table keyed |
| Schema.Database.InsertLeave | src/components/LeaveApplication.jsx:65-69 | an insert appends exactly one row under a fresh key and keeps the table keyed |
| Schema.Database.InsertHoliday | src/components/HolidayCalender.jsx:43 | an insert appends exactly one row under a fresh key and keeps the table keyed |
| ManagerDashboard.Team | src/components/ManagerDaashboard.jsx:23-31 | the team is exactly the ids of the employees whose `manager_id` is the manager |
| ManagerDashboard.PendingAttendance | src/components/ManagerDaashboard.jsx:23-47 | a record is listed if and only if it is stored, pending and belongs to a team member; the list is newest sign-in first; an empty team gives an empty list |
| ManagerDashboard.PendingLeaves | src/components/ManagerDaashboard.jsx:61-85 | a leave is listed if and only if it is stored, pending and belongs to a team member; the list is newest application first; an empty team gives an empty list |
| ManagerDashboard.PendingAttendanceCounts | src/components/ManagerDaashboard.jsx:30-46 | the pending attendance list holds each pending record of the team exactly as often as the table does, so the tab header shows their number |
| ManagerDashboard.PendingLeavesCounts | src/components/ManagerDaashboard.jsx:68-84 | the pending leave list holds each pending leave of the team exactly as often as the table does, so the tab header shows their number |
| ManagerDashboard.LeaveDays | src/components/ManagerDaashboard.jsx:168-170 | the approved day count is end - start + 1 |
| ManagerDashboard.Deducted | src/components/ManagerDaashboard.jsx:179-189 | the counter of the leave's kind becomes max(0, (old or 0) - days) and is never negative; every other counter is kept; `updated_at` is the approval time |
| ManagerDashboard.BalancesAfterApproval | src/components/ManagerDaashboard.jsx:158-192 | only the leave's employee row is deducted; without a readable leave or without a balance row every row is unchanged |
| ManagerDashboard.DeductionNeverRaises | src/components/ManagerDaashboard.jsx:168-181 | for a leave that does not end before it starts, the counter after approval is at most the old counter, or 0 |
| ManagerDashboard.ReversedRangeRaisesCounter | src/components/ManagerDaashboard.jsx:168-181 | for a leave that ends two or more days before it starts, approval raises the counter |
| ManagerDashboard.DecideAttendance | src/components/ManagerDaashboard.jsx:113-119 | only the record with that id changes, and only in `status` and `approved_by` |
| ManagerDashboard.DecideLeave | src/components/ManagerDaashboard.jsx:132-139 | only the leave with that id changes, and only in `status`, `approved_by` and `approved_at` |
| ManagerDashboard.DecisionKeepsDeduction | src/components/ManagerDaashboard.jsx:132-162 | recording the decision first does not change the deduction that reads the leave afterwards |
| ManagerDashboard.TeamMembers | src/components/ManagerDaashboard.jsx:94-109 | the team list holds exactly the stored employees whose `manager_id` is the manager |
| ManagerDashboard.TeamMembersCounts | src/components/ManagerDaashboard.jsx:97-101 | the team list holds each managed employee row exactly as often as the table does |
| ManagerDashboard.ManagerPanel.constructor | src/components/ManagerDaashboard.jsx:5-7 | the dashboard starts with empty pending, leave and team lists |
| ManagerDashboard.ManagerPanel.FetchPendingRequests | src/components/ManagerDaashboard.jsx:17-54 | the list becomes the team's pending attendance, newest first |
| ManagerDashboard.ManagerPanel.FetchPendingLeaves | src/components/ManagerDaashboard.jsx:56-92 | the list becomes the team's pending leaves, newest first |
| ManagerDashboard.ManagerPanel.FetchTeamMembers | src/components/ManagerDaashboard.jsx:94-109 | the list becomes the manager's team |
| ManagerDashboard.ManagerPanel.HandleApproval | src/components/ManagerDaashboard.jsx:111-128 | attendance row `id` gets the decision and the deciding manager; nothing else in the table changes, keys stay valid and the pending list reloads |
| ManagerDashboard.ManagerPanel.UpdateLeaveBalance | src/components/ManagerDaashboard.jsx:155-197 | the balance table becomes the approval deduction of the stored leave; only the balance table changes |
| ManagerDashboard.ManagerPanel.RecordLeaveDecision | src/components/ManagerDaashboard.jsx:132-147 | the leave gets the decision, approver and time; only an approval deducts the balance, from the leave as stored before; keys stay valid |
| ManagerDashboard.ManagerPanel.HandleLeaveApproval | src/components/ManagerDaashboard.jsx:130-153 | the leave gets the decision, approver and time; an approval deducts the balance of the leave as stored before; a rejection leaves every balance untouched; the pending leaves reload |
| ManagerDashboard.ManagerPanel.MarkPresent | src/components/ManagerDaashboard.jsx:389-397 | exactly one new attendance record is appended, for the member, already `approved`, approved by the manager, under a fresh key |
| EmployeeDashboard.CompensatedRow | src/components/EmployeeDashboard.jsx:103-119 | the upserted row has all four counters with compensatory = (old or 0) + 1; casual, sick and earned keep a non-zero stored value; a stored 0 or null (or no row) gives casual 12, sick 10 and earned 15; with no row it is exactly {1, 12, 10, 15}; `updated_at` is now |
| EmployeeDashboard.BalanceOf | src/components/EmployeeDashboard.jsx:103-107 | the user's row is read exactly when one is stored |
| EmployeeDashboard.AddCompensatoryLeave | src/components/EmployeeDashboard.jsx:91-132 | on a holiday the user's row is replaced by the compensated row; on any other date the balances are unchanged |
| EmployeeDashboard.OwnRecords | src/components/EmployeeDashboard.jsx:157-163 | the query keeps exactly the stored records of the user |
| EmployeeDashboard.OwnRecordsCounts | src/components/EmployeeDashboard.jsx:157-163 | the query returns each of the user's records exactly as often as the table holds it |
| EmployeeDashboard.RecentAttendance | src/components/EmployeeDashboard.jsx:157-165 | at most 30 stored records, all the user's, newest sign-in first |
| EmployeeDashboard.RecentAttendanceComplete | src/components/EmployeeDashboard.jsx:157-165 | the history holds min(30, the user's record count) records, all of the user's when they have at most 30, and every omitted record signed in no later than every kept one |
| EmployeeDashboard.TodaysSignInIsFound | src/components/EmployeeDashboard.jsx:157-174 | when the user has a record from today and none from the future, the refreshed history yields a today's record |
| EmployeeDashboard.TodayRecord | src/components/EmployeeDashboard.jsx:170-174 | today's record is the first in the list signed in today; there is none exactly when no record in the list is from today |
| EmployeeDashboard.SignedOut | src/components/EmployeeDashboard.jsx:273-279 | only the record with that id changes, and only in sign-out time and place |
| EmployeeDashboard.SignInVerdict | src/components/EmployeeDashboard.jsx:212-231 | a sign-in proceeds exactly when a selfie, a location and the upload are all present; otherwise it is refused in that order of checks |
| EmployeeDashboard.SigninRecord | src/components/EmployeeDashboard.jsx:237-243 | the inserted record is the user's, `pending`, stamped now, with the sign-in place and selfie and no sign-out or approver |
| EmployeeDashboard.RecordSignIn | src/components/EmployeeDashboard.jsx:233-243 | the holiday credit is applied and exactly one pending record is appended under a fresh key |
| EmployeeDashboard.EmployeePanel.constructor | src/components/EmployeeDashboard.jsx:7-14 | the dashboard starts with no selfie, no location, no records and no record for today |
| EmployeeDashboard.CaptureLosesSelfie | src/components/EmployeeDashboard.jsx:43-60 | capturing with a live stream leaves no selfie, so the following sign-in is refused for a missing selfie |
| EmployeeDashboard.IntendedCaptureAllowsSignIn | src/components/EmployeeDashboard.jsx:51-62 | with the selfie kept across stopping the camera, a capture followed by a location fix and an upload lets the sign-in proceed |
| EmployeeDashboard.EmployeePanel.StartCamera | src/components/EmployeeDashboard.jsx:27-41 | the camera view opens, and a stream is held once access is granted |
| EmployeeDashboard.EmployeePanel.StopCamera | src/components/EmployeeDashboard.jsx:43-49 | with a stream held the view closes and the selfie is cleared; without one nothing changes |
| EmployeeDashboard.EmployeePanel.CaptureSelfie | src/components/EmployeeDashboard.jsx:51-62 | with a frame ready the selfie is set and then cleared by stopping the camera whenever a stream is held; without a frame nothing changes |
| EmployeeDashboard.EmployeePanel.CaptureSelfieKeepingImage | src/components/EmployeeDashboard.jsx:51-62 | the corrected capture: with a frame ready the camera stops and the selfie is kept |
| EmployeeDashboard.EmployeePanel.GetCurrentLocation | src/components/EmployeeDashboard.jsx:134-152 | a position fix is stored; an error or missing geolocation keeps the previous location |
| EmployeeDashboard.EmployeePanel.FetchAttendance | src/components/EmployeeDashboard.jsx:154-178 | the history becomes the user's recent records and today's record is picked from that history |
| EmployeeDashboard.EmployeePanel.HandleSignIn | src/components/EmployeeDashboard.jsx:212-256 | a refused sign-in changes no table and keeps the selfie, the history and today's record; a successful one appends one pending record under a fresh key, credits a holiday, clears the selfie and refreshes the history and today's record |
| EmployeeDashboard.EmployeePanel.AcceptSignIn | src/components/EmployeeDashboard.jsx:233-250 | a sign-in past its guards appends exactly one pending record under a fresh key, applies the holiday credit, clears the selfie and reloads the history and today's record |
| EmployeeDashboard.EmployeePanel.HandleSignOut | src/components/EmployeeDashboard.jsx:258-291 | refused without today's record, then without a location, changing neither the table nor the history; otherwise only today's record gets the sign-out time and place, and the history and today's record refresh |
| EmployeeDashboard.CompensationAccumulates | src/components/EmployeeDashboard.jsx:109 | a second holiday sign-in adds one more credit to what the first stored |
| EmployeeDashboard.CompensationKeepsOtherCounters | src/components/EmployeeDashboard.jsx:113-119 | a second upsert keeps the casual, sick and earned counters the first one wrote |
| LeaveApplicationForm.AvailableLeaves | src/components/LeaveApplication.jsx:33-36 | the available balance is the stored counter of the chosen kind, or 0 without a row or with a null counter |
| LeaveApplicationForm.LeaveDays | src/components/LeaveApplication.jsx:84-89 | 0 while either date is empty, otherwise end - start + 1 |
| LeaveApplicationForm.SubmitVerdict | src/components/LeaveApplication.jsx:48-62 | a submission goes through exactly when the required fields are filled, the available balance is positive and any attached document uploads; a balance refusal means available <= 0 |
| LeaveApplicationForm.SubmittedLeave | src/components/LeaveApplication.jsx:59-69 | the inserted leave carries the user, the form's kind, dates and reason, `pending`, and the document URL or "" without a document |
| LeaveApplicationForm.OverdrawnRequestAccepted | src/components/LeaveApplication.jsx:52-56 | a request longer than a positive balance passes the guard |
| LeaveApplicationForm.LeavePanel.constructor | src/components/LeaveApplication.jsx:5-12 | the form starts empty with kind `casual` and no balance read |
| LeaveApplicationForm.LeavePanel.FetchLeaveBalance | src/components/LeaveApplication.jsx:19-31 | the balance is the user's stored row, or none |
| LeaveApplicationForm.LeavePanel.HandleSubmit | src/components/LeaveApplication.jsx:48-82 | a refused submission inserts nothing, keeps the key counter and keeps the form; a successful one appends exactly the submitted leave under a fresh key and resets the form |
| SalarySlipGenerator.UnpairedContributeNothing | src/components/SalaryslipGenerator.jsx:60-68 | records without a sign-out add no time |
| SalarySlipGenerator.PairedMillisNonNegative | src/components/SalaryslipGenerator.jsx:60-68 | when no record signs out before it signs in, the total time is not negative |
| SalarySlipGenerator.PairedMillisAppend | src/components/SalaryslipGenerator.jsx:60-68 | the total time over two batches is the sum of their totals |
| SalarySlipGenerator.CalculateSalary | src/components/SalaryslipGenerator.jsx:51-85 | basic 25000, HRA 10000, gross 37850, deductions 3200 and net 34650 whatever the records; days = number of records; time = sum over paired records |
| SalarySlipGenerator.WindowDropsThe31st | src/components/SalaryslipGenerator.jsx:29-40 | in a 31-day month a record is in the window exactly when it is not from the 31st |
| SalarySlipGenerator.SlipQuery | src/components/SalaryslipGenerator.jsx:34-40 | the query returns exactly the stored rows of the employee that are approved and signed in within the window |
| SalarySlipGenerator.SlipQueryCounts | src/components/SalaryslipGenerator.jsx:34-40 | the query returns each qualifying row exactly as often as the table holds it, so Working Days is the number of qualifying rows |
| SalarySlipGenerator.SlipRecords | src/components/SalaryslipGenerator.jsx:34-40 | one record per returned row, in order, so the slip's day count is the number of rows; the records are exactly the employee's approved records signed in within the window |
| SalarySlipGenerator.FetchAttendanceForSlip | src/components/SalaryslipGenerator.jsx:23-49 | a missing selection aborts, and only it does; a shorter month is rejected by the backend; otherwise a slip over the window's records is computed |
| App.DashboardFor | src/App.jsx:170-176 | admin and hr map to the admin view, manager to the manager view, employee and temp_vendor to the employee view, and nothing else maps to a view |
| App.RenderedMatchesMapping | src/App.jsx:170-176 | the five role checks render exactly the mapped dashboard, and none for a missing or unknown role |
| App.ResolvedRole | src/App.jsx:41-57 | the resolved role is never empty: a failed lookup, a missing row or an empty role gives `employee` |
| App.AppState.constructor | src/App.jsx:9-13 | the shell starts loading, with no session, no role and empty login fields |
| App.AppState.CurrentScreen | src/App.jsx:90-152 | while loading only the spinner shows; without a session the login screen; otherwise the dashboards of the role |
| App.AppState.RoleQuery | src/App.jsx:43-47 | the query yields the user's stored employee row, and none exactly when no row has that key |
| App.AppState.FetchUserRole | src/App.jsx:41-57 | a failed query stores `employee`; otherwise the role of the user's stored row, or `employee` without a row or role; loading ends |
| App.AppState.SessionChanged | src/App.jsx:16-36 | a session fetches the role of its user; without one, the auth-change callback clears the role while the initial session read keeps it; loading ends and, without a session, the login screen shows |
| App.AppState.HandleLogout | src/App.jsx:82-88 | session, role, email and password are cleared, so once loaded the login screen shows |
| AdminDashboard.StatusColor | src/components/AdminDashboard.jsx:153-160 | approved, rejected and pending map to green, red and amber, anything else to grey |
| AdminDashboard.StatusColorsDistinct | src/components/AdminDashboard.jsx:153-160 | the three stored statuses get three different colours, none of them grey |
| AdminDashboard.PendingLeaveCount | src/components/AdminDashboard.jsx:184 | the card shows the number of requests with status `pending` |
| AdminDashboard.ActiveManagerCount | src/components/AdminDashboard.jsx:202 | the card shows the number of employees with role `manager` |
| AdminDashboard.SetApplicationStatus | src/components/AdminDashboard.jsx:121-124 | only the application with that id changes, and only in status |
| AdminDashboard.EnrolledEmployee | src/components/AdminDashboard.jsx:87-98 | the inserted employee row carries the form's name, email, role and department |
| AdminDashboard.AdminPanel.constructor | src/components/AdminDashboard.jsx:7-17 | the dashboard starts with an empty enrollment form whose role is `employee` |
| AdminDashboard.AdminPanel.FetchLeaveRequests | src/components/AdminDashboard.jsx:58-71 | the list becomes the stored applications |
| AdminDashboard.AdminPanel.HandleApproveLeave | src/components/AdminDashboard.jsx:119-134 | only application `id` becomes approved, no balance is touched, and the list reloads |
| AdminDashboard.AdminPanel.HandleRejectLeave | src/components/AdminDashboard.jsx:136-151 | only application `id` becomes rejected and the list reloads |
| AdminDashboard.AdminPanel.HandleAddEmployee | src/components/AdminDashboard.jsx:73-117 | an empty name, email or password, a failed sign-up or a taken key changes nothing, neither the table, the form nor the list; otherwise exactly one employee row is appended under the new identity, the form resets with role `employee` and the list reloads |
| AdminDashboard.DecisionLowersPendingCount | src/components/AdminDashboard.jsx:513 | deciding a request that offers Approve/Reject lowers the pending card by one and the request stops offering them |
| HolidayCalendar.Listing | src/components/HolidayCalender.jsx:28-34 | the listing is a permutation of the stored holidays in ascending date order |
| HolidayCalendar.HolidayCalendarPanel.constructor | src/components/HolidayCalender.jsx:5-7 | the calendar of the signed-in user starts with no holidays, an empty form and an empty role |
| HolidayCalendar.HolidayCalendarPanel.FetchUserRole | src/components/HolidayCalender.jsx:14-26 | the role is the stored one, or `employee` when the lookup yields none |
| HolidayCalendar.HolidayCalendarPanel.FetchHolidays | src/components/HolidayCalender.jsx:28-34 | the shown list becomes the date-ordered listing |
| HolidayCalendar.HolidayCalendarPanel.AddHoliday | src/components/HolidayCalender.jsx:36-49 | an empty date or name, or a non-admin, changes neither the table, the key counter, the form nor the list; an admin appends exactly the form's holiday under a fresh key, resets the form and reloads the list |
| HolidayCalendar.HolidayCalendarPanel.DeleteHoliday | src/components/HolidayCalender.jsx:51-62 | a non-admin or a declined confirmation changes neither the table nor the list; otherwise exactly the holidays with that id are removed and the list reloads |

## Left out

- Camera and geolocation are browser APIs. The camera is modelled as whether a stream is held and whether a frame is ready, the selfie as a flag, and the geolocation callback as an optional fix (`StartCamera`, `StopCamera`, `CaptureSelfie`, `GetCurrentLocation`); pixels, tracks and coordinates are not.
- Backend auth and storage are foreign calls, so their results are parameters:
  - the selfie or document upload is the public URL or `None`;
  - the sign-up is the new identity or `None`;
  - the signed-in user is a constant of each panel.
- Remote-call failures other than the modelled ones (an insert or update that errors, or a network failure) are not modelled. Every other write is taken to succeed.
- The one-second `setTimeout` in sign-in and sign-out and all async interleaving are not modelled. Each handler is one atomic step, so the read-modify-write races in `updateLeaveBalance` and `addCompensatoryLeave` are not captured.
- `alert`, `console`, HTML rendering, styles, `window.print` and the printable slip are output only.
- `window.confirm` is a parameter of `DeleteHoliday`.
- Floating-point hours and `toFixed` are not modelled. The slip keeps the exact number of milliseconds worked, and the HRA and PF percentages are exact integer products.
- `Date` parsing and locale formatting are replaced by integer milliseconds and UTC day numbers.
- EmployeeDashboard.TodayRecord: the `signin_time.includes(today)` substring test is modelled as "the sign-in falls on today's UTC date".
- SalarySlipGenerator.FetchAttendanceForSlip: the end bound `YYYY-MM-31` is not a valid date in a month shorter than 31 days. The model takes it that the backend then rejects the query, which the handler treats as an error and returns. This is backend behaviour, not visible in the app's code.
- LeaveApplicationForm.LeavePanel.HandleSubmit:
  - the model assumes that the `leaves` table accepts the `document` key spread into the insert and stores only the listed fields. Were there no such column, the backend would refuse every submission; that is not modelled;
  - the row's `pending` status and `applied_at` time are taken to be database defaults;
  - the `required` inputs (both dates and the reason) are modelled as a refusal before the handler runs;
  - a failed document upload is modelled as `UploadFailed` with nothing inserted.
- HolidayCalendar.HolidayCalendarPanel.AddHoliday: the `required` date and name inputs are modelled the same way.
- AdminDashboard.AdminPanel.HandleAddEmployee: the `required` name, email and password inputs are modelled the same way, as `MissingField`.
- EmployeeDashboard.EmployeePanel.HandleSignOut: the handler does not itself stop a second sign-out of the same record. It overwrites the sign-out time, as the code does.
- The ordering of the admin lists by `created_at` is not modelled (no creation timestamp is kept on employees or applications). Neither is the team list's ordering by `full_name` (`ManagerDashboard.TeamMembers` keeps table order).
- `handleLogin` and the employee dashboard's `fetchMyLeaves` list show data without any rule of their own and are not modelled.
- The manager dashboard's `loading` and `activeTab` state only switch what is shown, and are not modelled.
- The admin dashboard's `fetchEmployees` and `fetchAttendanceData` lists are not modelled either. Enrolling reloads the employee list, which is shown equal to the table.
- The admin "TODAY'S ATTENDANCE" card compares locale date strings and is not modelled.
- The stat-card placeholders and the Settings tab have no logic.
- The admin Reports tab counts (AdminDashboard.jsx lines 574-591) filter the employee, attendance and application lists by status or role. Those lists are not modelled as displayed here; `Tables.Count` and `Tables.FilterCounts` state what such a count is.
- After a holiday credit the employee dashboard reloads its leave-balance card (`fetchLeaveBalance`, EmployeeDashboard.jsx line 126). The dashboard's copy of the balance is not modelled; the stored row is (`EmployeeDashboard.AddCompensatoryLeave`).
- ManagerDashboard.PendingAttendance and ManagerDashboard.PendingLeaves: the embedded employee columns (`employees!inner(...)`) joined into each listed row are not modelled.
- The `signin_location` text `POINT(lng lat)` is kept as the location value, not as its string form.

## Findings

| source | as written | input that shows it | evidently intended | confidence | as-written member | corrected member |
|---|---|---|---|---|---|---|
| src/components/EmployeeDashboard.jsx:43-60 | `captureSelfie` stores the image and then calls `stopCamera`, which clears the image whenever a stream is held | camera access granted, Capture Selfie pressed, then Sign In | the selfie survives stopping the camera and the sign-in proceeds | not executed; high | EmployeeDashboard.CaptureLosesSelfie | EmployeeDashboard.IntendedCaptureAllowsSignIn |

The as-written capture is `EmployeeDashboard.EmployeePanel.CaptureSelfie`, and
the corrected one is `EmployeeDashboard.EmployeePanel.CaptureSelfieKeepingImage`.
