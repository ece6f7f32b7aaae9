# SRMS 2.0 client: role dispatch, role-upgrade workflow and service guards

The Secure Student Records Management System is a tkinter desktop front end
over a SQL Server database. Credential checks, authorization and the state of
role-upgrade requests all live in stored procedures. The client collects form
input, runs one stored procedure per action with positional arguments, and
shows the rows that come back. This project models the client-side logic of
the 2.0 application in Dafny:

- the login result and its dispatch to one of five dashboards (`main.py`,
  `auth/login.py`);
- the buttons each dashboard wires, read as a role -> permitted-operations
  table (`gui/*_view.py`);
- the role-upgrade workflow as the client sees it: the request form with its
  stripped-reason guard, the listing, the fixed clearance map of approvals,
  and the admin window that refreshes only after a success
  (`gui/role_request_view.py`, `services/role_request_service.py`,
  `gui/admin_view.py`);
- the input guards and the row rendering of the grade, attendance, profile
  and course services (`services/*.py`).

Two collaborators stand for everything outside the client. `Db.Database`
keeps `calls`, the list of stored-procedure calls, each one
`Exec(procedure, args)` with its positional arguments. `Display.Screen` keeps
`messages`, the message boxes shown. What the database answers, and what the
user types into dialogs, are parameters of the methods: a `Reply` is the rows
or the exception raised, and an `Outcome` is the success or failure of a call
that only commits. A cancelled dialog is `None`. Every row column is kept as
opaque text, with three exceptions that are integers: attendance `Status`,
whose truthiness the client inspects; the `RequestID` of a pending request,
which is bound to that request's Approve and Deny buttons; and the
`ClearanceLevel` of the login row, which the login result carries.

Modules: `Wrappers` (Option), `Db`, `Display`, `Py` (Python truthiness and
`str.strip`), `Report` (the `Label: value` blocks the view services build,
and a reader that decodes them back), one module per service, `Dashboards`,
`RoleRequestView`, `AdminView` and `App` (`main.py`).

Some rules of the system are not enforced by this client at all, and the
model does not invent them:

- No dashboard offers Students the public course list, and none offers
  Admins user creation or role changes.
- The client neither sorts pending requests nor stops a request from being
  resolved twice; any such rule lives in the stored procedures.
- `submit_role_request` forwards whatever role it is given. Only the fixed
  targets of the Student and TA dashboards keep a user from requesting an
  arbitrary role.

## Model

| member | source | states |
|---|---|---|
| `Py.Strip` | SRMS_GUI_2.0/gui/role_request_view.py:49 | `str.strip()` is empty exactly when the text is all whitespace, and otherwise neither starts nor ends with whitespace |
| `Py.StripBounds` | SRMS_GUI_2.0/gui/role_request_view.py:49 | what `strip` keeps is one slice of the input; everything cut on either side is whitespace |
| `Py.StripUnique` | SRMS_GUI_2.0/gui/role_request_view.py:49 | for whitespace + m + whitespace, where m neither starts nor ends with whitespace, `strip` returns exactly m |
| `Py.StripIdempotent` | SRMS_GUI_2.0/gui/role_request_view.py:49 | stripping twice is stripping once |
| `Report.Block` | SRMS_GUI_2.0/services/grade_service.py:50-56 | every row's block ends with the separator line |
| `Report.RenderRows` | SRMS_GUI_2.0/services/grade_service.py:48-56 | the `result +=` loop produces the blocks of all rows, appended in fetch order |
| `Report.RenderedAppend` | SRMS_GUI_2.0/services/profile_service.py:16-24 | rendering two runs of rows is rendering each and concatenating |
| `Report.RenderedAt` | SRMS_GUI_2.0/services/course_service.py:16-23 | row k's block sits between the blocks of the rows before it and those after it |
| `Report.RenderedEndsWithSeparator` | SRMS_GUI_2.0/services/attendance_service.py:17-25 | text rendered from one row or more ends with the separator, so it never equals a no-data notice |
| `Report.DecodeRendered` | SRMS_GUI_2.0/services/grade_service.py:48-56 | read-back: rendered text decodes to exactly the rows' fields, in order, when no field holds a newline |
| `GradeService.GradeEntryComplete` | SRMS_GUI_2.0/services/grade_service.py:9 | the entry goes ahead unless the email is cancelled or empty, the course id is cancelled or 0, or the grade is cancelled; a grade of 0 never stops it |
| `GradeService.GradesMessage` | SRMS_GUI_2.0/services/grade_service.py:43-61 | an exception, and only an exception, is shown as an "Error" box with its text; every other reply is shown under the title "Grades" |
| `GradeService.EnterOrUpdateGrade` | SRMS_GUI_2.0/services/grade_service.py:4-25 | no call and no message if the email is empty or cancelled, the course id is cancelled or 0, or the grade is cancelled; a grade of 0 passes; otherwise exactly one `EnterOrUpdateGrade(username, email, course_id, grade)` call and a success or error message |
| `GradeService.ViewGrades` | SRMS_GUI_2.0/services/grade_service.py:28-61 | an empty or cancelled email issues no call; otherwise one `ViewGrades(username, email)` call, and the exception is shown as an error, never propagated |
| `GradeService.GradesReport` | SRMS_GUI_2.0/services/grade_service.py:43-58 | zero rows shows "No grades found", and only then; otherwise the blocks decode back to course id, grade, entered by and date for each row in order |
| `AttendanceService.StatusText` | SRMS_GUI_2.0/services/attendance_service.py:19 | a truthy status shows "Present"; zero or NULL shows "Absent" |
| `AttendanceService.AttendanceEntryComplete` | SRMS_GUI_2.0/services/attendance_service.py:37 | recording goes ahead unless the email is cancelled or empty, the course id is cancelled or 0, or the status is cancelled; status 0 never stops it |
| `AttendanceService.AttendanceMessage` | SRMS_GUI_2.0/services/attendance_service.py:13-30 | an exception, and only an exception, is shown as an "Error" box with its text; every other reply is shown under the title "Attendance" |
| `AttendanceService.ViewAttendance` | SRMS_GUI_2.0/services/attendance_service.py:5-30 | one `ViewAttendance(username)` call, with no guard; an exception is shown, not propagated |
| `AttendanceService.RecordAttendance` | SRMS_GUI_2.0/services/attendance_service.py:32-53 | no call if the email is empty, the course id is cancelled or 0, or the status is cancelled; status 0 passes and any integer is forwarded unchanged in one `RecordAttendance(username, email, course_id, status)` call |
| `AttendanceService.AttendanceReport` | SRMS_GUI_2.0/services/attendance_service.py:11-27 | zero rows shows "No attendance records", and only then; otherwise the blocks decode back to course id, status word and date for each row in order |
| `ProfileService.ProfileMessage` | SRMS_GUI_2.0/services/profile_service.py:12-29 | an exception, and only an exception, is shown as an "Error" box with its text; no rows are shown under "Profile", rows under "My Profile" |
| `ProfileService.ViewProfile` | SRMS_GUI_2.0/services/profile_service.py:4-29 | one `ViewProfilesByRole(username)` call, with no filtering on the client; an exception is shown, not propagated |
| `ProfileService.ProfileReport` | SRMS_GUI_2.0/services/profile_service.py:12-26 | zero rows shows "No data found", and only then; otherwise the blocks decode back to exactly name, email, department and clearance for each row in order |
| `CourseService.CoursesMessage` | SRMS_GUI_2.0/services/course_service.py:12-28 | an exception, and only an exception, is shown as an "Error" box with its text; no rows are shown under "Courses", rows under "Public Courses" |
| `CourseService.ViewPublicCourses` | SRMS_GUI_2.0/services/course_service.py:4-28 | one single-argument `ViewPublicCourses(username)` call; an exception is shown, not propagated |
| `CourseService.CoursesReport` | SRMS_GUI_2.0/services/course_service.py:12-25 | zero rows shows "No public courses available", and only then; otherwise the blocks decode back to course id, course name and info for each row in order |
| `RoleRequestService.RequestOf` | SRMS_GUI_2.0/services/role_request_service.py:46-54 | a request dictionary has exactly the seven keys RequestID, Username, CurrentRole, RequestedRole, Reason, DateSubmitted and Status, each holding its row's column |
| `RoleRequestService.ClearanceFor` | SRMS_GUI_2.0/services/role_request_service.py:66-72 | the clearance map gives 3 for "TA" and for "Instructor", and nothing for any other value |
| `RoleRequestService.SubmitRoleRequest` | SRMS_GUI_2.0/services/role_request_service.py:7-23 | one `SubmitRoleUpgradeRequest(username, requested_role, reason)` call with the arguments as given, and no check of its own |
| `RoleRequestService.RequestsFromRows` | SRMS_GUI_2.0/services/role_request_service.py:44-56 | one dictionary per fetched row, in fetch order, with no filtering or sorting |
| `RoleRequestService.ListRequests` | SRMS_GUI_2.0/services/role_request_service.py:29-56 | one `ListPendingRoleRequests(admin)` call; its rows become dictionaries in order, and a failure propagates |
| `RoleRequestService.ApproveRequest` | SRMS_GUI_2.0/services/role_request_service.py:62-89 | a role outside the clearance map fails with "Invalid role for approval" and issues no call; otherwise exactly one `ResolveRoleRequest(admin, id, "Approve", 3)` call |
| `RoleRequestService.DenyRequest` | SRMS_GUI_2.0/services/role_request_service.py:95-110 | exactly one three-argument `ResolveRoleRequest(admin, id, "Deny")` call, with no clearance and no role check |
| `Login.Validated` | SRMS_GUI_2.0/auth/login.py:14-28 | the login result is present exactly when a row came back, with username, role and clearance taken from Username, RoleName and ClearanceLevel; no row and any exception give `None` |
| `Login.FailureMessage` | SRMS_GUI_2.0/auth/login.py:15-27 | a failed login is always an error box: "Login Error" with the exception's text exactly when the call raised, otherwise "Login Failed" with "Invalid username or password" |
| `Login.ValidateLogin` | SRMS_GUI_2.0/auth/login.py:4-28 | one `ValidateLogin(username, password)` call in that order; a failure is a message ("Login Failed" or "Login Error"), never a propagated exception |
| `Dashboards.Buttons` | SRMS_GUI_2.0/gui/admin_view.py:19-84 | every dashboard has at least one button, no two buttons of a dashboard start the same operation, and each button passes the dashboard's username, or "guest1" on the guest dashboard |
| `Dashboards.AdminDashboard` | SRMS_GUI_2.0/gui/admin_view.py:19-84 | the Admin buttons are exactly view profiles, enter grade, view grades, view attendance, manage role requests and the department average, all passed the dashboard's username |
| `Dashboards.InstructorDashboard` | SRMS_GUI_2.0/gui/instructor_view.py:8-33 | the Instructor buttons are exactly view profiles, enter grade, view grades, record attendance and view attendance, all passed the dashboard's username |
| `Dashboards.TADashboard` | SRMS_GUI_2.0/gui/ta_view.py:12-59 | the TA buttons are exactly view profiles, record attendance, view attendance and a request for "Instructor", all passed the dashboard's username |
| `Dashboards.StudentDashboard` | SRMS_GUI_2.0/gui/student_view.py:8-48 | the Student buttons are exactly view profile, view attendance and a request for "TA", all passed the dashboard's username |
| `Dashboards.GuestDashboard` | SRMS_GUI_2.0/gui/guest_view.py:5-18 | the guest dashboard has exactly one operation, the public course list, always run as "guest1" |
| `Dashboards.DashboardsRealizeTable` | SRMS_GUI_2.0/main.py:42-51 | for every role, the dashboard it opens wires exactly that role's operations; only the guest's buttons ignore the username |
| `Dashboards.UpgradeOnlyToTarget` | SRMS_GUI_2.0/gui/student_view.py:43-47 | a role offers an upgrade request only to its fixed target: Student to "TA", TA to "Instructor", no other role to anything |
| `Dashboards.GradesOnlyAdminAndInstructor` | SRMS_GUI_2.0/gui/instructor_view.py:23-27 | grade entry and grade viewing are reachable from the Admin and Instructor dashboards only |
| `Dashboards.RecordAttendanceOnlyInstructorAndTA` | SRMS_GUI_2.0/gui/ta_view.py:36-41 | recording attendance is reachable from the Instructor and TA dashboards only, so not from Admin |
| `Dashboards.RequestManagementOnlyAdmin` | SRMS_GUI_2.0/gui/admin_view.py:69-84 | managing role requests and the department average are Admin-only; submitting a request is Student- and TA-only |
| `Dashboards.PublicCoursesOnlyGuest` | SRMS_GUI_2.0/gui/guest_view.py:16-18 | only the guest dashboard lists public courses, and it reaches no profile or attendance operation |
| `App.Dispatch` | SRMS_GUI_2.0/main.py:42-53 | a dashboard opens exactly for the five role names "Admin", "Instructor", "TA", "Student" and "Guest", and for each it is that role's dashboard for the given username |
| `App.HandleLogin` | SRMS_GUI_2.0/main.py:30-53 | a failed login returns at once, with no window hidden and no dashboard; a valid one hides the login window, then opens the dashboard of its role name for the typed username, or shows "Unknown role" with the window already hidden |
| `App.DispatchedRole` | SRMS_GUI_2.0/main.py:42-53 | a dashboard opens only for the exact, case-sensitive name of one of the five roles, and it is that role's dashboard |
| `App.DispatchCoversRoles` | SRMS_GUI_2.0/main.py:42-51 | each of "Admin", "Instructor", "TA", "Student" and "Guest" opens its role's dashboard; the guest's gets no username |
| `App.DispatchDistinct` | SRMS_GUI_2.0/main.py:42-51 | the five dashboards are distinct: two role names that open the same one are equal |
| `App.ApprovableRoles` | SRMS_GUI_2.0/services/role_request_service.py:67-75 | of the five role names, only "TA" and "Instructor" can be approved; "Admin", "Student" and "Guest" are rejected |
| `App.UpgradesAreApprovable` | SRMS_GUI_2.0/gui/ta_view.py:54-58 | every upgrade a dashboard offers is accepted by an approval, with clearance 3 |
| `RoleRequestView.RoleRequestForm.constructor` | SRMS_GUI_2.0/gui/role_request_view.py:10-35 | the form is opened for a requester and a fixed role, which the user cannot change |
| `RoleRequestView.RoleRequestForm.Submit` | SRMS_GUI_2.0/gui/role_request_view.py:48-63 | the reason is stripped; a blank one shows "Reason is required" with no call; otherwise one submission of the form's own role and the stripped reason; success closes the form, failure shows the error and leaves it open |
| `AdminView.Lists` | SRMS_GUI_2.0/gui/admin_view.py:101-145 | a window that lists a reply shows the "No pending role requests" notice exactly when the listing returned no rows, and then no frame; in every frame the Approve and Deny buttons carry the window's admin and the same request id |
| `AdminView.OpenRoleRequestsWindow` | SRMS_GUI_2.0/gui/admin_view.py:90-145 | one listing call; no rows gives the "No pending role requests" notice and no buttons; otherwise one frame per request in list order, Approve bound to that request's RequestID and RequestedRole, Deny to its RequestID only |
| `AdminView.ApproveAndRefresh` | SRMS_GUI_2.0/gui/admin_view.py:151-158 | on any failure, the invalid-role rejection included, an error is shown, the window stays and nothing is re-listed; on success the window is destroyed and a fresh one re-lists the pending requests |
| `AdminView.DenyAndRefresh` | SRMS_GUI_2.0/gui/admin_view.py:161-168 | on failure an error is shown and nothing is re-listed; on success the window is destroyed and a fresh one re-lists the pending requests |

## Left out

- Stored-procedure internals are not part of this model: credential checking, server-side authorization, request status transitions and the order of pending requests. The client neither implements nor checks any of them.
- tkinter presentation is not modelled: layout, fonts, section frames (`utils/layout.py`), the text of each request frame's info label, and window titles. Windows are modelled only by whether they are open and what they hold.
- Connection setup (`db/connection.py`), commit and close are not modelled. Each call in `Database.calls` stands for one connection opened and one `EXEC` run. A failure to connect is treated like a failed call: it is still logged and its exception is handled as the code handles any exception.
- Float and date formatting are not modelled. GradeValue, DateEntered, DateRecorded and DateSubmitted are opaque text. The grade typed into the dialog is a `real` that is forwarded unchanged.
- `services/inference_service.py` is not part of this model. Its only local logic is an empty-department guard, and its result is a server-computed average. The Admin button that starts it is modelled.
- The older `SRMS_GUI` variant is not part of this model. It is superseded by 2.0 and its rules conflict with it.
- The "Manage Role Requests" button calls `open_role_requests_window` outside any `try`, so a listing failure there reaches tkinter's callback handler. `AdminView.OpenRoleRequestsWindow` hands that failure back to its caller, and the model goes no further.
- Report.DecodeRendered: the read-back holds only for rows whose fields contain no newline. With a newline inside a field, the rendered text is ambiguous.
