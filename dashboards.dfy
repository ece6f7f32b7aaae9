/**
 * The five dashboards of the `gui` views (admin, instructor, TA, student and
 * guest): the buttons each one wires, the remote operation behind each button
 * and the username it passes. Together they form the role -> permitted-operations
 * table of the client.
 */
module Dashboards {
  import opened Wrappers

  datatype Role = Admin | Instructor | TA | Student | Guest

  /** The role name a login result carries for each role. */
  function RoleName(r: Role): string {
    match r
    case Admin => "Admin"
    case Instructor => "Instructor"
    case TA => "TA"
    case Student => "Student"
    case Guest => "Guest"
  }

  /** An operation a dashboard button starts. */
  datatype Op =
    | ViewProfile            // view_profile
    | EnterOrUpdateGrade     // enter_or_update_grade
    | ViewGrades             // view_grades
    | RecordAttendance       // record_attendance
    | ViewAttendance         // view_attendance
    | ManageRoleRequests     // open_role_requests_window
    | AvgGradeByDepartment   // avg_grade_by_department
    | RequestUpgrade(target: string)  // open_role_request_form with a fixed target role
    | ViewPublicCourses      // view_public_courses

  /** A button: the operation it starts and the username it passes to it. */
  datatype Action = Action(op: Op, principal: string)

  /** An open dashboard; every one but the guest's belongs to a username. */
  datatype Dashboard =
    | AdminPanel(username: string)
    | InstructorPanel(username: string)
    | TAPanel(username: string)
    | StudentPanel(username: string)
    | GuestPanel

  /** The fixed account the guest dashboard queries as. */
  const GuestPrincipal: string := "guest1"

  /** `open_admin`, `open_instructor`, `open_ta`, `open_student` and `open_guest`. */
  function DashboardFor(r: Role, username: string): Dashboard {
    match r
    case Admin => AdminPanel(username)
    case Instructor => InstructorPanel(username)
    case TA => TAPanel(username)
    case Student => StudentPanel(username)
    case Guest => GuestPanel
  }

  /** The buttons of a dashboard, top to bottom. */
  function Buttons(d: Dashboard): (bs: seq<Action>)
    ensures bs != []
    ensures forall i :: 0 <= i < |bs| ==> bs[i].principal == (if d.GuestPanel? then GuestPrincipal else d.username)
    ensures forall i, j :: 0 <= i < j < |bs| ==> bs[i].op != bs[j].op
  {
    match d
    case AdminPanel(u) =>
      [Action(ViewProfile, u), Action(EnterOrUpdateGrade, u), Action(ViewGrades, u),
       Action(ViewAttendance, u), Action(ManageRoleRequests, u), Action(AvgGradeByDepartment, u)]
    case InstructorPanel(u) =>
      [Action(ViewProfile, u), Action(EnterOrUpdateGrade, u), Action(ViewGrades, u),
       Action(RecordAttendance, u), Action(ViewAttendance, u)]
    case TAPanel(u) =>
      [Action(ViewProfile, u), Action(RecordAttendance, u), Action(ViewAttendance, u),
       Action(RequestUpgrade("Instructor"), u)]
    case StudentPanel(u) =>
      [Action(ViewProfile, u), Action(ViewAttendance, u), Action(RequestUpgrade("TA"), u)]
    case GuestPanel =>
      [Action(ViewPublicCourses, GuestPrincipal)]
  }

  function OpsOf(buttons: seq<Action>): set<Op> {
    set a | a in buttons :: a.op
  }

  /** The role -> permitted-operations table. */
  function Ops(r: Role): set<Op> {
    match r
    case Admin =>
      {ViewProfile, EnterOrUpdateGrade, ViewGrades, ViewAttendance, ManageRoleRequests, AvgGradeByDepartment}
    case Instructor =>
      {ViewProfile, EnterOrUpdateGrade, ViewGrades, RecordAttendance, ViewAttendance}
    case TA =>
      {ViewProfile, RecordAttendance, ViewAttendance, RequestUpgrade("Instructor")}
    case Student =>
      {ViewProfile, ViewAttendance, RequestUpgrade("TA")}
    case Guest =>
      {ViewPublicCourses}
  }

  /** The one role each role may ask to be upgraded to. */
  function UpgradeTarget(r: Role): Option<string> {
    match r
    case Student => Some("TA")
    case TA => Some("Instructor")
    case _ => None
  }

  lemma OpsOfButtons(bs: seq<Action>)
    ensures forall k :: 0 <= k < |bs| ==> bs[k].op in OpsOf(bs)
  {
    forall k | 0 <= k < |bs| ensures bs[k].op in OpsOf(bs) {
      assert bs[k] in bs;
    }
  }

  /** `open_admin`: the Admin operations, each called with the dashboard's own username. */
  lemma AdminDashboard(username: string)
    ensures OpsOf(Buttons(AdminPanel(username))) == Ops(Admin)
    ensures forall a :: a in Buttons(AdminPanel(username)) ==> a.principal == username
  {
    OpsOfButtons(Buttons(AdminPanel(username)));
  }

  /** `open_instructor`: the Instructor operations, each called with the dashboard's own username. */
  lemma InstructorDashboard(username: string)
    ensures OpsOf(Buttons(InstructorPanel(username))) == Ops(Instructor)
    ensures forall a :: a in Buttons(InstructorPanel(username)) ==> a.principal == username
  {
    OpsOfButtons(Buttons(InstructorPanel(username)));
  }

  /** `open_ta`: the TA operations, each called with the dashboard's own username. */
  lemma TADashboard(username: string)
    ensures OpsOf(Buttons(TAPanel(username))) == Ops(TA)
    ensures forall a :: a in Buttons(TAPanel(username)) ==> a.principal == username
  {
    OpsOfButtons(Buttons(TAPanel(username)));
  }

  /** `open_student`: the Student operations, each called with the dashboard's own username. */
  lemma StudentDashboard(username: string)
    ensures OpsOf(Buttons(StudentPanel(username))) == Ops(Student)
    ensures forall a :: a in Buttons(StudentPanel(username)) ==> a.principal == username
  {
    OpsOfButtons(Buttons(StudentPanel(username)));
  }

  /** `open_guest`: one operation, the public course list, always called as "guest1". */
  lemma GuestDashboard()
    ensures OpsOf(Buttons(GuestPanel)) == Ops(Guest) == {ViewPublicCourses}
    ensures forall a :: a in Buttons(GuestPanel) ==> a.principal == GuestPrincipal
  {
    OpsOfButtons(Buttons(GuestPanel));
  }

  /**
   * Whatever role logs in, its dashboard wires exactly the operations the table
   * grants the role; every button passes the username the dashboard was opened
   * with, except the guest's, which passes "guest1" and ignores who logged in.
   */
  lemma DashboardsRealizeTable(r: Role, username: string)
    ensures OpsOf(Buttons(DashboardFor(r, username))) == Ops(r)
    ensures forall a :: a in Buttons(DashboardFor(r, username)) ==>
              a.principal == (if r == Guest then GuestPrincipal else username)
    ensures r == Guest ==> DashboardFor(r, username) == GuestPanel
  {
    match r
    case Admin => AdminDashboard(username);
    case Instructor => InstructorDashboard(username);
    case TA => TADashboard(username);
    case Student => StudentDashboard(username);
    case Guest => GuestDashboard();
  }

  /** A role can ask for an upgrade only to its fixed target: Student to "TA", TA to "Instructor". */
  lemma UpgradeOnlyToTarget(r: Role, target: string)
    ensures RequestUpgrade(target) in Ops(r) <==> UpgradeTarget(r) == Some(target)
  {
  }

  /** Grades are entered and viewed only from the Admin and Instructor dashboards. */
  lemma GradesOnlyAdminAndInstructor(r: Role)
    ensures EnterOrUpdateGrade in Ops(r) <==> r == Admin || r == Instructor
    ensures ViewGrades in Ops(r) <==> r == Admin || r == Instructor
  {
  }

  /** Attendance is recorded only from the Instructor and TA dashboards; the Admin one has no such button. */
  lemma RecordAttendanceOnlyInstructorAndTA(r: Role)
    ensures RecordAttendance in Ops(r) <==> r == Instructor || r == TA
  {
  }

  /** Role requests are managed, and department averages asked for, only from the Admin dashboard. */
  lemma RequestManagementOnlyAdmin(r: Role)
    ensures ManageRoleRequests in Ops(r) <==> r == Admin
    ensures AvgGradeByDepartment in Ops(r) <==> r == Admin
    ensures (exists t :: RequestUpgrade(t) in Ops(r)) <==> r == Student || r == TA
  {
    if r == Student {
      assert RequestUpgrade("TA") in Ops(r);
    } else if r == TA {
      assert RequestUpgrade("Instructor") in Ops(r);
    }
  }

  /** Only the guest dashboard lists public courses, and it reaches nothing else. */
  lemma PublicCoursesOnlyGuest(r: Role)
    ensures ViewPublicCourses in Ops(r) <==> r == Guest
    ensures r == Guest ==> ViewProfile !in Ops(r) && ViewAttendance !in Ops(r)
  {
  }
}
