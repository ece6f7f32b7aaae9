/** `main.py`: the login window and the dispatch of a validated login to one dashboard. */
module App {
  import opened Wrappers
  import opened Db
  import opened Display
  import opened Login
  import opened Dashboards
  import opened RoleRequestService

  const UnknownRole: string := "Unknown role"

  /** The if/elif chain of `handle_login`: exact, case-sensitive comparison of the role name. */
  function Dispatch(role: string, username: string): (d: Option<Dashboard>)
    ensures d.Some? <==> role in {"Admin", "Instructor", "TA", "Student", "Guest"}
    ensures forall r :: RoleName(r) == role ==> d == Some(DashboardFor(r, username))
  {
    if role == "Admin" then Some(AdminPanel(username))
    else if role == "Instructor" then Some(InstructorPanel(username))
    else if role == "TA" then Some(TAPanel(username))
    else if role == "Student" then Some(StudentPanel(username))
    else if role == "Guest" then Some(GuestPanel)
    else None
  }

  /** The login window; `withdrawn` once `root.withdraw()` has hidden it. */
  class LoginWindow {
    var withdrawn: bool

    constructor ()
      ensures !withdrawn
    {
      withdrawn := false;
    }

    method Withdraw()
      modifies this`withdrawn
      ensures withdrawn
    {
      withdrawn := true;
    }
  }

  /**
   * `handle_login`, given the username and password typed and the reply of
   * `ValidateLogin`. A failed login changes nothing but the message shown. A
   * valid one hides the login window first, then opens the dashboard its role
   * name selects, for the username TYPED in the form (not the one the row
   * returns); an unknown role name opens nothing and shows an error, with the
   * login window already hidden.
   */
  method HandleLogin(db: Database, screen: Screen, root: LoginWindow, username: string, password: string,
                     reply: Reply<Option<LoginRow>>) returns (dashboard: Option<Dashboard>)
    modifies db`calls, screen`messages, root`withdrawn
    ensures db.calls == old(db.calls) + [LoginCall(username, password)]
    ensures Validated(reply).None? ==>
              && dashboard == None && root.withdrawn == old(root.withdrawn)
              && screen.messages == old(screen.messages) + [FailureMessage(reply)]
    ensures Validated(reply).Some? ==>
              && root.withdrawn
              && dashboard == Dispatch(Validated(reply).value.role, username)
              && screen.messages == old(screen.messages) + (if dashboard == None then [Error("Error", UnknownRole)] else [])
  {
    var result := ValidateLogin(db, screen, username, password, reply);
    if result.None? {
      return None;
    }
    var role := result.value.role;
    root.Withdraw();
    dashboard := Dispatch(role, username);
    if dashboard.None? {
      screen.Show(Error("Error", UnknownRole));
    }
  }

  /**
   * Dispatch opens a dashboard only for the exact name of one of the five
   * roles, and then it is that role's dashboard for the given username.
   */
  lemma DispatchedRole(role: string, username: string) returns (r: Role)
    requires Dispatch(role, username).Some?
    ensures RoleName(r) == role
    ensures Dispatch(role, username) == Some(DashboardFor(r, username))
  {
    r := if role == "Admin" then Admin
         else if role == "Instructor" then Instructor
         else if role == "TA" then TA
         else if role == "Student" then Student
         else Guest;
  }

  /** Every one of the five role names opens its role's dashboard. */
  lemma DispatchCoversRoles(r: Role, username: string)
    ensures Dispatch(RoleName(r), username) == Some(DashboardFor(r, username))
  {
  }

  /** The five dashboards are distinct: two role names that open the same dashboard are the same name. */
  lemma DispatchDistinct(role1: string, role2: string, username: string)
    requires Dispatch(role1, username).Some?
    requires Dispatch(role1, username) == Dispatch(role2, username)
    ensures role1 == role2
  {
  }

  /** Only TA and Instructor requests can be approved; Admin, Student and Guest are rejected. */
  lemma ApprovableRoles(r: Role)
    ensures ClearanceFor(Text(RoleName(r))).Some? <==> r == TA || r == Instructor
  {
  }

  /** Every upgrade a dashboard offers is one an approval accepts, with clearance 3. */
  lemma UpgradesAreApprovable(r: Role, target: string)
    requires RequestUpgrade(target) in Ops(r)
    ensures ClearanceFor(Text(target)) == Some(3)
  {
    UpgradeOnlyToTarget(r, target);
  }
}
