/** `auth/login.py`: turning the answer of `ValidateLogin` into a login result. */
module Login {
  import opened Wrappers
  import opened Db
  import opened Display

  /** The row `ValidateLogin` returns for valid credentials. */
  datatype LoginRow = LoginRow(username: string, roleName: string, clearanceLevel: int)

  /** The dictionary `{username, role, clearance}` a successful login returns. */
  datatype Principal = Principal(username: string, role: string, clearance: int)

  function LoginCall(username: string, password: string): RemoteCall {
    Exec("ValidateLogin", [Text(username), Text(password)])
  }

  /**
   * The login result for a reply of `ValidateLogin`: a principal exactly when a
   * row came back, taken column by column from it; `None` when no row came back
   * and when the call raised.
   */
  function Validated(reply: Reply<Option<LoginRow>>): (p: Option<Principal>)
    ensures p.Some? <==> reply.Returned? && reply.value.Some?
    ensures p.Some? ==>
              var row := reply.value.value;
              p.value.username == row.username && p.value.role == row.roleName
              && p.value.clearance == row.clearanceLevel
  {
    match reply
    case Raised(_) => None
    case Returned(None) => None
    case Returned(Some(row)) => Some(Principal(row.username, row.roleName, row.clearanceLevel))
  }

  /** The message shown when a login fails: bad credentials, or the text of the exception. */
  function FailureMessage(reply: Reply<Option<LoginRow>>): (m: Message)
    ensures m.Error?
    ensures m.title == "Login Error" <==> reply.Raised?
    ensures reply.Raised? ==> m.text == reply.msg
    ensures reply.Returned? ==> m == Error("Login Failed", "Invalid username or password")
  {
    match reply
    case Raised(msg) => Error("Login Error", msg)
    case Returned(_) => Error("Login Failed", "Invalid username or password")
  }

  /** `validate_login(username, password)`: the exception, if any, becomes a message, never a propagated error. */
  method ValidateLogin(db: Database, screen: Screen, username: string, password: string,
                       reply: Reply<Option<LoginRow>>) returns (result: Option<Principal>)
    modifies db`calls, screen`messages
    ensures db.calls == old(db.calls) + [LoginCall(username, password)]
    ensures result == Validated(reply)
    ensures screen.messages == old(screen.messages) + (if result.None? then [FailureMessage(reply)] else [])
  {
    db.Execute(LoginCall(username, password));
    match reply {
      case Raised(msg) =>
        screen.Show(Error("Login Error", msg));
        result := None;
      case Returned(None) =>
        screen.Show(Error("Login Failed", "Invalid username or password"));
        result := None;
      case Returned(Some(row)) =>
        result := Some(Principal(row.username, row.roleName, row.clearanceLevel));
    }
  }
}
