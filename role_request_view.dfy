/** `gui/role_request_view.py`: the form a Student or TA fills in to ask for a role upgrade. */
module RoleRequestView {
  import opened Db
  import opened Display
  import opened Py
  import opened RoleRequestService

  const ReasonRequired: string := "Reason is required"
  const Submitted: string := "Role upgrade request submitted successfully"

  class RoleRequestForm {
    /** The requester. */
    const username: string
    /** The requested role, shown in a disabled field: the user cannot change it. */
    const role: string
    var isOpen: bool

    /** `open_role_request_form(username, role)`. */
    constructor (username: string, role: string)
      ensures this.username == username && this.role == role && isOpen
    {
      this.username := username;
      this.role := role;
      isOpen := true;
    }

    /**
     * The form's `submit`, given the text of the reason box and the outcome of
     * the call. The reason is stripped first; a blank one is refused with no
     * call. Otherwise the fixed role and the stripped reason are submitted; the
     * form closes on success and stays open, showing the error, on failure.
     */
    method Submit(db: Database, screen: Screen, typed: string, reply: Outcome)
      requires isOpen
      modifies this`isOpen, db`calls, screen`messages
      ensures Strip(typed) == [] ==>
                && isOpen
                && db.calls == old(db.calls)
                && screen.messages == old(screen.messages) + [Error("Error", ReasonRequired)]
      ensures Strip(typed) != [] ==> db.calls == old(db.calls) + [SubmitCall(username, role, Strip(typed))]
      ensures Strip(typed) != [] && reply.Done? ==>
                !isOpen && screen.messages == old(screen.messages) + [Info("Success", Submitted)]
      ensures Strip(typed) != [] && reply.Failed? ==>
                isOpen && screen.messages == old(screen.messages) + [Error("Error", reply.msg)]
    {
      var reason := Strip(typed);
      if reason == [] {
        screen.Show(Error("Error", ReasonRequired));
        return;
      }
      var r := SubmitRoleRequest(db, username, role, reason, reply);
      match r {
        case Done =>
          screen.Show(Info("Success", Submitted));
          isOpen := false;
        case Failed(msg) =>
          screen.Show(Error("Error", msg));
      }
    }
  }
}
