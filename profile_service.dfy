/** `services/profile_service.py`: viewing the profiles the server lets a user see. */
module ProfileService {
  import opened Wrappers
  import opened Db
  import opened Display
  import opened Report

  /** A row of `ViewProfilesByRole`, reduced to the four columns shown. */
  datatype ProfileRow = ProfileRow(fullName: string, email: string, department: string, clearanceLevel: string)

  const ProfileLabels: seq<string> := ["Name: ", "Email: ", "Department: ", "Clearance: "]
  const NoProfiles: string := "No data found"

  function ProfileFields(r: ProfileRow): seq<string> {
    [r.fullName, r.email, r.department, r.clearanceLevel]
  }

  function ProfileBlock(r: ProfileRow): string {
    Block(ProfileLabels, ProfileFields(r))
  }

  function ViewProfilesCall(username: string): RemoteCall {
    Exec("ViewProfilesByRole", [Text(username)])
  }

  /** The message `view_profile` shows for a reply of `ViewProfilesByRole`. */
  function ProfileMessage(reply: Reply<seq<ProfileRow>>): (m: Message)
    ensures m.Error? <==> reply.Raised?
    ensures reply.Raised? ==> m == Error("Error", reply.msg)
    ensures m.Info? ==> (m.title == "Profile" <==> reply.value == []) && (m.title == "Profile" || m.title == "My Profile")
  {
    match reply
    case Raised(msg) => Error("Error", msg)
    case Returned(rows) =>
      if rows == [] then Info("Profile", NoProfiles) else Info("My Profile", Rendered(rows, ProfileBlock))
  }

  /** `view_profile(username)`, given the reply of `ViewProfilesByRole`; no filtering happens on this side. */
  method ViewProfile(db: Database, screen: Screen, username: string, reply: Reply<seq<ProfileRow>>)
    modifies db`calls, screen`messages
    ensures db.calls == old(db.calls) + [ViewProfilesCall(username)]
    ensures screen.messages == old(screen.messages) + [ProfileMessage(reply)]
  {
    db.Execute(ViewProfilesCall(username));
    match reply {
      case Raised(msg) =>
        screen.Show(Error("Error", msg));
      case Returned(rows) =>
        if rows == [] {
          screen.Show(Info("Profile", NoProfiles));
          return;
        }
        var text := RenderRows(rows, ProfileBlock);
        screen.Show(Info("My Profile", text));
    }
  }

  /**
   * What a successful `ViewProfilesByRole` shows: the "no data" notice exactly
   * when no row came back; otherwise one block per row, in fetch order, whose
   * fields read back as exactly name, email, department and clearance.
   */
  lemma ProfileReport(rows: seq<ProfileRow>)
    ensures ProfileMessage(Returned(rows)).Info?
    ensures ProfileMessage(Returned(rows)).text == NoProfiles <==> rows == []
    ensures (forall r :: r in rows ==> Readable(ProfileLabels, ProfileFields(r))) ==>
              rows != [] ==>
              Decode(ProfileLabels, ProfileMessage(Returned(rows)).text) == Some(Records(rows, ProfileFields))
  {
    if rows != [] {
      RenderedEndsWithSeparator(rows, ProfileBlock);
      if forall r :: r in rows ==> Readable(ProfileLabels, ProfileFields(r)) {
        DecodeRendered(ProfileLabels, rows, ProfileBlock, ProfileFields);
      }
    }
  }
}
