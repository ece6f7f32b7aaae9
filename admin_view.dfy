/** `gui/admin_view.py`: the window where an Admin approves or denies pending role requests. */
module AdminView {
  import opened Wrappers
  import opened Db
  import opened Display
  import opened RoleRequestService

  /** A button of a request frame, with the arguments bound to it when the frame was built. */
  datatype Control =
    | Approve(admin: string, requestId: Value, requestedRole: Value)
    | Deny(admin: string, requestId: Value)

  /** The frame built for one pending request: its Approve and Deny buttons. */
  datatype RequestFrame = RequestFrame(approve: Control, deny: Control)

  const NoPending: string := "No pending role requests"

  /** A "Pending Role Requests" window. */
  class RequestsWindow {
    const admin: string
    var isOpen: bool
    /** The label shown instead of frames when nothing is pending. */
    var notice: Option<string>
    var frames: seq<RequestFrame>

    constructor (admin: string)
      ensures this.admin == admin && isOpen && notice == None && frames == []
    {
      this.admin := admin;
      isOpen := true;
      notice := None;
      frames := [];
    }

    method AddFrame(f: RequestFrame)
      modifies this`frames
      ensures frames == old(frames) + [f]
    {
      frames := frames + [f];
    }

    method ShowNotice(text: string)
      modifies this`notice
      ensures notice == Some(text)
    {
      notice := Some(text);
    }

    method Destroy()
      modifies this`isOpen
      ensures !isOpen
    {
      isOpen := false;
    }
  }

  /** The frame for one listed request: Approve takes its RequestID and RequestedRole, Deny only its RequestID. */
  function FrameFor(admin: string, req: Request): RequestFrame
    requires "RequestID" in req && "RequestedRole" in req
  {
    RequestFrame(Approve(admin, req["RequestID"], req["RequestedRole"]), Deny(admin, req["RequestID"]))
  }

  /**
   * What a requests window of `w.admin` shows once the listing answered
   * `reply`: nothing when it raised; the "no pending" notice and no frame when
   * no row came back; otherwise one frame per row, in order, whose buttons carry
   * that row's own id and requested role.
   */
  ghost predicate Lists(w: RequestsWindow, reply: Reply<seq<RequestRow>>): (ok: bool)
    reads w
    ensures ok ==> (w.notice == Some(NoPending) <==> reply.Returned? && reply.value == [])
    ensures ok && w.notice.Some? ==> w.frames == []
    ensures ok ==> forall i :: 0 <= i < |w.frames| ==>
                     && w.frames[i].approve.Approve? && w.frames[i].deny.Deny?
                     && w.frames[i].approve.admin == w.admin == w.frames[i].deny.admin
                     && w.frames[i].approve.requestId == w.frames[i].deny.requestId
  {
    match reply
    case Raised(_) => w.notice == None && w.frames == []
    case Returned(rows) =>
      && w.notice == (if rows == [] then Some(NoPending) else None)
      && |w.frames| == |rows|
      && forall i :: 0 <= i < |rows| ==>
           w.frames[i] == RequestFrame(Approve(w.admin, Int(rows[i].requestId), Text(rows[i].requestedRole)),
                                       Deny(w.admin, Int(rows[i].requestId)))
  }

  /**
   * `open_role_requests_window(admin_user)`, given the reply of the listing. The
   * window is created before the listing, so it exists even when the listing
   * raises; that failure is handed back to the caller.
   */
  method OpenRoleRequestsWindow(db: Database, admin: string, reply: Reply<seq<RequestRow>>)
    returns (w: RequestsWindow, failure: Option<string>)
    modifies db`calls
    ensures fresh(w) && w.isOpen && w.admin == admin
    ensures db.calls == old(db.calls) + [ListCall(admin)]
    ensures failure == (if reply.Raised? then Some(reply.msg) else None)
    ensures Lists(w, reply)
  {
    w := new RequestsWindow(admin);
    var listed := ListRequests(db, admin, reply);
    if listed.Raised? {
      failure := Some(listed.msg);
      return;
    }
    failure := None;
    var requests := listed.value;
    if requests == [] {
      w.ShowNotice(NoPending);
      return;
    }
    for i := 0 to |requests|
      invariant w.isOpen && w.notice == None
      invariant db.calls == old(db.calls) + [ListCall(admin)]
      invariant |w.frames| == i
      invariant forall k :: 0 <= k < i ==> w.frames[k] == FrameFor(admin, requests[k])
    {
      w.AddFrame(FrameFor(admin, requests[i]));
    }
  }

  /**
   * `approve_and_refresh`, given the outcome of the approval and the reply of
   * the listing that follows it. On any failure, the invalid-role rejection
   * included, an error is shown and the window stays as it is. On success the
   * window is destroyed and a fresh one lists the pending requests again.
   */
  method ApproveAndRefresh(db: Database, screen: Screen, admin: string, requestId: Value,
                           requestedRole: Value, window: RequestsWindow,
                           approveReply: Outcome, listReply: Reply<seq<RequestRow>>)
    returns (refreshed: Option<RequestsWindow>)
    modifies db`calls, screen`messages, window`isOpen
    ensures ClearanceFor(requestedRole).None? ==>
              && refreshed == None && window.isOpen == old(window.isOpen)
              && db.calls == old(db.calls)
              && screen.messages == old(screen.messages) + [Error("Error", InvalidRole)]
    ensures ClearanceFor(requestedRole).Some? && approveReply.Failed? ==>
              && refreshed == None && window.isOpen == old(window.isOpen)
              && db.calls == old(db.calls) + [ApproveCall(admin, requestId, 3)]
              && screen.messages == old(screen.messages) + [Error("Error", approveReply.msg)]
    ensures ClearanceFor(requestedRole).Some? && approveReply.Done? ==>
              && !window.isOpen
              && refreshed.Some? && fresh(refreshed.value) && refreshed.value.isOpen
              && refreshed.value.admin == admin && Lists(refreshed.value, listReply)
              && db.calls == old(db.calls) + [ApproveCall(admin, requestId, 3), ListCall(admin)]
              && screen.messages == old(screen.messages) + [Info("Success", "Request approved successfully")]
                   + (if listReply.Raised? then [Error("Error", listReply.msg)] else [])
  {
    var r := ApproveRequest(db, admin, requestId, requestedRole, approveReply);
    if r.Failed? {
      screen.Show(Error("Error", r.msg));
      return None;
    }
    screen.Show(Info("Success", "Request approved successfully"));
    window.Destroy();
    var w, failure := OpenRoleRequestsWindow(db, admin, listReply);
    if failure.Some? {
      screen.Show(Error("Error", failure.value));
    }
    refreshed := Some(w);
  }

  /**
   * `deny_and_refresh`, given the outcome of the denial and the reply of the
   * listing that follows it: no role check on this side; on failure an error
   * and no refresh, on success the window is replaced by a fresh listing.
   */
  method DenyAndRefresh(db: Database, screen: Screen, admin: string, requestId: Value,
                        window: RequestsWindow, denyReply: Outcome, listReply: Reply<seq<RequestRow>>)
    returns (refreshed: Option<RequestsWindow>)
    modifies db`calls, screen`messages, window`isOpen
    ensures denyReply.Failed? ==>
              && refreshed == None && window.isOpen == old(window.isOpen)
              && db.calls == old(db.calls) + [DenyCall(admin, requestId)]
              && screen.messages == old(screen.messages) + [Error("Error", denyReply.msg)]
    ensures denyReply.Done? ==>
              && !window.isOpen
              && refreshed.Some? && fresh(refreshed.value) && refreshed.value.isOpen
              && refreshed.value.admin == admin && Lists(refreshed.value, listReply)
              && db.calls == old(db.calls) + [DenyCall(admin, requestId), ListCall(admin)]
              && screen.messages == old(screen.messages) + [Info("Success", "Request denied")]
                   + (if listReply.Raised? then [Error("Error", listReply.msg)] else [])
  {
    var r := DenyRequest(db, admin, requestId, denyReply);
    if r.Failed? {
      screen.Show(Error("Error", r.msg));
      return None;
    }
    screen.Show(Info("Success", "Request denied"));
    window.Destroy();
    var w, failure := OpenRoleRequestsWindow(db, admin, listReply);
    if failure.Some? {
      screen.Show(Error("Error", failure.value));
    }
    refreshed := Some(w);
  }
}
