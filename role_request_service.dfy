/** `services/role_request_service.py`: the client side of the role-upgrade workflow. */
module RoleRequestService {
  import opened Wrappers
  import opened Db

  /** A row of `ListPendingRoleRequests`; the date is kept as the text it is shown as. */
  datatype RequestRow = RequestRow(requestId: int, username: string, currentRole: string,
                                   requestedRole: string, reason: string, dateSubmitted: string,
                                   status: string)

  /** The dictionary `list_requests` builds for one row. */
  type Request = map<string, Value>

  const RequestKeys: set<string> :=
    {"RequestID", "Username", "CurrentRole", "RequestedRole", "Reason", "DateSubmitted", "Status"}

  /** The clearance an approval assigns, by requested role. */
  const ClearanceMap: map<Value, int> := map[Text("TA") := 3, Text("Instructor") := 3]

  const InvalidRole: string := "Invalid role for approval"

  /** The dictionary for one row: exactly the seven keys, each holding that row's column. */
  function RequestOf(row: RequestRow): (req: Request)
    ensures req.Keys == RequestKeys
    ensures req["RequestID"] == Int(row.requestId) && req["RequestedRole"] == Text(row.requestedRole)
    ensures req["Username"] == Text(row.username) && req["CurrentRole"] == Text(row.currentRole)
    ensures req["Reason"] == Text(row.reason) && req["DateSubmitted"] == Text(row.dateSubmitted)
    ensures req["Status"] == Text(row.status)
  {
    map["RequestID" := Int(row.requestId), "Username" := Text(row.username),
        "CurrentRole" := Text(row.currentRole), "RequestedRole" := Text(row.requestedRole),
        "Reason" := Text(row.reason), "DateSubmitted" := Text(row.dateSubmitted),
        "Status" := Text(row.status)]
  }

  /** `clearance_map.get(requested_role)`: 3 for "TA" and "Instructor", nothing for any other value. */
  function ClearanceFor(requestedRole: Value): (c: Option<int>)
    ensures c.Some? <==> requestedRole == Text("TA") || requestedRole == Text("Instructor")
    ensures c.Some? ==> c.value == 3
  {
    if requestedRole in ClearanceMap then Some(ClearanceMap[requestedRole]) else None
  }

  function SubmitCall(username: string, requestedRole: string, reason: string): RemoteCall {
    Exec("SubmitRoleUpgradeRequest", [Text(username), Text(requestedRole), Text(reason)])
  }

  function ListCall(admin: string): RemoteCall {
    Exec("ListPendingRoleRequests", [Text(admin)])
  }

  function ApproveCall(admin: string, requestId: Value, clearance: int): RemoteCall {
    Exec("ResolveRoleRequest", [Text(admin), requestId, Text("Approve"), Int(clearance)])
  }

  function DenyCall(admin: string, requestId: Value): RemoteCall {
    Exec("ResolveRoleRequest", [Text(admin), requestId, Text("Deny")])
  }

  /** `submit_role_request`: forwards its three arguments as they are, with no check of its own. */
  method SubmitRoleRequest(db: Database, username: string, requestedRole: string, reason: string,
                           reply: Outcome) returns (r: Outcome)
    modifies db`calls
    ensures db.calls == old(db.calls) + [SubmitCall(username, requestedRole, reason)]
    ensures r == reply
  {
    db.Execute(SubmitCall(username, requestedRole, reason));
    r := reply;
  }

  /** The loop of `list_requests`: one dictionary per fetched row, in fetch order, none dropped or added. */
  method RequestsFromRows(rows: seq<RequestRow>) returns (requests: seq<Request>)
    ensures |requests| == |rows|
    ensures forall i :: 0 <= i < |rows| ==> requests[i] == RequestOf(rows[i])
  {
    requests := [];
    for i := 0 to |rows|
      invariant |requests| == i
      invariant forall k :: 0 <= k < i ==> requests[k] == RequestOf(rows[k])
    {
      requests := requests + [RequestOf(rows[i])];
    }
  }

  /** `list_requests(admin_user)`, given the reply of `ListPendingRoleRequests`; a failure propagates. */
  method ListRequests(db: Database, admin: string, reply: Reply<seq<RequestRow>>)
    returns (result: Reply<seq<Request>>)
    modifies db`calls
    ensures db.calls == old(db.calls) + [ListCall(admin)]
    ensures reply.Raised? ==> result == Raised(reply.msg)
    ensures reply.Returned? ==>
              && result.Returned?
              && |result.value| == |reply.value|
              && forall i :: 0 <= i < |reply.value| ==> result.value[i] == RequestOf(reply.value[i])
  {
    db.Execute(ListCall(admin));
    match reply {
      case Raised(msg) =>
        result := Raised(msg);
      case Returned(rows) =>
        var requests := RequestsFromRows(rows);
        result := Returned(requests);
    }
  }

  /**
   * `approve_request`: a requested role outside the clearance map is rejected
   * before any connection is opened; otherwise one `ResolveRoleRequest` call
   * with the decision "Approve" and clearance 3.
   */
  method ApproveRequest(db: Database, admin: string, requestId: Value, requestedRole: Value,
                        reply: Outcome) returns (r: Outcome)
    modifies db`calls
    ensures ClearanceFor(requestedRole).None? ==> r == Failed(InvalidRole) && db.calls == old(db.calls)
    ensures ClearanceFor(requestedRole).Some? ==>
              r == reply && db.calls == old(db.calls) + [ApproveCall(admin, requestId, 3)]
  {
    var clearance := ClearanceFor(requestedRole);
    if clearance.None? {
      return Failed(InvalidRole);
    }
    db.Execute(ApproveCall(admin, requestId, clearance.value));
    r := reply;
  }

  /** `deny_request`: one three-argument `ResolveRoleRequest` call with the decision "Deny", whatever the request. */
  method DenyRequest(db: Database, admin: string, requestId: Value, reply: Outcome) returns (r: Outcome)
    modifies db`calls
    ensures db.calls == old(db.calls) + [DenyCall(admin, requestId)]
    ensures r == reply
  {
    db.Execute(DenyCall(admin, requestId));
    r := reply;
  }
}
