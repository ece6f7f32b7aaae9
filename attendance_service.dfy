/** `services/attendance_service.py`: viewing and recording attendance. */
module AttendanceService {
  import opened Wrappers
  import opened Db
  import opened Display
  import opened Py
  import opened Report

  /** A row of `ViewAttendance`; `status` is the stored flag (`None` for NULL), the other columns their text. */
  datatype AttendanceRow = AttendanceRow(courseId: string, status: Option<int>, dateRecorded: string)

  const AttendanceLabels: seq<string> := ["Course ID: ", "Status: ", "Date: "]
  const NoAttendance: string := "No attendance records"

  /** The status word shown for a row: "Present" for a truthy flag, "Absent" for zero or NULL. */
  function StatusText(status: Option<int>): (t: string)
    ensures t == "Present" || t == "Absent"
    ensures t == "Present" <==> IntGiven(status)
  {
    if status.Some? && status.value != 0 then "Present" else "Absent"
  }

  function AttendanceFields(r: AttendanceRow): seq<string> {
    [r.courseId, StatusText(r.status), r.dateRecorded]
  }

  function AttendanceBlock(r: AttendanceRow): string {
    Block(AttendanceLabels, AttendanceFields(r))
  }

  /** The dialog answers `record_attendance` goes ahead with: an email, a non-zero course id, any status (0 included). */
  predicate AttendanceEntryComplete(email: Option<string>, courseId: Option<int>, status: Option<int>): (ok: bool)
    ensures !ok <==> email.None? || email.value == "" || courseId.None? || courseId.value == 0 || status.None?
    ensures ok ==> status == Some(0) || IntGiven(status)
  {
    TextGiven(email) && IntGiven(courseId) && status.Some?
  }

  function RecordAttendanceCall(username: string, email: string, courseId: int, status: int): RemoteCall {
    Exec("RecordAttendance", [Text(username), Text(email), Int(courseId), Int(status)])
  }

  function ViewAttendanceCall(username: string): RemoteCall {
    Exec("ViewAttendance", [Text(username)])
  }

  /** The message `view_attendance` shows for a reply of `ViewAttendance`. */
  function AttendanceMessage(reply: Reply<seq<AttendanceRow>>): (m: Message)
    ensures m.Error? <==> reply.Raised?
    ensures reply.Raised? ==> m == Error("Error", reply.msg)
    ensures m.Info? ==> m.title == "Attendance"
  {
    match reply
    case Raised(msg) => Error("Error", msg)
    case Returned(rows) =>
      if rows == [] then Info("Attendance", NoAttendance)
      else Info("Attendance", Rendered(rows, AttendanceBlock))
  }

  /** `view_attendance(username)`, given the reply of `ViewAttendance`. */
  method ViewAttendance(db: Database, screen: Screen, username: string, reply: Reply<seq<AttendanceRow>>)
    modifies db`calls, screen`messages
    ensures db.calls == old(db.calls) + [ViewAttendanceCall(username)]
    ensures screen.messages == old(screen.messages) + [AttendanceMessage(reply)]
  {
    db.Execute(ViewAttendanceCall(username));
    match reply {
      case Raised(msg) =>
        screen.Show(Error("Error", msg));
      case Returned(rows) =>
        if rows == [] {
          screen.Show(Info("Attendance", NoAttendance));
          return;
        }
        var text := RenderRows(rows, AttendanceBlock);
        screen.Show(Info("Attendance", text));
    }
  }

  /**
   * `record_attendance(username)`, given the answers of its three dialogs and
   * the outcome of the call. The status is forwarded as typed, with no 0/1 check.
   */
  method RecordAttendance(db: Database, screen: Screen, username: string,
                          email: Option<string>, courseId: Option<int>, status: Option<int>,
                          reply: Outcome)
    modifies db`calls, screen`messages
    ensures !AttendanceEntryComplete(email, courseId, status) ==>
              db.calls == old(db.calls) && screen.messages == old(screen.messages)
    ensures AttendanceEntryComplete(email, courseId, status) ==>
              && db.calls == old(db.calls) + [RecordAttendanceCall(username, email.value, courseId.value, status.value)]
              && screen.messages == old(screen.messages)
                   + [if reply.Done? then Info("Success", "Attendance recorded") else Error("Error", reply.msg)]
  {
    if email.None? || email.value == "" || courseId.None? || courseId.value == 0 || status.None? {
      return;
    }
    db.Execute(RecordAttendanceCall(username, email.value, courseId.value, status.value));
    match reply {
      case Done => screen.Show(Info("Success", "Attendance recorded"));
      case Failed(msg) => screen.Show(Error("Error", msg));
    }
  }

  /**
   * What a successful `ViewAttendance` shows: the "no attendance" notice exactly
   * when no row came back; otherwise one block per row, in fetch order, whose
   * fields read back as the row's course id, its status word and its date.
   */
  lemma AttendanceReport(rows: seq<AttendanceRow>)
    ensures AttendanceMessage(Returned(rows)).Info?
    ensures AttendanceMessage(Returned(rows)).text == NoAttendance <==> rows == []
    ensures (forall r :: r in rows ==> Readable(AttendanceLabels, AttendanceFields(r))) ==>
              rows != [] ==>
              Decode(AttendanceLabels, AttendanceMessage(Returned(rows)).text)
                == Some(Records(rows, AttendanceFields))
  {
    if rows != [] {
      RenderedEndsWithSeparator(rows, AttendanceBlock);
      if forall r :: r in rows ==> Readable(AttendanceLabels, AttendanceFields(r)) {
        DecodeRendered(AttendanceLabels, rows, AttendanceBlock, AttendanceFields);
      }
    }
  }
}
