/** `services/grade_service.py`: entering a grade and viewing a student's grades. */
module GradeService {
  import opened Wrappers
  import opened Db
  import opened Display
  import opened Py
  import opened Report

  /** A row of `ViewGrades`; every column is kept as the text it is shown as. */
  datatype GradeRow = GradeRow(courseId: string, gradeValue: string, enteredBy: string, dateEntered: string)

  const GradeLabels: seq<string> := ["Course ID: ", "Grade: ", "Entered By: ", "Date: "]
  const NoGrades: string := "No grades found"

  function GradeFields(r: GradeRow): seq<string> {
    [r.courseId, r.gradeValue, r.enteredBy, r.dateEntered]
  }

  function GradeBlock(r: GradeRow): string {
    Block(GradeLabels, GradeFields(r))
  }

  /** The dialog answers `enter_or_update_grade` goes ahead with: an email, a non-zero course id, any grade (0 included). */
  predicate GradeEntryComplete(email: Option<string>, courseId: Option<int>, grade: Option<real>): (ok: bool)
    ensures !ok <==> email.None? || email.value == "" || courseId.None? || courseId.value == 0 || grade.None?
    ensures grade == Some(0.0) ==> (ok <==> TextGiven(email) && IntGiven(courseId))
  {
    TextGiven(email) && IntGiven(courseId) && grade.Some?
  }

  function EnterGradeCall(username: string, email: string, courseId: int, grade: real): RemoteCall {
    Exec("EnterOrUpdateGrade", [Text(username), Text(email), Int(courseId), Real(grade)])
  }

  function ViewGradesCall(username: string, email: string): RemoteCall {
    Exec("ViewGrades", [Text(username), Text(email)])
  }

  /** The message `view_grades` shows for a reply of `ViewGrades`. */
  function GradesMessage(reply: Reply<seq<GradeRow>>): (m: Message)
    ensures m.Error? <==> reply.Raised?
    ensures reply.Raised? ==> m == Error("Error", reply.msg)
    ensures m.Info? ==> m.title == "Grades"
  {
    match reply
    case Raised(msg) => Error("Error", msg)
    case Returned(rows) =>
      if rows == [] then Info("Grades", NoGrades) else Info("Grades", Rendered(rows, GradeBlock))
  }

  /**
   * `enter_or_update_grade(username)`, given the answers of its three dialogs
   * (`None` for a cancelled one) and the outcome of the call.
   */
  method EnterOrUpdateGrade(db: Database, screen: Screen, username: string,
                            email: Option<string>, courseId: Option<int>, grade: Option<real>,
                            reply: Outcome)
    modifies db`calls, screen`messages
    ensures !GradeEntryComplete(email, courseId, grade) ==>
              db.calls == old(db.calls) && screen.messages == old(screen.messages)
    ensures GradeEntryComplete(email, courseId, grade) ==>
              && db.calls == old(db.calls) + [EnterGradeCall(username, email.value, courseId.value, grade.value)]
              && screen.messages == old(screen.messages)
                   + [if reply.Done? then Info("Success", "Grade saved successfully") else Error("Error", reply.msg)]
  {
    if email.None? || email.value == "" || courseId.None? || courseId.value == 0 || grade.None? {
      return;
    }
    db.Execute(EnterGradeCall(username, email.value, courseId.value, grade.value));
    match reply {
      case Done => screen.Show(Info("Success", "Grade saved successfully"));
      case Failed(msg) => screen.Show(Error("Error", msg));
    }
  }

  /** `view_grades(username)`, given the answer of the email dialog and the reply of `ViewGrades`. */
  method ViewGrades(db: Database, screen: Screen, username: string, email: Option<string>,
                    reply: Reply<seq<GradeRow>>)
    modifies db`calls, screen`messages
    ensures !TextGiven(email) ==> db.calls == old(db.calls) && screen.messages == old(screen.messages)
    ensures TextGiven(email) ==>
              && db.calls == old(db.calls) + [ViewGradesCall(username, email.value)]
              && screen.messages == old(screen.messages) + [GradesMessage(reply)]
  {
    if email.None? || email.value == "" {
      return;
    }
    db.Execute(ViewGradesCall(username, email.value));
    match reply {
      case Raised(msg) =>
        screen.Show(Error("Error", msg));
      case Returned(rows) =>
        if rows == [] {
          screen.Show(Info("Grades", NoGrades));
          return;
        }
        var text := RenderRows(rows, GradeBlock);
        screen.Show(Info("Grades", text));
    }
  }

  /**
   * What a successful `ViewGrades` shows: an information message, which is the
   * "no grades" notice exactly when no row came back; otherwise one block per
   * row, in fetch order, from which the rows' fields read back unchanged when
   * none of them holds a newline.
   */
  lemma GradesReport(rows: seq<GradeRow>)
    ensures GradesMessage(Returned(rows)).Info?
    ensures GradesMessage(Returned(rows)).text == NoGrades <==> rows == []
    ensures (forall r :: r in rows ==> Readable(GradeLabels, GradeFields(r))) ==>
              rows != [] ==>
              Decode(GradeLabels, GradesMessage(Returned(rows)).text) == Some(Records(rows, GradeFields))
  {
    if rows != [] {
      RenderedEndsWithSeparator(rows, GradeBlock);
      if forall r :: r in rows ==> Readable(GradeLabels, GradeFields(r)) {
        DecodeRendered(GradeLabels, rows, GradeBlock, GradeFields);
      }
    }
  }
}
