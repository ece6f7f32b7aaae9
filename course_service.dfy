/** `services/course_service.py`: the public course list. */
module CourseService {
  import opened Wrappers
  import opened Db
  import opened Display
  import opened Report

  /** A row of `ViewPublicCourses`; every column is kept as the text it is shown as. */
  datatype CourseRow = CourseRow(courseId: string, courseName: string, publicInfo: string)

  const CourseLabels: seq<string> := ["Course ID: ", "Course Name: ", "Info: "]
  const NoCourses: string := "No public courses available"

  function CourseFields(r: CourseRow): seq<string> {
    [r.courseId, r.courseName, r.publicInfo]
  }

  function CourseBlock(r: CourseRow): string {
    Block(CourseLabels, CourseFields(r))
  }

  function ViewCoursesCall(username: string): RemoteCall {
    Exec("ViewPublicCourses", [Text(username)])
  }

  /** The message `view_public_courses` shows for a reply of `ViewPublicCourses`. */
  function CoursesMessage(reply: Reply<seq<CourseRow>>): (m: Message)
    ensures m.Error? <==> reply.Raised?
    ensures reply.Raised? ==> m == Error("Error", reply.msg)
    ensures m.Info? ==> (m.title == "Courses" <==> reply.value == []) && (m.title == "Courses" || m.title == "Public Courses")
  {
    match reply
    case Raised(msg) => Error("Error", msg)
    case Returned(rows) =>
      if rows == [] then Info("Courses", NoCourses) else Info("Public Courses", Rendered(rows, CourseBlock))
  }

  /** `view_public_courses(username)`, given the reply of `ViewPublicCourses`. */
  method ViewPublicCourses(db: Database, screen: Screen, username: string, reply: Reply<seq<CourseRow>>)
    modifies db`calls, screen`messages
    ensures db.calls == old(db.calls) + [ViewCoursesCall(username)]
    ensures screen.messages == old(screen.messages) + [CoursesMessage(reply)]
  {
    db.Execute(ViewCoursesCall(username));
    match reply {
      case Raised(msg) =>
        screen.Show(Error("Error", msg));
      case Returned(rows) =>
        if rows == [] {
          screen.Show(Info("Courses", NoCourses));
          return;
        }
        var text := RenderRows(rows, CourseBlock);
        screen.Show(Info("Public Courses", text));
    }
  }

  /**
   * What a successful `ViewPublicCourses` shows: the "no public courses" notice
   * exactly when no row came back; otherwise one block per row, in fetch order,
   * whose fields read back as course id, course name and public info.
   */
  lemma CoursesReport(rows: seq<CourseRow>)
    ensures CoursesMessage(Returned(rows)).Info?
    ensures CoursesMessage(Returned(rows)).text == NoCourses <==> rows == []
    ensures (forall r :: r in rows ==> Readable(CourseLabels, CourseFields(r))) ==>
              rows != [] ==>
              Decode(CourseLabels, CoursesMessage(Returned(rows)).text) == Some(Records(rows, CourseFields))
  {
    if rows != [] {
      RenderedEndsWithSeparator(rows, CourseBlock);
      if forall r :: r in rows ==> Readable(CourseLabels, CourseFields(r)) {
        DecodeRendered(CourseLabels, rows, CourseBlock, CourseFields);
      }
    }
  }
}
