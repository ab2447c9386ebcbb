/**
 * `PUT /api/timer-sessions/partial`: credit the minutes of an interrupted
 * session to the task and, through the task's subject, to the subject and
 * to today's study session.
 */
module TimerPartial {
  import opened Wrappers
  import opened Db

  /** The JSON body: `minutesElapsed` is `None` when it is `undefined`. */
  datatype PartialRequest = PartialRequest(taskId: Option<string>, minutesElapsed: Option<int>)

  /** The `{ success: true }` reply. */
  datatype Ack = Success

  /** The subject the task's relation resolves to, if any. */
  function TaskSubject(tasks: map<string, TaskRow>, subjects: map<string, SubjectRow>, id: string): (r: Option<string>)
    requires id in tasks
    ensures r.Some? <==> tasks[id].subjectId.Some? && tasks[id].subjectId.value in subjects
    ensures r.Some? ==> r == tasks[id].subjectId
  {
    var s := tasks[id].subjectId;
    if s.Some? && s.value in subjects then s else None
  }

  /**
   * The handler. An unknown task makes the first update throw, so nothing
   * is written and the reply is 500. The study session is keyed by the
   * requesting user.
   */
  method PutPartialTime(db: Database, email: Option<string>, req: PartialRequest, today: int)
    returns (r: Result<Ack, int>)
    modifies db`tasks, db`subjects, db`studySessions
    ensures email.None? ==> r == Err(401) && unchanged(db)
    ensures email.Some? && email.value !in old(db.users) ==> r == Err(404) && unchanged(db)
    ensures email.Some? && email.value in old(db.users) && (req.taskId.None? || req.taskId.value == "" || req.minutesElapsed.None?) ==>
      r == Err(400) && unchanged(db)
    ensures email.Some? && email.value in old(db.users) && req.taskId.Some? && req.taskId.value != "" &&
            req.minutesElapsed.Some? && req.minutesElapsed.value <= 0 ==>
      r == Ok(Success) && unchanged(db)
    ensures email.Some? && email.value in old(db.users) && req.taskId.Some? && req.taskId.value != "" &&
            req.minutesElapsed.Some? && req.minutesElapsed.value > 0 ==>
      var user := old(db.users)[email.value];
      var id := req.taskId.value;
      var m := req.minutesElapsed.value;
      if id !in old(db.tasks) then r == Err(500) && unchanged(db)
      else
        && r == Ok(Success)
        && db.tasks == AddTaskTime(old(db.tasks), id, m)
        && match TaskSubject(old(db.tasks), old(db.subjects), id)
           case None => db.subjects == old(db.subjects) && db.studySessions == old(db.studySessions)
           case Some(sid) =>
             && db.subjects == AddSubjectTime(old(db.subjects), sid, m)
             && db.studySessions == AddStudyTime(old(db.studySessions), (user, sid, today), m)
  {
    if email.None? {
      return Err(401);
    }
    if email.value !in db.users {
      return Err(404);
    }
    var user := db.users[email.value];
    if req.taskId.None? || req.taskId.value == "" || req.minutesElapsed.None? {
      return Err(400);
    }
    var taskId := req.taskId.value;
    var minutesElapsed := req.minutesElapsed.value;
    if minutesElapsed > 0 {
      if taskId !in db.tasks {
        return Err(500);
      }
      db.tasks := db.tasks[taskId := db.tasks[taskId].(timeSpent := db.tasks[taskId].timeSpent + minutesElapsed)];
      var task := db.tasks[taskId];
      if task.subjectId.Some? && task.subjectId.value in db.subjects {
        var subjectId := task.subjectId.value;
        db.subjects := db.subjects[subjectId := db.subjects[subjectId].(totalTime := db.subjects[subjectId].totalTime + minutesElapsed)];
        db.studySessions := AddStudyTime(db.studySessions, (user, subjectId, today), minutesElapsed);
      }
    }
    return Ok(Success);
  }
}
