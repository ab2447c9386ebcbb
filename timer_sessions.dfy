/**
 * `POST /api/timer-sessions`: record a finished timer session and, for a
 * work session, add its minutes to the task, the subject and today's study
 * session. The writes happen one after another; a failing write leaves the
 * earlier ones in place and answers 500.
 */
module TimerSessions {
  import opened Wrappers
  import opened Db

  /** The JSON body; an absent or `null` field is `None`. */
  datatype SessionRequest = SessionRequest(
    taskId: Option<string>,
    duration: Option<int>,
    sessionType: Option<string>,
    subjectId: Option<string>)

  /** A present, non-empty string: JavaScript truthiness of a string field. */
  predicate Truthy(s: Option<string>) {
    s.Some? && s.value != ""
  }

  /** A present, non-zero number. */
  predicate TruthyNumber(n: Option<int>) {
    n.Some? && n.value != 0
  }

  /** `sessionType || 'work'`. */
  function StoredType(sessionType: Option<string>): (t: string)
    ensures t == "work" || (Truthy(sessionType) && t == sessionType.value)
  {
    if Truthy(sessionType) then sessionType.value else "work"
  }

  /** `sessionType === 'work'`: only the literal, not the default. */
  predicate IsWork(sessionType: Option<string>) {
    sessionType == Some("work")
  }

  /** The created row: started `duration` minutes before `now`, ended at `now`. */
  function SessionRow(userId: string, req: SessionRequest, now: int): (s: TimerSession)
    requires Truthy(req.taskId) && TruthyNumber(req.duration)
    ensures s.endTime - s.startTime == s.duration * 60 * 1000
    ensures s.endTime == now && !s.isActive
    ensures s.taskId == req.taskId.value && s.userId == userId && s.duration == req.duration.value
    ensures s.sessionType == StoredType(req.sessionType)
  {
    var d := req.duration.value;
    TimerSession(req.taskId.value, userId, now - d * 60 * 1000, now, d, StoredType(req.sessionType), false)
  }

  predicate AddsStudyTime(req: SessionRequest) {
    Truthy(req.subjectId) && IsWork(req.sessionType)
  }

  /**
   * The handler. `email` is the session's e-mail, `now` the clock in
   * milliseconds, `today` today's day number. A session for an unknown task
   * breaks the foreign key and fails before anything is written; an unknown
   * subject fails after the session and the task time are written.
   */
  method PostTimerSession(db: Database, email: Option<string>, req: SessionRequest, now: int, today: int)
    returns (r: Result<TimerSession, int>)
    modifies db`timerSessions, db`tasks, db`subjects, db`studySessions
    ensures email.None? ==> r == Err(401) && unchanged(db)
    ensures email.Some? && email.value !in old(db.users) ==> r == Err(404) && unchanged(db)
    ensures email.Some? && email.value in old(db.users) && !(Truthy(req.taskId) && TruthyNumber(req.duration)) ==>
      r == Err(400) && unchanged(db)
    ensures email.Some? && email.value in old(db.users) && Truthy(req.taskId) && TruthyNumber(req.duration) ==>
      var user := old(db.users)[email.value];
      var id := req.taskId.value;
      var d := req.duration.value;
      var s := SessionRow(user, req, now);
      if id !in old(db.tasks) then r == Err(500) && unchanged(db)
      else
        && db.timerSessions == old(db.timerSessions) + [s]
        && db.tasks == (if IsWork(req.sessionType) then AddTaskTime(old(db.tasks), id, d) else old(db.tasks))
        && (if !AddsStudyTime(req) then
              r == Ok(s) && db.subjects == old(db.subjects) && db.studySessions == old(db.studySessions)
            else if req.subjectId.value in old(db.subjects) then
              && r == Ok(s)
              && db.subjects == AddSubjectTime(old(db.subjects), req.subjectId.value, d)
              && db.studySessions == AddStudyTime(old(db.studySessions), (user, req.subjectId.value, today), d)
            else
              r == Err(500) && db.subjects == old(db.subjects) && db.studySessions == old(db.studySessions))
  {
    if email.None? {
      return Err(401);
    }
    if email.value !in db.users {
      return Err(404);
    }
    var user := db.users[email.value];
    if !Truthy(req.taskId) || !TruthyNumber(req.duration) {
      return Err(400);
    }
    var taskId := req.taskId.value;
    var duration := req.duration.value;
    if taskId !in db.tasks {
      return Err(500);
    }
    var timerSession := TimerSession(taskId, user, now - duration * 60 * 1000, now, duration,
                                     StoredType(req.sessionType), false);
    db.timerSessions := db.timerSessions + [timerSession];
    if IsWork(req.sessionType) {
      db.tasks := db.tasks[taskId := db.tasks[taskId].(timeSpent := db.tasks[taskId].timeSpent + duration)];
    }
    if Truthy(req.subjectId) && IsWork(req.sessionType) {
      var subjectId := req.subjectId.value;
      if subjectId !in db.subjects {
        return Err(500);
      }
      db.subjects := db.subjects[subjectId := db.subjects[subjectId].(totalTime := db.subjects[subjectId].totalTime + duration)];
      db.studySessions := AddStudyTime(db.studySessions, (user, subjectId, today), duration);
    }
    return Ok(timerSession);
  }

  /**
   * Time is credited only for the literal type `'work'`: an omitted type is
   * stored as `'work'` yet credits nothing, and any other stored type is the
   * one requested.
   */
  lemma DefaultTypeCreditsNothing(req: SessionRequest)
    ensures req.sessionType.None? ==> StoredType(req.sessionType) == "work" && !IsWork(req.sessionType) && !AddsStudyTime(req)
    ensures IsWork(req.sessionType) ==> StoredType(req.sessionType) == "work"
    ensures StoredType(req.sessionType) != "work" ==> !IsWork(req.sessionType) && StoredType(req.sessionType) == req.sessionType.value
  {
  }
}
