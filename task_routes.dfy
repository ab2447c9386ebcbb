/**
 * `POST /api/tasks`: validate the request, create the task, then count it in
 * today's `DailyStats` row and recompute the productivity fields.
 */
module TaskRoutes {
  import opened Wrappers
  import opened Text
  import opened Db
  import Productivity

  /** The `dueDate` field: absent or falsy, a parsable date, or text that `new Date` rejects. */
  datatype DueInput = NoDueDate | DueAt(ms: int) | UnparsableDate

  /**
   * The JSON body. A field that is absent or `null` is `None`; `priority` is
   * `None` also when it is not a number.
   */
  datatype TaskRequest = TaskRequest(
    title: Option<string>,
    description: Option<string>,
    priority: Option<int>,
    categoryId: Option<string>,
    subjectId: Option<string>,
    dueDate: DueInput)

  datatype CreateError =
    | Unauthorized
    | MissingTitle
    | MissingCategory
    | UnknownCategory
    | UnknownSubject
    | InvalidDueDate
    | ConstraintViolation
    | CreateFailed

  /**
   * How `prisma.task.create` ends: it writes the row, or it throws with a
   * message that mentions a foreign key constraint, or it throws otherwise.
   */
  datatype CreateOutcome = Created | ForeignKeyError | OtherDbError

  /** The HTTP status each rejection is answered with. */
  function Status(e: CreateError): (code: int)
    ensures code == 401 <==> e == Unauthorized
    ensures code == 500 <==> e == CreateFailed
    ensures code == 400 <==> e != Unauthorized && e != CreateFailed
  {
    if e == Unauthorized then 401 else if e == CreateFailed then 500 else 400
  }

  /** A present value that is not blank after trimming (`x && x.trim() !== ''`). */
  predicate Filled(s: Option<string>) {
    s.Some? && Trim(s.value) != []
  }

  /** `priority && typeof priority === 'number' && 1 <= priority <= 4 ? priority : 1`. */
  function NormalisePriority(priority: Option<int>): (p: int)
    ensures 1 <= p <= 4
    ensures priority.Some? && 1 <= priority.value <= 4 ==> p == priority.value
    ensures !(priority.Some? && 1 <= priority.value <= 4) ==> p == 1
  {
    if priority.Some? && 1 <= priority.value <= 4 then priority.value else 1
  }

  /** The subject to validate: only a non-blank id other than `'none'`. */
  function RequestedSubject(subjectId: Option<string>): (r: Option<string>)
    ensures r.Some? <==> Filled(subjectId) && subjectId.value != "none"
    ensures r.Some? ==> r == subjectId
  {
    if Filled(subjectId) && subjectId.value != "none" then subjectId else None
  }

  /** `description?.trim() || null`. */
  function StoredDescription(description: Option<string>): (r: Option<string>)
    ensures r.None? <==> !Filled(description)
    ensures r.Some? ==> r.value == Trim(description.value) && r.value != []
  {
    if Filled(description) then Some(Trim(description.value)) else None
  }

  predicate OwnedCategory(categories: map<string, CategoryRow>, user: string, id: string) {
    id in categories && categories[id].userId == user
  }

  predicate OwnedSubject(subjects: map<string, SubjectRow>, user: string, id: string) {
    id in subjects && subjects[id].userId == user
  }

  /** The task row the request creates, or the first check it fails. */
  function NewTaskFor(categories: map<string, CategoryRow>, subjects: map<string, SubjectRow>,
                      session: Option<string>, req: TaskRequest): Result<TaskRow, CreateError>
  {
    if session.None? then Err(Unauthorized)
    else if !Filled(req.title) then Err(MissingTitle)
    else if !Filled(req.categoryId) then Err(MissingCategory)
    else if !OwnedCategory(categories, session.value, req.categoryId.value) then Err(UnknownCategory)
    else
      var subject := RequestedSubject(req.subjectId);
      if subject.Some? && !OwnedSubject(subjects, session.value, subject.value) then Err(UnknownSubject)
      else if req.dueDate.UnparsableDate? then Err(InvalidDueDate)
      else Ok(TaskRow(
        session.value,
        Trim(req.title.value),
        StoredDescription(req.description),
        NormalisePriority(req.priority),
        "todo",
        req.categoryId.value,
        subject,
        if req.dueDate.DueAt? then Some(req.dueDate.ms) else None,
        None,
        0))
  }

  /** The `dailyStats.upsert` that counts a created task. */
  function CountCreated(m: map<StatsKey, DailyStats>, user: string, today: int): (r: map<StatsKey, DailyStats>)
    ensures r.Keys == m.Keys + {(user, today)}
    ensures forall k :: k in m && k != (user, today) ==> r[k] == m[k]
  {
    var key := (user, today);
    m[key := if key in m then m[key].(tasksCreated := m[key].tasksCreated + 1)
             else ZeroStats.(tasksCreated := 1)]
  }

  /**
   * The stats table after the upsert and `updateProductivityScore`, where
   * `fault` says which call of the recomputation throws and is caught.
   */
  function StatsAfterCreate(m: map<StatsKey, DailyStats>, user: string, today: int,
                            fault: Productivity.StatsFault): map<StatsKey, DailyStats> {
    var counted := CountCreated(m, user, today);
    match fault
      case NoFault => Productivity.Recomputed(counted, user, today)
      case StreakQueryThrows => Productivity.RecomputedWith(counted, user, today, 0)
      case StatsCallThrows => counted
  }

  /**
   * The validation half of the handler: the session, title and category
   * checks, the category and subject ownership lookups and the due-date
   * parse, in the handler's order, and the row they build.
   */
  method ValidateTask(categories: map<string, CategoryRow>, subjects: map<string, SubjectRow>,
                      session: Option<string>, req: TaskRequest)
    returns (r: Result<TaskRow, CreateError>)
    ensures r == NewTaskFor(categories, subjects, session, req)
  {
    if session.None? {
      return Err(Unauthorized);
    }
    var user := session.value;
    var title := req.title;
    if title.None? || Trim(title.value) == [] {
      return Err(MissingTitle);
    }
    var categoryId := req.categoryId;
    if categoryId.None? || Trim(categoryId.value) == [] {
      return Err(MissingCategory);
    }
    if !(categoryId.value in categories && categories[categoryId.value].userId == user) {
      return Err(UnknownCategory);
    }
    var subjectToUse: Option<string> := None;
    var subjectId := req.subjectId;
    if subjectId.Some? && Trim(subjectId.value) != [] && subjectId.value != "none" {
      if !(subjectId.value in subjects && subjects[subjectId.value].userId == user) {
        return Err(UnknownSubject);
      }
      subjectToUse := subjectId;
    }
    var dueDateToUse: Option<int> := None;
    match req.dueDate {
      case NoDueDate =>
      case DueAt(ms) => dueDateToUse := Some(ms);
      case UnparsableDate => return Err(InvalidDueDate);
    }
    var priorityToUse := NormalisePriority(req.priority);
    return Ok(TaskRow(user, Trim(title.value), StoredDescription(req.description), priorityToUse,
                      "todo", categoryId.value, subjectToUse, dueDateToUse, None, 0));
  }

  /**
   * The request handler. `newId` is the id the database assigns; `today` is
   * today's day number. The remaining parameters say how the database calls
   * end: `create` is the outcome of `prisma.task.create`, whose throw the
   * outer `catch` answers with 400 or 500; `upsertThrows` says whether the
   * stats upsert throws, and `fault` where `updateProductivityScore` throws.
   * Both are caught and leave the created task in place.
   */
  method PostTask(db: Database, session: Option<string>, req: TaskRequest, newId: string, today: int,
                  create: CreateOutcome, upsertThrows: bool, fault: Productivity.StatsFault)
    returns (r: Result<string, CreateError>)
    requires newId !in db.tasks
    modifies db`tasks, db`dailyStats
    ensures match NewTaskFor(old(db.categories), old(db.subjects), session, req)
      case Err(e) => r == Err(e) && db.tasks == old(db.tasks) && db.dailyStats == old(db.dailyStats)
      case Ok(row) =>
        if create == ForeignKeyError then
          r == Err(ConstraintViolation) && db.tasks == old(db.tasks) && db.dailyStats == old(db.dailyStats)
        else if create == OtherDbError then
          r == Err(CreateFailed) && db.tasks == old(db.tasks) && db.dailyStats == old(db.dailyStats)
        else
          && r == Ok(newId)
          && db.tasks == old(db.tasks)[newId := row]
          && db.dailyStats == (if upsertThrows then old(db.dailyStats)
                               else StatsAfterCreate(old(db.dailyStats), row.userId, today, fault))
  {
    var checked := ValidateTask(db.categories, db.subjects, session, req);
    if checked.Err? {
      return Err(checked.error);
    }
    match create {
      case ForeignKeyError => return Err(ConstraintViolation);
      case OtherDbError => return Err(CreateFailed);
      case Created =>
    }
    var task := checked.value;
    db.tasks := db.tasks[newId := task];
    if !upsertThrows {
      CountAndRecompute(db, task.userId, today, fault);
    }
    return Ok(newId);
  }

  /** The stats half of the handler: the upsert, then `updateProductivityScore`. */
  method CountAndRecompute(db: Database, user: string, today: int, fault: Productivity.StatsFault)
    modifies db`dailyStats
    ensures db.dailyStats == StatsAfterCreate(old(db.dailyStats), user, today, fault)
  {
    var key := (user, today);
    if key in db.dailyStats {
      db.dailyStats := db.dailyStats[key := db.dailyStats[key].(tasksCreated := db.dailyStats[key].tasksCreated + 1)];
    } else {
      db.dailyStats := db.dailyStats[key := ZeroStats.(tasksCreated := 1)];
    }
    assert db.dailyStats == CountCreated(old(db.dailyStats), user, today);
    Productivity.UpdateProductivityScore(db, user, today, fault);
  }

  /**
   * The checks run in order: no session is 401 whatever the body, and a
   * missing or blank title is rejected before the category is looked at.
   */
  lemma ValidationOrder(categories: map<string, CategoryRow>, subjects: map<string, SubjectRow>,
                        session: Option<string>, req: TaskRequest)
    ensures session.None? ==> NewTaskFor(categories, subjects, session, req) == Err(Unauthorized)
    ensures session.Some? && !Filled(req.title) ==> NewTaskFor(categories, subjects, session, req) == Err(MissingTitle)
    ensures session.Some? && Filled(req.title) && !Filled(req.categoryId) ==>
      NewTaskFor(categories, subjects, session, req) == Err(MissingCategory)
  {
  }

  /** A creation succeeds exactly when every check passes. */
  lemma CreationAccepted(categories: map<string, CategoryRow>, subjects: map<string, SubjectRow>,
                         session: Option<string>, req: TaskRequest)
    ensures NewTaskFor(categories, subjects, session, req).Ok? <==>
      && session.Some?
      && Filled(req.title)
      && Filled(req.categoryId)
      && OwnedCategory(categories, session.value, req.categoryId.value)
      && (RequestedSubject(req.subjectId).Some? ==> OwnedSubject(subjects, session.value, req.subjectId.value))
      && !req.dueDate.UnparsableDate?
  {
  }

  /**
   * The new row is the user's, in the user's category, with a non-blank
   * trimmed title, status `'todo'`, a priority in [1, 4], no completion and
   * no time spent; its subject is the requested one when one was named, and
   * otherwise none; it has a due date exactly when one was given.
   */
  lemma CreatedTaskShape(categories: map<string, CategoryRow>, subjects: map<string, SubjectRow>,
                         session: Option<string>, req: TaskRequest)
    requires NewTaskFor(categories, subjects, session, req).Ok?
    ensures var row := NewTaskFor(categories, subjects, session, req).value;
      && row.userId == session.value
      && OwnedCategory(categories, row.userId, row.categoryId)
      && row.title == Trim(req.title.value) && row.title != []
      && !IsSpace(row.title[0]) && !IsSpace(row.title[|row.title| - 1])
      && row.status == "todo"
      && 1 <= row.priority <= 4
      && row.completedAt.None? && row.timeSpent == 0
      && (row.subjectId.Some? <==> RequestedSubject(req.subjectId).Some?)
      && (row.subjectId.Some? ==> row.subjectId == req.subjectId && OwnedSubject(subjects, row.userId, row.subjectId.value))
      && (row.dueDate.Some? <==> req.dueDate.DueAt?)
  {
  }

  /**
   * Wherever the recomputation fails, the stats update counts exactly one
   * created task for today, keeps the completion count, and touches no
   * other day or user.
   */
  lemma CreationIsCounted(m: map<StatsKey, DailyStats>, user: string, today: int, fault: Productivity.StatsFault)
    ensures var r := StatsAfterCreate(m, user, today, fault);
      var before := if (user, today) in m then m[(user, today)] else ZeroStats;
      && r.Keys == m.Keys + {(user, today)}
      && r[(user, today)].tasksCreated == before.tasksCreated + 1
      && r[(user, today)].tasksCompleted == before.tasksCompleted
      && (forall k :: k in m && k != (user, today) ==> r[k] == m[k])
  {
    match fault
      case NoFault => Productivity.RecomputedChangesOnlyDerived(CountCreated(m, user, today), user, today);
      case StreakQueryThrows => Productivity.RecomputedWithKeepsCounters(CountCreated(m, user, today), user, today, 0);
      case StatsCallThrows =>
  }
}
