/** The tasks handler: tasks of an engagement, listed by priority and age
    with a summary of their statuses; create, the `completedAt` rule of
    update, get and delete. */
module Tasks {
  import opened Values
  import opened Ordering
  import opened Tables

  /** The attributes `update_task` lets a caller set, in its order. */
  const TaskFields: seq<Attr> := [Title, Description, Status, Priority, Assignee, DueDate, CompletedAt]

  /** The optional attributes `create_task` copies from the request, with the
      value each takes when the request leaves it out. */
  const TaskDefaults: map<Attr, Value> :=
    map[Description := Str(""), Status := Str("pending"), Priority := Str("medium"),
        Assignee := Str(""), DueDate := Str("")]

  /** `priority_order.get(x.get('priority', 'medium'), 1)`. */
  function PriorityRank(task: Record): (rank: int)
    ensures 0 <= rank <= 2
    ensures rank == 0 <==> Get(task, Priority, Str("medium")) == Str("high")
    ensures rank == 2 <==> Get(task, Priority, Str("medium")) == Str("low")
  {
    match Get(task, Priority, Str("medium"))
    case Str("high") => 0
    case Str("low") => 2
    case _ => 1
  }

  /** The sort key `(rank, createdAt)`. */
  function TaskKey(task: Record): Key
  {
    [PriorityRank(task)] + TimeKey(task, CreatedAt)
  }

  /** Every higher-priority task comes before every lower-priority one, and
      within a priority the older task comes first. */
  lemma TaskKeyOrder(x: Record, y: Record)
    requires InOrder(TaskKey, false, x, y)
    ensures PriorityRank(x) <= PriorityRank(y)
    ensures PriorityRank(x) == PriorityRank(y) && CreatedAt in x && CreatedAt in y && x[CreatedAt].Time? && y[CreatedAt].Time? ==>
              x[CreatedAt].t <= y[CreatedAt].t
  {
    if PriorityRank(x) == PriorityRank(y) && CreatedAt in x && CreatedAt in y && x[CreatedAt].Time? && y[CreatedAt].Time? {
      assert TaskKey(x) == [PriorityRank(x), x[CreatedAt].t] && TaskKey(y) == [PriorityRank(y), y[CreatedAt].t];
      assert LexLe([x[CreatedAt].t], [y[CreatedAt].t]);
    }
  }

  /** The number of tasks with a given status. */
  function StatusCount(items: seq<Record>, status: string): (n: nat)
    ensures n <= |items|
  {
    if items == [] then 0
    else (if Get(items[0], Status, Null) == Str(status) then 1 else 0) + StatusCount(items[1..], status)
  }

  /** No task is counted under two statuses. */
  lemma {:induction false} StatusCountsDisjoint(items: seq<Record>, a: string, b: string)
    requires a != b
    ensures StatusCount(items, a) + StatusCount(items, b) <= |items|
  {
    if items != [] {
      StatusCountsDisjoint(items[1..], a, b);
    }
  }

  /** `round(completed / total * 100)`, or 0 with no tasks: a percentage.
      The integer quotient here rounds halves up. */
  function PercentComplete(completed: int, total: int): (p: int)
    requires 0 <= completed <= total
    ensures 0 <= p <= 100
    ensures total == 0 ==> p == 0
  {
    if total == 0 then 0
    else
      assert 200 * completed + total <= 201 * total;
      assert (200 * completed + total) / (2 * total) <= 100 by {
        DivBound(200 * completed + total, 2 * total, 100);
      }
      (200 * completed + total) / (2 * total)
  }

  lemma DivBound(a: int, b: int, q: int)
    requires 0 <= a && 0 < b && 0 <= q && a < b * (q + 1)
    ensures a / b <= q
  {
    var d := a / b;
    assert a == d * b + a % b;
    if d > q {
      MulMonotone(q + 1, d, b);
    }
  }

  lemma {:induction false} MulMonotone(x: int, y: int, b: nat)
    requires x <= y
    ensures x * b <= y * b
  {
    if b > 0 {
      MulMonotone(x, y, b - 1);
      assert x * b == x * (b - 1) + x && y * b == y * (b - 1) + y;
    }
  }

  /** The `summary` object: counts that add up, and a percentage. */
  function Summarize(items: seq<Record>): (s: TaskSummary)
    ensures s.total == |items|
    ensures s.completed == StatusCount(items, "completed") && s.inProgress == StatusCount(items, "in-progress")
    ensures s.completed + s.inProgress <= s.total
    ensures s.pending == s.total - s.completed - s.inProgress && s.pending >= 0
    ensures 0 <= s.percentComplete <= 100 && (s.total == 0 ==> s.percentComplete == 0)
  {
    StatusCountsDisjoint(items, "completed", "in-progress");
    var completed := StatusCount(items, "completed");
    var inProgress := StatusCount(items, "in-progress");
    TaskSummary(|items|, completed, inProgress, |items| - completed - inProgress, PercentComplete(completed, |items|))
  }

  /** The answer of both list handlers over the tasks a scan or query
      returns: 500 when a priority cannot be ranked, otherwise the tasks
      sorted and summarised. */
  function TaskListing(tasks: map<string, Record>, scan: seq<string>, p: Record -> bool): (r: Response)
    requires IsScan(tasks, scan)
    ensures r.status == 200 <==> forall x :: x in tasks.Values && p(x) ==> Hashable(Get(x, Priority, Str("medium")))
    ensures r.status != 200 ==> r == ServerError
    ensures r.status == 200 ==>
              && r.body.TasksBody?
              && Sorted(r.body.tasks, TaskKey, false)
              && (forall x :: x in r.body.tasks <==> x in tasks.Values && p(x))
              && |r.body.tasks| == |Matching(tasks, tasks.Keys, p)|
              && r.body.summary == Summarize(r.body.tasks)
  {
    var items := Listed(tasks, scan, p, TaskKey, false);
    if exists x :: x in items && !Hashable(Get(x, Priority, Str("medium"))) then ServerError
    else Response(200, TasksBody(items, Summarize(items)))
  }

  /** `list_tasks`, with or without an `engagementId` parameter. */
  function ListTasks(tasks: map<string, Record>, scan: seq<string>, engagementId: Option<string>): (r: Response)
    requires IsScan(tasks, scan)
    ensures r.status == 200 ==>
              && r.body.TasksBody?
              && forall x :: x in r.body.tasks <==>
                   x in tasks.Values && (engagementId.None? || (EngagementId in x && x[EngagementId] == Str(engagementId.value)))
  {
    TaskListing(tasks, scan, Equals(EngagementId, engagementId))
  }

  /** `get_tasks_by_engagement`. */
  function TasksByEngagement(tasks: map<string, Record>, scan: seq<string>, engagementId: string): (r: Response)
    requires IsScan(tasks, scan)
    ensures r.status == 200 ==>
              && r.body.TasksBody?
              && forall x :: x in r.body.tasks <==> x in tasks.Values && EngagementId in x && x[EngagementId] == Str(engagementId)
  {
    TaskListing(tasks, scan, Equals(EngagementId, Some(engagementId)))
  }

  /** Both list handlers give one engagement the same tasks, in the same
      order, with the same summary. */
  lemma ListingsAgree(tasks: map<string, Record>, scan: seq<string>, engagementId: string)
    requires IsScan(tasks, scan)
    ensures ListTasks(tasks, scan, Some(engagementId)) == TasksByEngagement(tasks, scan, engagementId)
  {
  }

  /** The item `create_task` writes for an existing engagement; None when
      `data['title']` raises. */
  function NewTask(data: Record, engagement: Record, id: string, now: int): (t: Option<Record>)
    requires EngagementId in data
    ensures t.None? <==> Title !in data
    ensures t.Some? ==> KeyedBy(Id, id, t.value)
  {
    if Title !in data then None
    else Some(Filled(data, TaskDefaults)[
           Id := Str(id)][
           EngagementId := data[EngagementId]][
           EngagementName := Get(engagement, Name, Str(""))][
           Title := data[Title]][
           CompletedAt := Str("")][
           CreatedAt := Time(now)][
           UpdatedAt := Time(now)])
  }

  /** A new task is pending, of medium priority and not completed unless the
      request says otherwise (it cannot say so for `completedAt`), belongs to
      the engagement it names, and is stamped with `now`. */
  lemma NewTaskDefaults(data: Record, engagement: Record, id: string, now: int)
    requires EngagementId in data && Title in data
    ensures var t := NewTask(data, engagement, id, now).value;
      && t[Status] == Get(data, Status, Str("pending"))
      && t[Priority] == Get(data, Priority, Str("medium"))
      && t[CompletedAt] == Str("")
      && t[EngagementId] == data[EngagementId] && t[Title] == data[Title]
      && t[EngagementName] == Get(engagement, Name, Str(""))
      && t[CreatedAt] == t[UpdatedAt] == Time(now)
  {
    assert Status in TaskDefaults && Priority in TaskDefaults;
  }

  /** `create_task`: the engagement is looked up first, then the title read. */
  function CreateTaskOutcome(data: Record, engagements: map<string, Record>, id: string, now: int): (c: Creation)
    ensures c.stored.Some? <==> c.response.status == 201
    ensures EngagementId in data && KeyOf(data[EngagementId]).Some? && KeyOf(data[EngagementId]).value !in engagements ==>
              c == Creation(Response(404, ErrorBody("Engagement not found")), None)
    ensures EngagementId !in data || KeyOf(data[EngagementId]).None? ==> c == Creation(ServerError, None)
    // for a known engagement, the task is stored exactly when the request has a title; `data['title']` raises otherwise
    ensures EngagementId in data && KeyOf(data[EngagementId]).Some? && KeyOf(data[EngagementId]).value in engagements ==>
              && (Title in data ==> c.stored.Some?)
              && (Title !in data ==> c == Creation(ServerError, None))
    ensures c.stored.Some? ==>
              && EngagementId in data && KeyOf(data[EngagementId]).Some? && KeyOf(data[EngagementId]).value in engagements
              && NewTask(data, engagements[KeyOf(data[EngagementId]).value], id, now) == c.stored
              && c.response.body == ItemBody(c.stored.value)
  {
    if EngagementId !in data || KeyOf(data[EngagementId]).None? then Creation(ServerError, None)
    else if KeyOf(data[EngagementId]).value !in engagements then Creation(Response(404, ErrorBody("Engagement not found")), None)
    else match NewTask(data, engagements[KeyOf(data[EngagementId]).value], id, now)
      case None => Creation(ServerError, None)
      case Some(t) => Creation(Response(201, ItemBody(t)), Some(t))
  }

  method CreateTask(db: Store, data: Record, id: string, now: int) returns (r: Response)
    requires db.Valid()
    modifies db`tasks
    ensures db.Valid()
    ensures var c := CreateTaskOutcome(data, old(db.engagements), id, now);
      && r == c.response
      && db.tasks == (if c.stored.Some? then old(db.tasks)[id := c.stored.value] else old(db.tasks))
  {
    var c := CreateTaskOutcome(data, db.engagements, id, now);
    if c.stored.Some? {
      db.PutTask(id, c.stored.value);
    }
    r := c.response;
  }

  /** The request after the `completedAt` rule: completing a task that was
      not completed stamps `now`; any request whose status is not
      `completed`, one without a status included, clears the stamp. */
  function WithCompletion(existing: Record, data: Record, now: int): Record
  {
    if Get(data, Status, Null) == Str("completed") && Get(existing, Status, Null) != Str("completed") then
      data[CompletedAt := Time(now)]
    else if Get(data, Status, Null) != Str("completed") then data[CompletedAt := Str("")]
    else data
  }

  /** The item after `update_task`. */
  function UpdatedTask(existing: Record, data: Record, now: int): (t: Record)
    ensures UpdatedAt in t && t[UpdatedAt] == Time(now)
    ensures Get(data, Status, Null) == Str("completed") && Get(existing, Status, Null) != Str("completed") ==>
              CompletedAt in t && t[CompletedAt] == Time(now)
    ensures Get(data, Status, Null) != Str("completed") ==> CompletedAt in t && t[CompletedAt] == Str("")
  {
    assert CompletedAt in TaskFields;
    Applied(existing, WithCompletion(existing, data, now), TaskFields, now)
  }

  /** No attribute is removed; the allowed ones the request carries are
      added, with `updatedAt`, and `completedAt` whenever the completion rule
      writes it (every request but a completed task's re-completion). */
  lemma UpdateKeys(existing: Record, data: Record, now: int)
    ensures forall f :: f in UpdatedTask(existing, data, now) <==>
              || f in existing || (f in data && f in TaskFields) || f == UpdatedAt
              || (f == CompletedAt && !(Get(data, Status, Null) == Str("completed") && Get(existing, Status, Null) == Str("completed")))
  {
    assert CompletedAt in TaskFields;
    if Get(data, Status, Null) == Str("completed") && Get(existing, Status, Null) != Str("completed") {
    } else if Get(data, Status, Null) != Str("completed") {
    } else {
    }
  }

  /** The allowed attributes the request carries are stored as sent
      (`completedAt` under its rule). */
  lemma UpdateStoresRequest(existing: Record, data: Record, now: int)
    ensures var t := UpdatedTask(existing, data, now);
      forall f :: f in data && f in TaskFields && f != CompletedAt ==> f in t && t[f] == data[f]
  {
    assert UpdatedAt !in TaskFields;
    var request := WithCompletion(existing, data, now);
    assert forall f :: f in data && f != CompletedAt ==> f in request && request[f] == data[f];
  }

  /** `id`, `createdAt`, the engagement, unknown keys and the attributes the
      request leaves out keep their stored value. */
  lemma UpdateKeepsOthers(existing: Record, data: Record, now: int)
    ensures var t := UpdatedTask(existing, data, now);
      && (forall f :: f in existing && f !in TaskFields && f != UpdatedAt ==> f in t && t[f] == existing[f])
      && (forall f :: f in existing && f !in data && f != UpdatedAt && f != CompletedAt ==> f in t && t[f] == existing[f])
  {
    assert UpdatedAt !in TaskFields;
    if Get(data, Status, Null) == Str("completed") && Get(existing, Status, Null) != Str("completed") {
    } else if Get(data, Status, Null) != Str("completed") {
    } else {
    }
  }

  /** Completing an already completed task keeps its stamp unless the request
      sends one. */
  lemma RecompletingKeepsStamp(existing: Record, data: Record, now: int)
    requires Get(data, Status, Null) == Str("completed") && Get(existing, Status, Null) == Str("completed")
    requires CompletedAt !in data && CompletedAt in existing
    ensures UpdatedTask(existing, data, now)[CompletedAt] == existing[CompletedAt]
  {
    assert UpdatedAt != CompletedAt;
  }

  /** Editing only the title of a completed task clears its `completedAt`
      while its status stays `completed`. */
  lemma EditingCompletedTaskClearsStamp(existing: Record, title: Value, now: int)
    requires Status in existing && existing[Status] == Str("completed")
    ensures var t := UpdatedTask(existing, map[Title := title], now);
      && Status in t && t[Status] == Str("completed")
      && CompletedAt in t && t[CompletedAt] == Str("")
      && Title in t && t[Title] == title
  {
    assert Title in TaskFields;
    UpdateStoresRequest(existing, map[Title := title], now);
    UpdateKeepsOthers(existing, map[Title := title], now);
  }

  /** The assignments `update_task` makes to `data['completedAt']`. */
  method StampCompletion(existing: Record, data: Record, now: int) returns (request: Record)
    ensures request == WithCompletion(existing, data, now)
  {
    request := data;
    if Get(data, Status, Null) == Str("completed") && Get(existing, Status, Null) != Str("completed") {
      request := request[CompletedAt := Time(now)];
    } else if Get(data, Status, Null) != Str("completed") {
      request := request[CompletedAt := Str("")];
    }
  }

  method UpdateTask(db: Store, id: string, data: Record, now: int) returns (r: Response)
    requires db.Valid()
    modifies db`tasks
    ensures db.Valid()
    ensures id !in old(db.tasks) ==> r == Response(404, ErrorBody("Task not found")) && db.tasks == old(db.tasks)
    ensures id in old(db.tasks) ==>
              && db.tasks == old(db.tasks)[id := UpdatedTask(old(db.tasks)[id], data, now)]
              && r == Response(200, ItemBody(db.tasks[id]))
  {
    if id !in db.tasks {
      return Response(404, ErrorBody("Task not found"));
    }
    var existing := db.tasks[id];
    var request := StampCompletion(existing, data, now);
    var item := ApplyUpdates(existing, request, TaskFields, now);
    UpdatedTaskKeyed(id, existing, data, now);
    db.PutTask(id, item);
    r := Response(200, ItemBody(item));
  }

  lemma UpdatedTaskKeyed(id: string, existing: Record, data: Record, now: int)
    requires KeyedBy(Id, id, existing)
    ensures KeyedBy(Id, id, UpdatedTask(existing, data, now))
  {
    assert Id !in TaskFields;
  }

  function GetTask(tasks: map<string, Record>, id: string): (r: Response)
    ensures r.status == 200 <==> id in tasks
    ensures id in tasks ==> r.body == ItemBody(tasks[id])
    ensures id !in tasks ==> r == Response(404, ErrorBody("Task not found"))
  {
    if id in tasks then Response(200, ItemBody(tasks[id]))
    else Response(404, ErrorBody("Task not found"))
  }

  /** `delete_item` succeeds whether or not the id exists. */
  method DeleteTask(db: Store, id: string) returns (r: Response)
    requires db.Valid()
    modifies db`tasks
    ensures db.Valid()
    ensures db.tasks == old(db.tasks) - {id} && id !in db.tasks
    ensures r == Response(200, MessageBody("Task deleted"))
  {
    db.tasks := db.tasks - {id};
    r := Response(200, MessageBody("Task deleted"));
  }
}
