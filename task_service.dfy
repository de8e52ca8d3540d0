/**
 * The task controller as its behavioural tests pin it: `addTask`, `getTasks`,
 * `updateTask` and `deleteTask` over a store of task documents, each answering
 * through an Express-like response object. Every call into the store that can
 * fail takes its failure as an explicit parameter: `Some(message)` makes that
 * call reject with an error carrying `message`.
 */
module TaskService {
  import opened Wrappers
  import opened TaskSchema

  /** What a handler sends as JSON. */
  datatype Payload = OneTask(id: Id, doc: Doc) | TaskList(tasks: map<Id, Doc>) | Message(message: string)

  const TaskNotFound: string := "Task not found"
  const TaskDeleted: string := "Task deleted"

  /** The response recorder the tests hand to the handlers: a status code that starts at 200 and the JSON payload. */
  class MockRes {
    var statusCode: int
    var payload: Option<Payload>

    constructor ()
      ensures statusCode == 200 && payload == None
    {
      statusCode := 200;
      payload := None;
    }

    method Status(code: int)
      modifies this
      ensures statusCode == code && payload == old(payload)
    {
      statusCode := code;
    }

    method Json(data: Payload)
      modifies this
      ensures payload == Some(data) && statusCode == old(statusCode)
    {
      payload := Some(data);
    }
  }

  /** The store query for one owner: the documents whose `userId` refers to `caller`. */
  function OwnedBy(tasks: map<Id, Doc>, caller: Id): (r: map<Id, Doc>)
    ensures forall id :: id in r ==> id in tasks && r[id] == tasks[id]
  {
    map id | id in tasks && "userId" in tasks[id] && tasks[id]["userId"] == Ref(caller) :: tasks[id]
  }

  /** In a store of conforming documents, a caller's list holds exactly the tasks whose owner is that caller. */
  lemma OwnedByExactly(tasks: map<Id, Doc>, caller: Id)
    requires forall id :: id in tasks ==> Decode(tasks[id]).Some?
    ensures forall id :: id in OwnedBy(tasks, caller) <==> id in tasks && Decode(tasks[id]).value.userId == caller
  {
  }

  /** No task is listed for two different callers. */
  lemma OwnedByDisjoint(tasks: map<Id, Doc>, a: Id, b: Id)
    requires a != b
    ensures OwnedBy(tasks, a).Keys !! OwnedBy(tasks, b).Keys
  {
  }

  /** The update rule: every key of `body` overwrites the document's field, every other field stays. */
  function Merge(doc: Doc, body: Doc): (r: Doc)
    ensures r.Keys == doc.Keys + body.Keys
    ensures forall k :: k in body ==> r[k] == body[k]
    ensures forall k :: k in doc && k !in body ==> r[k] == doc[k]
  {
    doc + body
  }


  /** An update whose fields all have the kinds the schema gives them is accepted by the save of a stored task. */
  lemma UpdateAccepted(doc: Doc, body: Doc, now: int)
    requires Decode(doc).Some?
    requires "userId" in body ==> body["userId"].Ref?
    requires "title" in body ==> body["title"].Str? && body["title"].text != ""
    requires "description" in body ==> body["description"].Str?
    requires "deadline" in body ==> body["deadline"].Time? || body["deadline"].Null?
    requires "status" in body ==> body["status"].Str? && ParseStatus(body["status"].text).Some?
    requires "createdAt" in body ==> body["createdAt"].Time?
    requires "updatedAt" in body ==> body["updatedAt"].Time?
    ensures SaveDocument(Merge(doc, body), now).Ok?
  {
    DecodeIffConforms(doc);
    assert OwnerViolations(doc) == [] && TitleViolations(doc) == [];
    assert OptionalViolations(doc) == [] && StatusViolations(doc) == [] && TimestampViolations(doc) == [];
    var m := Merge(doc, body);
    assert OwnerViolations(m) == [] && TitleViolations(m) == [];
    assert OptionalViolations(m) == [] && StatusViolations(m) == [] && TimestampViolations(m) == [];
  }

  /**
   * What a successful update stores: every key of the body written, every other
   * field of the task kept, `updatedAt` refreshed, and the owner kept unless the
   * body names one.
   */
  lemma UpdatedRecord(doc: Doc, body: Doc, now: int)
    requires Decode(doc).Some?
    requires SaveDocument(Merge(doc, body), now).Ok?
    ensures var saved := SaveDocument(Merge(doc, body), now).value;
      && (forall k :: k in body && k != "updatedAt" ==> k in saved && saved[k] == body[k])
      && (forall k :: k in doc && k !in body && k != "updatedAt" ==> k in saved && saved[k] == doc[k])
      && Decode(saved).Some? && Decode(saved).value.updatedAt == now
      && ("userId" !in body ==> Decode(saved).value.userId == Decode(doc).value.userId)
  {
    DecodeIffConforms(doc);
    var saved := SaveDocument(Merge(doc, body), now).value;
    assert saved["userId"] == doc["userId"] || "userId" in body;
  }

  /** The tasks, their store and the four handlers. */
  class TaskService {
    /** The store: every task document by its id. */
    var tasks: map<Id, Doc>
    /** The id the next created task receives; ids are never reused. */
    var nextId: Id
    /** How many times a found task's `remove` has been called. */
    var removeCalls: nat

    /** Every stored document conforms to the schema and has an id already handed out. */
    ghost predicate Valid()
      reads this
    {
      forall id :: id in tasks ==> id < nextId && Decode(tasks[id]).Some?
    }

    constructor ()
      ensures Valid() && tasks == map[] && nextId == 0 && removeCalls == 0
    {
      tasks := map[];
      nextId := 0;
      removeCalls := 0;
    }

    /**
     * addTask: create a task from the request body, owned by the caller, then
     * answer 201 with the created record. A rejected create (a schema violation
     * or a store failure) answers 500 with the error's message and stores nothing.
     */
    method AddTask(caller: Id, body: Doc, createFault: Option<string>, now: int, res: MockRes)
      requires Valid()
      modifies this, res
      ensures Valid() && removeCalls == old(removeCalls)
      ensures var created := NewDocument(body["userId" := Ref(caller)], now);
        if created.Err? then
          tasks == old(tasks) && nextId == old(nextId) && res.statusCode == 500
          && res.payload == Some(Message(ValidationMessage(created.error)))
        else if createFault.Some? then
          tasks == old(tasks) && nextId == old(nextId)
          && res.statusCode == 500 && res.payload == Some(Message(createFault.value))
        else
          old(nextId) !in old(tasks) && tasks == old(tasks)[old(nextId) := created.value]
          && nextId == old(nextId) + 1
          && Decode(created.value).value.userId == caller
          && res.statusCode == 201 && res.payload == Some(OneTask(old(nextId), created.value))
    {
      var created := NewDocument(body["userId" := Ref(caller)], now);
      if created.Err? {
        res.Status(500);
        res.Json(Message(ValidationMessage(created.error)));
      } else if createFault.Some? {
        res.Status(500);
        res.Json(Message(createFault.value));
      } else {
        var id := nextId;
        tasks := tasks[id := created.value];
        nextId := nextId + 1;
        res.Status(201);
        res.Json(OneTask(id, created.value));
      }
    }

    /** getTasks: answer 200 with the caller's tasks, or 500 with the store's message. */
    method GetTasks(caller: Id, findFault: Option<string>, res: MockRes)
      requires Valid()
      modifies res
      ensures findFault.Some? ==> res.statusCode == 500 && res.payload == Some(Message(findFault.value))
      ensures findFault.None? ==> res.statusCode == 200 && res.payload.Some? && res.payload.value.TaskList?
      ensures findFault.None? ==> forall id :: id in res.payload.value.tasks <==>
        id in tasks && Decode(tasks[id]).value.userId == caller
      ensures findFault.None? ==> forall id :: id in res.payload.value.tasks ==> res.payload.value.tasks[id] == tasks[id]
    {
      if findFault.Some? {
        res.Status(500);
        res.Json(Message(findFault.value));
      } else {
        OwnedByExactly(tasks, caller);
        res.Status(200);
        res.Json(TaskList(OwnedBy(tasks, caller)));
      }
    }

    /**
     * updateTask: find the task by id, write every key of the body onto it,
     * save it and answer 200 with the whole saved record. A missing id answers
     * 404 "Task not found"; a failed lookup or save answers 500 with the error's
     * message. Only a successful save changes the store, and only that task.
     */
    method UpdateTask(id: Id, body: Doc, findFault: Option<string>, saveFault: Option<string>, now: int, res: MockRes)
      requires Valid()
      modifies this, res
      ensures Valid() && nextId == old(nextId) && removeCalls == old(removeCalls)
      ensures findFault.Some? ==>
        tasks == old(tasks) && res.statusCode == 500 && res.payload == Some(Message(findFault.value))
      ensures findFault.None? && id !in old(tasks) ==>
        tasks == old(tasks) && res.statusCode == 404 && res.payload == Some(Message(TaskNotFound))
      ensures findFault.None? && id in old(tasks) ==>
        var saved := SaveDocument(Merge(old(tasks)[id], body), now);
        if saved.Err? then
          tasks == old(tasks) && res.statusCode == 500 && res.payload == Some(Message(ValidationMessage(saved.error)))
        else if saveFault.Some? then
          tasks == old(tasks) && res.statusCode == 500 && res.payload == Some(Message(saveFault.value))
        else
          tasks == old(tasks)[id := saved.value] && res.statusCode == 200 && res.payload == Some(OneTask(id, saved.value))
      ensures forall other :: other != id ==> (other in tasks <==> other in old(tasks))
      ensures forall other :: other != id && other in tasks ==> tasks[other] == old(tasks)[other]
    {
      if findFault.Some? {
        res.Status(500);
        res.Json(Message(findFault.value));
      } else if id !in tasks {
        res.Status(404);
        res.Json(Message(TaskNotFound));
      } else {
        var existing := tasks[id];
        DecodedKeys(existing);
        var saved := SaveDocument(Merge(existing, body), now);
        if saved.Err? {
          res.Status(500);
          res.Json(Message(ValidationMessage(saved.error)));
        } else if saveFault.Some? {
          res.Status(500);
          res.Json(Message(saveFault.value));
        } else {
          tasks := tasks[id := saved.value];
          res.Status(200);
          res.Json(OneTask(id, saved.value));
        }
      }
    }

    /**
     * deleteTask: find the task by id and remove it, calling `remove` exactly
     * once, then answer 200 "Task deleted". A missing id answers 404 "Task not
     * found"; a failed lookup or removal answers 500 with the error's message.
     */
    method DeleteTask(id: Id, findFault: Option<string>, removeFault: Option<string>, res: MockRes)
      requires Valid()
      modifies this, res
      ensures Valid() && nextId == old(nextId)
      ensures findFault.Some? ==>
        tasks == old(tasks) && removeCalls == old(removeCalls)
        && res.statusCode == 500 && res.payload == Some(Message(findFault.value))
      ensures findFault.None? && id !in old(tasks) ==>
        tasks == old(tasks) && removeCalls == old(removeCalls)
        && res.statusCode == 404 && res.payload == Some(Message(TaskNotFound))
      ensures findFault.None? && id in old(tasks) ==> removeCalls == old(removeCalls) + 1
      ensures findFault.None? && id in old(tasks) && removeFault.Some? ==>
        tasks == old(tasks) && res.statusCode == 500 && res.payload == Some(Message(removeFault.value))
      ensures findFault.None? && id in old(tasks) && removeFault.None? ==>
        id !in tasks && tasks == old(tasks) - {id}
        && res.statusCode == 200 && res.payload == Some(Message(TaskDeleted))
    {
      if findFault.Some? {
        res.Status(500);
        res.Json(Message(findFault.value));
      } else if id !in tasks {
        res.Status(404);
        res.Json(Message(TaskNotFound));
      } else {
        removeCalls := removeCalls + 1;
        if removeFault.Some? {
          res.Status(500);
          res.Json(Message(removeFault.value));
        } else {
          tasks := tasks - {id};
          res.Status(200);
          res.Json(Message(TaskDeleted));
        }
      }
    }
  }

  /*
   * The cases of the behavioural tests, replayed against the model: each
   * scenario builds the store the test stubs, calls the handler with a fresh
   * response recorder and promises what the test expects.
   */

  /** A store holding one task of `owner`, under id 0, with the fields the update test starts from. */
  method StoreWithOneTask(owner: Id, now: int) returns (svc: TaskService)
    ensures fresh(svc) && svc.Valid() && svc.tasks.Keys == {0} && svc.removeCalls == 0
    ensures var doc := svc.tasks[0];
      && "title" in doc && doc["title"] == Str("Old Task")
      && "description" in doc && doc["description"] == Str("Old Description")
      && "completed" in doc && doc["completed"] == Bool(false)
      && "userId" in doc && doc["userId"] == Ref(owner)
  {
    svc := new TaskService();
    var res := new MockRes();
    var body := map["title" := Str("Old Task"), "description" := Str("Old Description"),
                    "completed" := Bool(false), "deadline" := Time(now)];
    DraftAccepted(body["userId" := Ref(owner)], now);
    svc.AddTask(owner, body, None, now, res);
  }

  /** 'should create a new task successfully': 201 with the created record, owned by the caller. */
  method ScenarioAddTaskCreates(user: Id, now: int) returns (res: MockRes)
    ensures res.statusCode == 201 && res.payload.Some? && res.payload.value.OneTask?
    ensures var doc := res.payload.value.doc;
      && "userId" in doc && doc["userId"] == Ref(user)
      && "title" in doc && doc["title"] == Str("New Task")
      && "description" in doc && doc["description"] == Str("Task description")
      && "status" in doc && doc["status"] == Str("todo")
      && "deadline" in doc && doc["deadline"] == Time(now)
  {
    var svc := new TaskService();
    res := new MockRes();
    var body := map["title" := Str("New Task"), "description" := Str("Task description"), "deadline" := Time(now)];
    DraftAccepted(body["userId" := Ref(user)], now);
    svc.AddTask(user, body, None, now, res);
  }

  /** 'should return 500 if an error occurs' on create: the store's message is passed on. */
  method ScenarioAddTaskStoreError(user: Id, now: int) returns (res: MockRes)
    ensures res.statusCode == 500 && res.payload == Some(Message("DB Error"))
  {
    var svc := new TaskService();
    res := new MockRes();
    var body := map["title" := Str("New Task"), "description" := Str("Task description"), "deadline" := Time(now)];
    DraftAccepted(body["userId" := Ref(user)], now);
    svc.AddTask(user, body, Some("DB Error"), now, res);
  }

  /** 'should update task successfully': the body's keys are written, the rest kept, the whole record answered. */
  method ScenarioUpdateTask(owner: Id, now: int) returns (res: MockRes)
    ensures res.statusCode == 200 && res.payload.Some? && res.payload.value.OneTask?
    ensures var doc := res.payload.value.doc;
      && "title" in doc && doc["title"] == Str("New Task")
      && "completed" in doc && doc["completed"] == Bool(true)
      && "description" in doc && doc["description"] == Str("Old Description")
      && "userId" in doc && doc["userId"] == Ref(owner)
  {
    var svc := StoreWithOneTask(owner, now);
    var body := map["title" := Str("New Task"), "completed" := Bool(true)];
    UpdateAccepted(svc.tasks[0], body, now + 1);
    UpdatedRecord(svc.tasks[0], body, now + 1);
    res := new MockRes();
    svc.UpdateTask(0, body, None, None, now + 1, res);
  }

  /** 'should return 404 if task is not found' on update. */
  method ScenarioUpdateMissing(id: Id) returns (res: MockRes)
    ensures res.statusCode == 404 && res.payload == Some(Message("Task not found"))
  {
    var svc := new TaskService();
    res := new MockRes();
    svc.UpdateTask(id, map[], None, None, 0, res);
  }

  /** 'should return 500 on error' on update. */
  method ScenarioUpdateStoreError(owner: Id, now: int) returns (res: MockRes)
    ensures res.statusCode == 500 && res.payload == Some(Message("DB Error"))
  {
    var svc := StoreWithOneTask(owner, now);
    res := new MockRes();
    svc.UpdateTask(0, map[], Some("DB Error"), None, now, res);
  }

  /** Adds a task titled `title` for `user` to a store, as the list test's stubbed store holds. */
  method AddTitled(svc: TaskService, user: Id, title: string, now: int)
    requires svc.Valid() && title != ""
    modifies svc
    ensures svc.Valid() && svc.nextId == old(svc.nextId) + 1
    ensures svc.tasks.Keys == old(svc.tasks.Keys) + {old(svc.nextId)}
    ensures Decode(svc.tasks[old(svc.nextId)]).Some?
    ensures Decode(svc.tasks[old(svc.nextId)]).value.userId == user
    ensures Decode(svc.tasks[old(svc.nextId)]).value.title == title
    ensures forall id :: id in old(svc.tasks) ==> svc.tasks[id] == old(svc.tasks)[id]
  {
    var res := new MockRes();
    var body := map["title" := Str(title)];
    var fields := body["userId" := Ref(user)];
    assert fields.Keys == {"title", "userId"};
    DraftAccepted(fields, now);
    ghost var created := NewDocument(fields, now).value;
    ghost var id := svc.nextId;
    ghost var before := svc.tasks;
    svc.AddTask(user, body, None, now, res);
    assert id !in before && svc.tasks == before[id := created];
    forall k | k in before ensures svc.tasks[k] == before[k] {
      assert k != id;
    }
  }

  /** 'should return tasks for the given user': both tasks of the user are answered. */
  method ScenarioGetTasks(user: Id, now: int) returns (res: MockRes)
    ensures res.statusCode == 200 && res.payload.Some? && res.payload.value.TaskList?
    ensures res.payload.value.tasks.Keys == {0, 1}
    ensures var listed := res.payload.value.tasks;
      && Decode(listed[0]).Some? && Decode(listed[0]).value.title == "Task 1" && Decode(listed[0]).value.userId == user
      && Decode(listed[1]).Some? && Decode(listed[1]).value.title == "Task 2" && Decode(listed[1]).value.userId == user
  {
    var svc := new TaskService();
    AddTitled(svc, user, "Task 1", now);
    assert svc.tasks.Keys == {0} && Decode(svc.tasks[0]).value.userId == user;
    AddTitled(svc, user, "Task 2", now);
    assert svc.tasks.Keys == {0, 1};
    assert Decode(svc.tasks[0]).value.userId == user && Decode(svc.tasks[1]).value.userId == user;
    res := new MockRes();
    svc.GetTasks(user, None, res);
  }

  /** 'should return 500 on error' on listing. */
  method ScenarioGetTasksStoreError(user: Id) returns (res: MockRes)
    ensures res.statusCode == 500 && res.payload == Some(Message("DB Error"))
  {
    var svc := new TaskService();
    res := new MockRes();
    svc.GetTasks(user, Some("DB Error"), res);
  }

  /** 'should delete a task successfully': `remove` called once, 200 "Task deleted", the id gone. */
  method ScenarioDeleteTask(owner: Id, now: int) returns (res: MockRes, removeCalls: nat, remaining: set<Id>)
    ensures removeCalls == 1 && remaining == {}
    ensures res.statusCode == 200 && res.payload == Some(Message("Task deleted"))
  {
    var svc := StoreWithOneTask(owner, now);
    res := new MockRes();
    svc.DeleteTask(0, None, None, res);
    removeCalls := svc.removeCalls;
    remaining := svc.tasks.Keys;
  }

  /** 'should return 404 if task is not found' on delete. */
  method ScenarioDeleteMissing(id: Id) returns (res: MockRes)
    ensures res.statusCode == 404 && res.payload == Some(Message("Task not found"))
  {
    var svc := new TaskService();
    res := new MockRes();
    svc.DeleteTask(id, None, None, res);
  }

  /** 'should return 500 if an error occurs' on delete. */
  method ScenarioDeleteStoreError(owner: Id, now: int) returns (res: MockRes)
    ensures res.statusCode == 500 && res.payload == Some(Message("DB Error"))
  {
    var svc := StoreWithOneTask(owner, now);
    res := new MockRes();
    svc.DeleteTask(0, Some("DB Error"), None, res);
  }
}
