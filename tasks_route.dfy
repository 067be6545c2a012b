/**
 * The demo REST route for tasks: a process-wide list seeded with two tasks,
 * read by GET and appended to by POST. Responses are modelled by their
 * status and JSON body only.
 */
module TasksRoute {
  import opened Wrappers

  datatype Task = Task(id: int, title: string, completed: bool)

  /**
   * A POST body that parsed as any JSON value other than null (for a
   * primitive or an array, `body.title` is undefined). `title` is None when
   * the field is missing or falsy but not a string (null, false, 0).
   */
  datatype CreateTaskRequest = CreateTaskRequest(title: Option<string>)

  /** The request body as `request.json()` sees it. */
  datatype RequestBody = Unparseable | NullJson | Parsed(request: CreateTaskRequest)

  datatype Payload = TaskList(tasks: seq<Task>) | Created(task: Task) | Error(message: string)

  datatype Response = Response(status: int, payload: Payload)

  /** The list the process starts with. */
  const Seed: seq<Task> := [Task(1, "Learn", false), Task(2, "Learn JS", true)]

  /** Status of the missing-title error, as the route writes it. */
  const MissingTitleStatus: int := 4000

  /** The catch branch's answer: the error with the default status. */
  const InvalidPost: Response := Response(200, Error("Invalid POST!"))

  /**
   * `Response.json(payload, {status})`. The Fetch Standard makes it throw a
   * RangeError for a status outside 200-599, given here as None.
   */
  function JsonResponse(payload: Payload, status: int): (r: Option<Response>)
    ensures r.Some? <==> 200 <= status <= 599
    ensures r.Some? ==> r.value.status == status && r.value.payload == payload
  {
    if 200 <= status <= 599 then Some(Response(status, payload)) else None
  }

  /** The missing-title response cannot be built, so that branch throws inside the try. */
  lemma MissingTitleResponseThrows()
    ensures JsonResponse(Error("Error in Post"), MissingTitleStatus) == None
  {
  }

  /** Every task's id is its position plus one. */
  ghost predicate IdsAreIndices(tasks: seq<Task>) {
    forall i :: 0 <= i < |tasks| ==> tasks[i].id == i + 1
  }

  /** POST creates a task only from a parsed object whose title is a non-empty string. */
  predicate Accepts(body: RequestBody) {
    body.Parsed? && body.request.title.Some? && body.request.title.value != ""
  }

  /** Numbering ids by position makes them distinct and keeps them within 1..|tasks|. */
  lemma IdsUnique(tasks: seq<Task>)
    requires IdsAreIndices(tasks)
    ensures forall i, j :: 0 <= i < j < |tasks| ==> tasks[i].id != tasks[j].id
    ensures forall t :: t in tasks ==> 1 <= t.id <= |tasks|
  {
  }

  class TaskStore {
    var tasks: seq<Task>

    ghost predicate Valid()
      reads this
    {
      IdsAreIndices(tasks)
    }

    constructor ()
      ensures tasks == Seed && Valid()
    {
      tasks := Seed;
    }

    /** GET: the current list, with the default status, leaving it as it is. */
    method Get() returns (r: Response)
      ensures r == Response(200, TaskList(tasks))
    {
      r := Response(200, TaskList(tasks));
    }

    /**
     * POST. A body that does not parse, or parses to null (reading `title`
     * throws), ends in the catch branch: an error with the default status.
     * A missing or empty title is answered with status 4000, which
     * `Response.json` rejects inside the try, so it too ends in the catch
     * branch. Otherwise one task, numbered length plus one and not
     * completed, is appended and returned with status 201. Only that last
     * case changes the list.
     */
    method Post(body: RequestBody) returns (r: Response)
      requires Valid()
      modifies this
      ensures Valid()
      ensures !Accepts(body) ==> tasks == old(tasks) && r == InvalidPost
      ensures Accepts(body) ==>
                var t := Task(|old(tasks)| + 1, body.request.title.value, false);
                tasks == old(tasks) + [t] && r == Response(201, Created(t))
    {
      match body {
        case Unparseable =>
          return InvalidPost;
        case NullJson =>
          return InvalidPost;
        case Parsed(request) =>
          if request.title.None? || request.title.value == "" {
            // A RangeError from Response.json is caught like any other error.
            return JsonResponse(Error("Error in Post"), MissingTitleStatus).GetOr(InvalidPost);
          }
          var newTask := Task(|tasks| + 1, request.title.value, false);
          tasks := tasks + [newTask];
          r := Response(201, Created(newTask));
      }
    }
  }

  /** Two requests against a fresh store: a missing title ends in the catch branch, then a title gets id 3. */
  method PostScenario()
  {
    var store := new TaskStore();
    var r := store.Post(Parsed(CreateTaskRequest(None)));
    assert r == InvalidPost && store.tasks == Seed;
    r := store.Post(Parsed(CreateTaskRequest(Some("Write tests"))));
    assert r == Response(201, Created(Task(3, "Write tests", false)));
    assert store.tasks == Seed + [Task(3, "Write tests", false)];
  }
}
