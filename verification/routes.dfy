/** The five task handlers of the `routes` table, each a pure transition
    from (table, request input) to (status code, table). The clock reading
    (`now`, already formatted as an ISO-8601 string) and the freshly generated
    id are parameters. */
module Routes {
  import opened Search
  import opened Schema
  import opened Store

  const Ok: int := 200
  const Created: int := 201
  const NoContent: int := 204
  const BadRequest: int := 400
  const NotFound: int := 404

  /** Status code and resulting table of a mutating handler. */
  datatype Reply = Reply(status: int, table: Table)

  /** A `select` filter: field name to search text. */
  type Filter = map<string, string>

  /** Outcome of the list handler: its status, the table afterwards, and the
      filter it hands to `select` (absent for `null`). */
  datatype Listing = Listing(status: int, table: Table, filter: Option<Filter>)

  /** The filter the list handler builds from the query: `search`, when
      present and non-empty (JavaScript truthiness), is looked for in every
      field but `id`; otherwise there is no filter. */
  function SearchFilter(query: map<string, string>): (r: Option<Filter>)
    ensures r.None? <==> "search" !in query || query["search"] == ""
    ensures r.Some? ==> r.value.Keys == {"title", "description", "completed_at", "created_at", "updated_at"}
    ensures r.Some? ==> forall k :: k in r.value ==> r.value[k] == query["search"]
  {
    if "search" in query && query["search"] != "" then
      var s := query["search"];
      Some(map["title" := s, "description" := s, "completed_at" := s, "created_at" := s, "updated_at" := s])
    else None
  }

  /** `GET /tasks`: answers 200 and never changes the table. */
  function List(t: Table, query: map<string, string>): (r: Listing)
    ensures r.status == Ok && r.table == t
    ensures r.filter.None? <==> "search" !in query || query["search"] == ""
  {
    Listing(Ok, t, SearchFilter(query))
  }

  /** `POST /tasks`: a body that passes the schema becomes a new, not yet
      completed task with the fresh id and both timestamps equal to `now`. */
  function Create(t: Table, body: Json, now: string, freshId: string): (r: Reply)
    ensures r.status == Created || r.status == BadRequest
    ensures r.status == BadRequest <==> ParseTaskBody(body).None?
    ensures r.status == BadRequest ==> r.table == t
    ensures r.status == Created ==> |r.table| == |t| + 1 && r.table[..|t|] == t
    ensures r.status == Created ==>
      var task := r.table[|t|];
      && task.id == freshId
      && task.title == body.fields["title"].text
      && task.description == body.fields["description"].text
      && task.completedAt == ""
      && task.createdAt == now && task.updatedAt == now
  {
    match ParseTaskBody(body)
    case None => Reply(BadRequest, t)
    case Some(b) =>
      Reply(Created, Insert(t, Task(freshId, b.title, b.description, "", now, now)))
  }

  /** `PUT /tasks/:id`: checks the id (404), then the body (400), then that
      the task exists (404); on success overwrites title and description,
      refreshes `updatedAt`, and keeps everything else of every task. */
  function Edit(t: Table, params: map<string, string>, body: Json, now: string): (r: Reply)
    ensures r.status == NoContent || r.status == BadRequest || r.status == NotFound
    ensures ParseIdParam(params).None? ==> r.status == NotFound
    ensures ParseIdParam(params).Some? && ParseTaskBody(body).None? ==> r.status == BadRequest
    ensures ParseIdParam(params).Some? && ParseTaskBody(body).Some? && !HasId(t, params["id"]) ==> r.status == NotFound
    ensures r.status == NoContent <==>
      ParseIdParam(params).Some? && ParseTaskBody(body).Some? && HasId(t, params["id"])
    ensures r.status != NoContent ==> r.table == t
    ensures r.status == NoContent ==>
      var i := IndexOf(t, params["id"]).value;
      && |r.table| == |t|
      && r.table[i] == t[i].(title := body.fields["title"].text,
                             description := body.fields["description"].text,
                             updatedAt := now)
      && forall j :: 0 <= j < |t| && j != i ==> r.table[j] == t[j]
  {
    match ParseIdParam(params)
    case None => Reply(NotFound, t)
    case Some(id) =>
      match ParseTaskBody(body)
      case None => Reply(BadRequest, t)
      case Some(b) =>
        match SelectFirst(t, id)
        case None => Reply(NotFound, t)
        case Some(task) =>
          Reply(NoContent, Update(t, id, Fields(b.title, b.description, task.completedAt, task.createdAt, now)))
  }

  /** `DELETE /tasks/:id`: 404 for a malformed or unknown id; otherwise the
      matching task is removed and the others keep their order. */
  function Remove(t: Table, params: map<string, string>): (r: Reply)
    ensures r.status == NoContent || r.status == NotFound
    ensures r.status == NoContent <==> ParseIdParam(params).Some? && HasId(t, params["id"])
    ensures r.status == NotFound ==> r.table == t
    ensures r.status == NoContent ==>
      var i := IndexOf(t, params["id"]).value;
      r.table == t[..i] + t[i + 1..]
  {
    match ParseIdParam(params)
    case None => Reply(NotFound, t)
    case Some(id) =>
      match SelectFirst(t, id)
      case None => Reply(NotFound, t)
      case Some(_) => Reply(NoContent, Delete(t, id))
  }

  /** `PATCH /tasks/:id/complete`: 400 (not 404) for a malformed id, 404 for
      an unknown one; otherwise stamps `completedAt` and `updatedAt` with
      `now` and keeps everything else of every task. */
  function Complete(t: Table, params: map<string, string>, now: string): (r: Reply)
    ensures r.status == NoContent || r.status == BadRequest || r.status == NotFound
    ensures r.status == BadRequest <==> ParseIdParam(params).None?
    ensures r.status == NotFound <==> ParseIdParam(params).Some? && !HasId(t, params["id"])
    ensures r.status != NoContent ==> r.table == t
    ensures r.status == NoContent ==>
      var i := IndexOf(t, params["id"]).value;
      && |r.table| == |t|
      && r.table[i] == t[i].(completedAt := now, updatedAt := now)
      && forall j :: 0 <= j < |t| && j != i ==> r.table[j] == t[j]
  {
    match ParseIdParam(params)
    case None => Reply(BadRequest, t)
    case Some(id) =>
      match SelectFirst(t, id)
      case None => Reply(NotFound, t)
      case Some(task) =>
        Reply(NoContent, Update(t, id, Fields(task.title, task.description, now, task.createdAt, now)))
  }

  /** The handlers disagree on a malformed id: PUT and DELETE answer 404,
      PATCH-complete answers 400, and none of them touches the table. */
  lemma MalformedIdStatuses(t: Table, params: map<string, string>, body: Json, now: string)
    requires !("id" in params && ValidUuid(params["id"]))
    ensures Edit(t, params, body, now) == Reply(NotFound, t)
    ensures Remove(t, params) == Reply(NotFound, t)
    ensures Complete(t, params, now) == Reply(BadRequest, t)
  {
  }

  /** Every handler keeps ids unique, provided the generated id is fresh. */
  lemma HandlersKeepIdsUnique(t: Table, params: map<string, string>, body: Json, now: string, freshId: string)
    requires UniqueIds(t)
    requires !HasId(t, freshId)
    ensures UniqueIds(Create(t, body, now, freshId).table)
    ensures UniqueIds(Edit(t, params, body, now).table)
    ensures UniqueIds(Remove(t, params).table)
    ensures UniqueIds(Complete(t, params, now).table)
  {
    if ParseTaskBody(body).Some? {
      var b := ParseTaskBody(body).value;
      InsertFresh(t, Task(freshId, b.title, b.description, "", now, now));
    }
    SameIdsUnique(t, Edit(t, params, body, now).table);
    SameIdsUnique(t, Complete(t, params, now).table);
    if ParseIdParam(params).Some? {
      DeleteKeepsUnique(t, params["id"]);
    }
  }

  /** A created task can be looked up by its id afterwards and is exactly
      the record the handler built. */
  lemma CreateThenSelect(t: Table, body: Json, now: string, freshId: string)
    requires UniqueIds(t)
    requires !HasId(t, freshId)
    requires ParseTaskBody(body).Some?
    ensures
      var b := ParseTaskBody(body).value;
      SelectFirst(Create(t, body, now, freshId).table, freshId)
        == Some(Task(freshId, b.title, b.description, "", now, now))
  {
    var b := ParseTaskBody(body).value;
    InsertFresh(t, Task(freshId, b.title, b.description, "", now, now));
  }

  /** Deleting the same id twice: the second attempt finds nothing and
      answers 404. */
  lemma DeleteTwice(t: Table, params: map<string, string>)
    requires UniqueIds(t)
    requires Remove(t, params).status == NoContent
    ensures !HasId(Remove(t, params).table, params["id"])
    ensures Remove(Remove(t, params).table, params) == Reply(NotFound, Remove(t, params).table)
  {
  }

  /** Editing a task keeps its completion stamp and creation time, whatever
      the body says. */
  lemma EditKeepsCompletion(t: Table, params: map<string, string>, body: Json, now: string)
    requires Edit(t, params, body, now).status == NoContent
    ensures
      var id := params["id"];
      var before := SelectFirst(t, id).value;
      var after := SelectFirst(Edit(t, params, body, now).table, id).value;
      && SelectFirst(Edit(t, params, body, now).table, id).Some?
      && after.completedAt == before.completedAt
      && after.createdAt == before.createdAt
      && after.updatedAt == now
  {
    var r := Edit(t, params, body, now).table;
    var i := IndexOf(t, params["id"]).value;
    assert Ids(r) == Ids(t) by {
      assert forall j :: 0 <= j < |t| ==> r[j].id == t[j].id;
    }
    SameIdsSameIndex(t, r, params["id"]);
  }

  /** Completing a task stamps it with `now`, which a real clock never leaves
      empty, and keeps the set of ids. */
  lemma CompleteStamps(t: Table, params: map<string, string>, now: string)
    requires now != ""
    requires Complete(t, params, now).status == NoContent
    ensures
      var id := params["id"];
      var r := Complete(t, params, now).table;
      && SelectFirst(r, id).Some?
      && SelectFirst(r, id).value.completedAt == now != ""
      && SelectFirst(r, id).value.updatedAt == now
      && Ids(r) == Ids(t)
  {
    var r := Complete(t, params, now).table;
    assert Ids(r) == Ids(t) by {
      assert forall j :: 0 <= j < |t| ==> r[j].id == t[j].id;
    }
    SameIdsSameIndex(t, r, params["id"]);
  }

  /** No handler ever changes the creation time of a task (ids unique, the
      generated id fresh). */
  lemma CreationTimeIsStable(t: Table, params: map<string, string>, body: Json, now: string, freshId: string)
    requires UniqueIds(t)
    requires !HasId(t, freshId)
    ensures KeepsCreation(t, Create(t, body, now, freshId).table)
    ensures KeepsCreation(t, Edit(t, params, body, now).table)
    ensures KeepsCreation(t, Remove(t, params).table)
    ensures KeepsCreation(t, Complete(t, params, now).table)
  {
    var r := Create(t, body, now, freshId).table;
    if r != t {
      AppendKeepsCreation(t, r[|t|]);
    }
    InPlaceKeepsCreation(t, Edit(t, params, body, now).table);
    InPlaceKeepsCreation(t, Complete(t, params, now).table);
    if ParseIdParam(params).Some? {
      DeleteKeepsCreation(t, params["id"]);
    }
  }
}
