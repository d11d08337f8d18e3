/** The request callback of the HTTP server: a `POST` to the import path
    goes straight to the CSV transform; every other request is dispatched
    to the first declared route whose verb is equal and whose path
    pattern matches the URL, and answered 404 when there is none.

    The route-pattern compiler is not part of this model: a compiled pattern
    is the abstract `Matcher`, which for a path template and a URL gives the
    named groups of the match, or nothing. The query-string decoder is the
    abstract `decode`. */
module Server {
  import opened Search
  import opened Schema
  import opened Store
  import opened Routes
  import opened CsvImport

  const ImportPath: string := "/tasks/import-csv"

  datatype Handler = ListTasks | CreateTask | EditTask | RemoveTask | CompleteTask

  datatype Route = Route(verb: string, path: string, handler: Handler)

  /** The `routes` array, in declaration order. */
  const RouteTable: seq<Route> := [
    Route("GET", "/tasks", ListTasks),
    Route("POST", "/tasks", CreateTask),
    Route("PUT", "/tasks/:id", EditTask),
    Route("DELETE", "/tasks/:id", RemoveTask),
    Route("PATCH", "/tasks/:id/complete", CompleteTask)
  ]

  /** The named groups of a successful match: the path parameters, and the
      query string when the URL has one. */
  datatype Groups = Groups(params: map<string, string>, query: Option<string>)

  /** `exec(template, url)`: the groups when `url` matches the compiled
      `template`, nothing otherwise. A route's `test` is `exec(..).Some?`. */
  type Matcher = (string, string) -> Option<Groups>

  predicate Matches(exec: Matcher, route: Route, url: string) {
    exec(route.path, url).Some?
  }

  predicate Accepts(exec: Matcher, route: Route, verb: string, url: string) {
    route.verb == verb && Matches(exec, route, url)
  }

  /** Where a request goes. */
  datatype Target = ImportCsv | Handle(index: nat) | NoRoute

  /** The import bypass first, then the first route accepting the request. */
  function Dispatch(routes: seq<Route>, exec: Matcher, verb: string, url: string): (d: Target)
    ensures d == ImportCsv <==> verb == "POST" && url == ImportPath
    ensures d.Handle? ==> d.index < |routes| && Accepts(exec, routes[d.index], verb, url)
    ensures d.Handle? ==> forall j :: 0 <= j < d.index ==> !Accepts(exec, routes[j], verb, url)
    ensures d == NoRoute <==>
      && !(verb == "POST" && url == ImportPath)
      && forall j :: 0 <= j < |routes| ==> !Accepts(exec, routes[j], verb, url)
  {
    if verb == "POST" && url == ImportPath then ImportCsv
    else
      match First(routes, (r: Route) => Accepts(exec, r, verb, url))
      case None => NoRoute
      case Some(i) => Handle(i)
  }

  /** `req.query`: the decoded query string when the match captured a
      non-empty one, and an empty map otherwise. */
  function QueryOf(query: Option<string>, decode: string -> map<string, string>): (q: map<string, string>)
    ensures query.None? || query == Some("") ==> q == map[]
    ensures query.Some? && query.value != "" ==> q == decode(query.value)
  {
    match query
    case Some(s) => if s != "" then decode(s) else map[]
    case None => map[]
  }

  /** An incoming request: the parsed JSON body the handlers see, and the
      raw body as the chunks the import transform receives. */
  datatype Request = Request(verb: string, url: string, body: Json, chunks: seq<string>)

  /** What serving a request produces. */
  datatype Served =
    | Replied(reply: Reply)
    | Listed(listing: Listing)
    | Imported(payloads: seq<TaskBody>)

  /** The server callback. Each of the five verbs has one route: a request
      whose URL that route's pattern matches is answered by its handler,
      with the path parameters and query of the match; any other request,
      the import upload aside, is answered 404 without touching the table. */
  function Serve(t: Table, req: Request, exec: Matcher, decode: string -> map<string, string>,
                 now: string, freshId: string): (s: Served)
    ensures req.verb == "POST" && req.url == ImportPath ==> s == Imported(ImportPayloads(req.chunks))
    ensures req.verb == "GET" ==> (
      s == match exec("/tasks", req.url)
           case None => Replied(Reply(NotFound, t))
           case Some(g) => Listed(List(t, QueryOf(g.query, decode))))
    ensures req.verb == "POST" && req.url != ImportPath ==> (
      s == match exec("/tasks", req.url)
           case None => Replied(Reply(NotFound, t))
           case Some(_) => Replied(Create(t, req.body, now, freshId)))
    ensures req.verb == "PUT" ==> (
      s == match exec("/tasks/:id", req.url)
           case None => Replied(Reply(NotFound, t))
           case Some(g) => Replied(Edit(t, g.params, req.body, now)))
    ensures req.verb == "DELETE" ==> (
      s == match exec("/tasks/:id", req.url)
           case None => Replied(Reply(NotFound, t))
           case Some(g) => Replied(Remove(t, g.params)))
    ensures req.verb == "PATCH" ==> (
      s == match exec("/tasks/:id/complete", req.url)
           case None => Replied(Reply(NotFound, t))
           case Some(g) => Replied(Complete(t, g.params, now)))
    ensures req.verb !in {"GET", "POST", "PUT", "DELETE", "PATCH"} ==> s == Replied(Reply(NotFound, t))
    ensures Dispatch(RouteTable, exec, req.verb, req.url) == NoRoute ==> s == Replied(Reply(NotFound, t))
    ensures s.Listed? ==> s.listing.status == Ok && s.listing.table == t
    ensures s.Replied? && s.reply.status != Created && s.reply.status != NoContent ==> s.reply.table == t
  {
    match Dispatch(RouteTable, exec, req.verb, req.url)
    case ImportCsv => Imported(ImportPayloads(req.chunks))
    case NoRoute => Replied(Reply(NotFound, t))
    case Handle(i) =>
      var groups := exec(RouteTable[i].path, req.url).value;
      match RouteTable[i].handler
      case ListTasks => Listed(List(t, QueryOf(groups.query, decode)))
      case CreateTask => Replied(Create(t, req.body, now, freshId))
      case EditTask => Replied(Edit(t, groups.params, req.body, now))
      case RemoveTask => Replied(Remove(t, groups.params))
      case CompleteTask => Replied(Complete(t, groups.params, now))
  }

  /** No two routes share a verb, so on the route table first-match
      dispatch never has to choose: a request goes to the route declared
      for its verb exactly when that route's pattern matches. */
  lemma DispatchByVerb(exec: Matcher, verb: string, url: string, i: nat)
    requires i < |RouteTable|
    requires !(verb == "POST" && url == ImportPath)
    ensures Dispatch(RouteTable, exec, verb, url) == Handle(i) <==> Accepts(exec, RouteTable[i], verb, url)
  {
    var d := Dispatch(RouteTable, exec, verb, url);
    if Accepts(exec, RouteTable[i], verb, url) {
      assert d.Handle?;
      assert RouteTable[d.index].verb == RouteTable[i].verb;
    }
  }

  /** Serving never breaks id uniqueness, provided the generated id is
      fresh. */
  lemma ServeKeepsIdsUnique(t: Table, req: Request, exec: Matcher, decode: string -> map<string, string>,
                            now: string, freshId: string)
    requires UniqueIds(t)
    requires !HasId(t, freshId)
    ensures Serve(t, req, exec, decode, now, freshId).Replied? ==>
              UniqueIds(Serve(t, req, exec, decode, now, freshId).reply.table)
  {
    match Dispatch(RouteTable, exec, req.verb, req.url)
    case Handle(i) =>
      var groups := exec(RouteTable[i].path, req.url).value;
      HandlersKeepIdsUnique(t, groups.params, req.body, now, freshId);
    case _ =>
  }

  /** Every body the import posts passes the create schema, so each post
      that reaches the create handler is answered 201 and adds its row. */
  lemma ImportedRowsAreCreatable(chunks: seq<string>, t: Table, now: string, freshId: string)
    ensures forall p :: p in ImportPayloads(chunks) ==>
      && ParseTaskBody(ToJson(p)) == Some(p)
      && Create(t, ToJson(p), now, freshId) == Reply(Created, t + [Task(freshId, p.title, p.description, "", now, now)])
  {
  }

  /** `POST /tasks` with `{"title": "A", "description": "B"}` on an empty
      table answers 201; a following `GET /tasks` answers 200 with the one
      new task and no filter. */
  lemma CreateThenListScenario(exec: Matcher, decode: string -> map<string, string>, now: string, freshId: string)
    requires exec("/tasks", "/tasks") == Some(Groups(map[], None))
    ensures
      var body := JObject(map["title" := JString("A"), "description" := JString("B")]);
      var task := Task(freshId, "A", "B", "", now, now);
      && Serve([], Request("POST", "/tasks", body, []), exec, decode, now, freshId)
           == Replied(Reply(Created, [task]))
      && Serve([task], Request("GET", "/tasks", JOther, []), exec, decode, now, freshId)
           == Listed(Listing(Ok, [task], None))
  {
    var body := JObject(map["title" := JString("A"), "description" := JString("B")]);
    assert HasString(body.fields, "title") && HasString(body.fields, "description");
    assert Accepts(exec, RouteTable[1], "POST", "/tasks");
    assert !Accepts(exec, RouteTable[0], "POST", "/tasks");
    assert Accepts(exec, RouteTable[0], "GET", "/tasks");
  }

  /** A malformed id: `PATCH /tasks/<id>/complete` answers 400 while
      `DELETE /tasks/<id>` answers 404, and neither changes the table. */
  lemma MalformedIdScenario(t: Table, exec: Matcher, decode: string -> map<string, string>, now: string, freshId: string)
    requires exec("/tasks/:id/complete", "/tasks/not-a-uuid/complete") == Some(Groups(map["id" := "not-a-uuid"], None))
    requires exec("/tasks/:id", "/tasks/not-a-uuid") == Some(Groups(map["id" := "not-a-uuid"], None))
    ensures Serve(t, Request("PATCH", "/tasks/not-a-uuid/complete", JOther, []), exec, decode, now, freshId)
              == Replied(Reply(BadRequest, t))
    ensures Serve(t, Request("DELETE", "/tasks/not-a-uuid", JOther, []), exec, decode, now, freshId)
              == Replied(Reply(NotFound, t))
  {
    assert !ValidUuid("not-a-uuid");
    DispatchByVerb(exec, "PATCH", "/tasks/not-a-uuid/complete", 4);
    DispatchByVerb(exec, "DELETE", "/tasks/not-a-uuid", 3);
  }
}
