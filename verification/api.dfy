/** The REST routes under `/api`: each wraps exactly one storage call in a
    try/catch and turns its outcome into a status and a JSON body. The storage
    library is not modelled; a route sees it only as a function from the call it
    makes to what that call produced. */
module Api {
  import opened Records

  const OK := 200
  const NOT_FOUND := 404
  const SERVER_ERROR := 500

  const HELLO := "Hello from Hono API!"
  const DELETED := "Student deleted successfully"
  const STUDENT_NOT_FOUND := "Student not found"
  const FETCH_STUDENTS_FAILED := "Failed to fetch students"
  const DELETE_FAILED := "Failed to delete student"
  const ADD_FAILED := "Failed to add student"
  const UPDATE_FAILED := "Failed to update student"
  const FETCH_STUDENT_FAILED := "Failed to fetch student"
  const INTERNAL_ERROR := "Internal Server Error"

  /** The JSON bodies the routes send. */
  datatype Json =
    | MessageBody(message: string)
    | ErrorBody(error: string)
    | StudentBody(student: Student)
    | StudentsBody(students: seq<Student>)
    | NullBody

  datatype Response = Response(status: int, body: Json)

  /** The storage queries on the `student` table that the routes issue. */
  datatype Call =
    | FindMany
    | FindUnique(id: int)
    | Create(name: string, age: int)
    | Update(id: int, name: string, age: int)
    | Delete(id: int)

  /** What a storage query produced: a list of rows, one row, null, or an
      exception whose text is `detail`. */
  datatype Reply = Rows(rows: seq<Student>) | Row(row: Student) | NoRow | Threw(detail: string)

  /** The storage as the routes see it. */
  type Storage = Call -> Reply

  /** A request body: the parsed `name` and `age`, or text that `c.req.json()`
      rejects by throwing. */
  datatype Payload = Fields(name: string, age: int) | Unparsable

  /** `c.json(value)` of whatever a query returned. */
  function Serialize(reply: Reply): Json
    requires !reply.Threw?
  {
    match reply
    case Rows(rows) => StudentsBody(rows)
    case Row(row) => StudentBody(row)
    case NoRow => NullBody
  }

  /** GET /hello: always the fixed greeting. */
  function HelloRoute(): (r: Response)
    ensures r.status == OK && r.body == MessageBody(HELLO)
  {
    Response(OK, MessageBody(HELLO))
  }

  /** GET /students: every row, or 500 when the query throws. */
  function ListRoute(db: Storage): (r: Response)
    ensures r.status in {OK, SERVER_ERROR}
    ensures r.status == SERVER_ERROR <==> db(FindMany).Threw?
    ensures r.status == SERVER_ERROR ==> r.body == ErrorBody(FETCH_STUDENTS_FAILED)
    ensures db(FindMany).Rows? ==> r.body == StudentsBody(db(FindMany).rows)
  {
    var reply := db(FindMany);
    if reply.Threw? then Response(SERVER_ERROR, ErrorBody(FETCH_STUDENTS_FAILED))
    else Response(OK, Serialize(reply))
  }

  /** DELETE /students/:id: a confirmation whatever the query returned, or 500
      when it throws. */
  function DeleteRoute(id: int, db: Storage): (r: Response)
    ensures r.status in {OK, SERVER_ERROR}
    ensures r.status == SERVER_ERROR <==> db(Delete(id)).Threw?
    ensures r.status == OK ==> r.body == MessageBody(DELETED)
    ensures r.status == SERVER_ERROR ==> r.body == ErrorBody(DELETE_FAILED)
  {
    if db(Delete(id)).Threw? then Response(SERVER_ERROR, ErrorBody(DELETE_FAILED))
    else Response(OK, MessageBody(DELETED))
  }

  /** POST /students: creates a row from the body's `name` and `age` as given
      and returns it; 500 when the body cannot be parsed or the query throws. */
  function AddRoute(payload: Payload, db: Storage): (r: Response)
    ensures r.status in {OK, SERVER_ERROR}
    ensures r.status == SERVER_ERROR <==> payload.Unparsable? || db(Create(payload.name, payload.age)).Threw?
    ensures r.status == SERVER_ERROR ==> r.body == ErrorBody(ADD_FAILED)
    ensures payload.Fields? && db(Create(payload.name, payload.age)).Row? ==>
              r.body == StudentBody(db(Create(payload.name, payload.age)).row)
  {
    match payload
    case Unparsable => Response(SERVER_ERROR, ErrorBody(ADD_FAILED))
    case Fields(name, age) =>
      var reply := db(Create(name, age));
      if reply.Threw? then Response(SERVER_ERROR, ErrorBody(ADD_FAILED))
      else Response(OK, Serialize(reply))
  }

  /** PUT /students/:id: updates the row with the path's id to the body's
      `name` and `age` and returns it; 500 when the body cannot be parsed or
      the query throws. */
  function UpdateRoute(id: int, payload: Payload, db: Storage): (r: Response)
    ensures r.status in {OK, SERVER_ERROR}
    ensures r.status == SERVER_ERROR <==> payload.Unparsable? || db(Update(id, payload.name, payload.age)).Threw?
    ensures r.status == SERVER_ERROR ==> r.body == ErrorBody(UPDATE_FAILED)
    ensures payload.Fields? && db(Update(id, payload.name, payload.age)).Row? ==>
              r.body == StudentBody(db(Update(id, payload.name, payload.age)).row)
  {
    match payload
    case Unparsable => Response(SERVER_ERROR, ErrorBody(UPDATE_FAILED))
    case Fields(name, age) =>
      var reply := db(Update(id, name, age));
      if reply.Threw? then Response(SERVER_ERROR, ErrorBody(UPDATE_FAILED))
      else Response(OK, Serialize(reply))
  }

  /** GET /students/:id: the row when found, 404 when the lookup yields null,
      500 when it throws. */
  function FindRoute(id: int, db: Storage): (r: Response)
    ensures r.status in {OK, NOT_FOUND, SERVER_ERROR}
    ensures r.status == NOT_FOUND <==> db(FindUnique(id)).NoRow?
    ensures r.status == SERVER_ERROR <==> db(FindUnique(id)).Threw?
    ensures r.status == NOT_FOUND ==> r.body == ErrorBody(STUDENT_NOT_FOUND)
    ensures r.status == SERVER_ERROR ==> r.body == ErrorBody(FETCH_STUDENT_FAILED)
    ensures db(FindUnique(id)).Row? ==> r.status == OK && r.body == StudentBody(db(FindUnique(id)).row)
  {
    var reply := db(FindUnique(id));
    match reply
    case Threw(_) => Response(SERVER_ERROR, ErrorBody(FETCH_STUDENT_FAILED))
    case NoRow => Response(NOT_FOUND, ErrorBody(STUDENT_NOT_FOUND))
    case _ => Response(OK, Serialize(reply))
  }

  /** The application-wide error handler: a fixed 500 whatever the error was. */
  function OnError(detail: string): (r: Response)
    ensures r.status == SERVER_ERROR && r.body == ErrorBody(INTERNAL_ERROR)
  {
    Response(SERVER_ERROR, ErrorBody(INTERNAL_ERROR))
  }

  /** A request to one of the six routes. */
  datatype Route =
    | GetHello
    | GetStudents
    | GetStudent(id: int)
    | PostStudent(payload: Payload)
    | PutStudent(id: int, payload: Payload)
    | DeleteStudent(id: int)

  /** Routes a request to its handler. */
  function Handle(route: Route, db: Storage): Response
  {
    match route
    case GetHello => HelloRoute()
    case GetStudents => ListRoute(db)
    case GetStudent(id) => FindRoute(id, db)
    case PostStudent(payload) => AddRoute(payload, db)
    case PutStudent(id, payload) => UpdateRoute(id, payload, db)
    case DeleteStudent(id) => DeleteRoute(id, db)
  }

  /** The storage query a request leads to, if any: none for the greeting and
      none when the body cannot be parsed. */
  function CallOf(route: Route): Option<Call>
  {
    match route
    case GetHello => None
    case GetStudents => Some(FindMany)
    case GetStudent(id) => Some(FindUnique(id))
    case PostStudent(payload) =>
      if payload.Fields? then Some(Create(payload.name, payload.age)) else None
    case PutStudent(id, payload) =>
      if payload.Fields? then Some(Update(id, payload.name, payload.age)) else None
    case DeleteStudent(id) => Some(Delete(id))
  }

  /** The fixed text a route answers with when it fails with 500. */
  function FailureMessage(route: Route): string
  {
    match route
    case GetHello => INTERNAL_ERROR  // unreachable: GET /hello has no catch block and never answers 500
    case GetStudents => FETCH_STUDENTS_FAILED
    case GetStudent(_) => FETCH_STUDENT_FAILED
    case PostStudent(_) => ADD_FAILED
    case PutStudent(_, _) => UPDATE_FAILED
    case DeleteStudent(_) => DELETE_FAILED
  }

  /** A request fails when its body cannot be parsed or its query throws. */
  predicate Fails(route: Route, db: Storage)
  {
    match CallOf(route)
    case None => (route.PostStudent? || route.PutStudent?) && route.payload.Unparsable?
    case Some(call) => db(call).Threw?
  }

  /** A response depends on the storage only through the one query the request
      leads to: the id comes from the path and `name` and `age` are passed on
      from the body unchanged. */
  lemma OnlyItsCallMatters(route: Route, db1: Storage, db2: Storage)
    requires CallOf(route).Some? ==> db1(CallOf(route).value) == db2(CallOf(route).value)
    ensures Handle(route, db1) == Handle(route, db2)
  {
  }

  /** Every response is 200, 404 or 500; 500 exactly when the request fails,
      404 exactly when the single-record lookup yields null. */
  lemma Statuses(route: Route, db: Storage)
    ensures Handle(route, db).status in {OK, NOT_FOUND, SERVER_ERROR}
    ensures Handle(route, db).status == SERVER_ERROR <==> Fails(route, db)
    ensures Handle(route, db).status == NOT_FOUND <==> route.GetStudent? && db(FindUnique(route.id)).NoRow?
  {
  }

  /** A failed request answers with its route's fixed text, never with the
      text of the exception. */
  lemma ErrorsAreFixed(route: Route, db: Storage)
    ensures Handle(route, db).status == SERVER_ERROR ==> Handle(route, db).body == ErrorBody(FailureMessage(route))
    ensures Handle(route, db).status == NOT_FOUND ==> Handle(route, db).body == ErrorBody(STUDENT_NOT_FOUND)
  {
  }

  /** `response.ok`: the HTTP client hands the body to the page only for a 2xx
      status and throws for any other, so the page's handler takes its failure
      path. */
  predicate IsOk(status: int)
  {
    200 <= status <= 299
  }

  /** The page's handler sees a failure exactly when the request fails or the
      single-record lookup yields null. */
  lemma ClientSeesFailure(route: Route, db: Storage)
    ensures !IsOk(Handle(route, db).status) <==>
              Fails(route, db) || (route.GetStudent? && db(FindUnique(route.id)).NoRow?)
  {
    Statuses(route, db);
  }
}
