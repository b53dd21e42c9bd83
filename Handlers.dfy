/**
 * The five route handlers of the employee service, reduced to their
 * decisions. Each handler is a function from the request and what the
 * database driver reports (`DbOutcome`) to the response it sends and the
 * driver calls it makes (`Exchange`): connect, execute one statement,
 * release. The driver itself, the HTTP framework and the callbacks that
 * chain them are not modelled; their results are inputs.
 */
module Handlers {
  import opened Wrappers
  import opened JsValues
  import opened UpdateBuilder

  /** A result row, as the driver returns it in object format. */
  type Row = map<string, JsValue>

  /** An error reported by the driver; the handlers read only its message. */
  datatype DbError = DbError(message: string)

  /**
   * What the driver reports for one request: the error of `getConnection`, if
   * any, and the `(err, result)` pair that `execute` passes to its callback
   * (read only when connecting succeeded). `R` is the part of the result a
   * handler reads: the rows of a query, the rows affected by a change.
   */
  datatype DbOutcome<R> = DbOutcome(connectError: Option<DbError>, executeError: Option<DbError>, result: R)

  /** Bind values passed to `execute`: an array of positional values or an object of named ones. */
  datatype Binds = Positional(values: seq<JsValue>) | Named(names: map<string, JsValue>)

  /** A call a handler makes on the driver. */
  datatype DbCall = Connect | Execute(sql: string, binds: Binds) | Release

  /**
   * The response body: none, the JSON array of rows, or the JSON error object
   * `{status, message, detailed_message}` whose status is the response status
   * (a `null` detailed_message is `None`).
   */
  datatype Payload = NoPayload | RowsPayload(rows: seq<Row>) | ErrorPayload(message: string, detail: Option<string>)

  /** The HTTP status, the body and the Location header of a response. */
  datatype Response = Response(status: int, payload: Payload, location: Option<string>)

  /**
   * What a request comes to: the response a handler sends together with the
   * driver calls it makes, in order; or, when the handler throws inside the
   * driver's callback, the calls made before the throw and no response.
   */
  datatype Exchange =
    | Exchange(response: Response, calls: seq<DbCall>)
    | Thrown(calls: seq<DbCall>)

  /** The parts of an HTTP request the handlers read: the Content-Type header, the route parameters and the JSON body. */
  datatype Request = Request(contentType: Option<string>, params: Params, body: Body)

  const JsonType := "application/json"

  const SelectAllSql := "SELECT * FROM EMPLOYEES"
  const SelectByIdSql := "SELECT * FROM EMPLOYEES WHERE EMPLOYEE_ID = :EMPLOYEE_ID"
  const InsertSql := "INSERT INTO employees VALUES " +
    "(:EMPLOYEE_ID, :FIRST_NAME,:LAST_NAME, :EMAIL, " +
    ":PHONE_NUMBER, :HIRE_DATE, :JOB_ID, :SALARY, :COMMISSION_PCT, " +
    ":MANAGER_ID, :DEPARTMENT_ID) "
  const DeleteSql := "DELETE FROM EMPLOYEES WHERE EMPLOYEE_ID = :EMPLOYEE_ID"

  const WrongContentType := "Wrong content-type. Only application/json is supported"
  const ConnectFailed := "Error connecting to DB"
  const ListFailed := "Error getting the employee"
  const GetFailed := "Error getting the user profile"
  const EmployeeMissing := "Employee doesn't exist"
  const UserMissing := "User doesn't exist"
  const DuplicateEmployee := "Employee already exists"
  const InputError := "Input Error"
  /** The Oracle error code of a unique-constraint violation. */
  const UniqueViolation := "ORA-00001"

  function ErrorResponse(status: int, message: string, detail: Option<string>): Response
  {
    Response(status, ErrorPayload(message, detail), None)
  }

  /** The answer to a failed connect. */
  function ConnectFailure(e: DbError): Exchange
  {
    Exchange(ErrorResponse(500, ConnectFailed, Some(e.message)), [Connect])
  }

  /**
   * The shape every handler shares once past its content-type check: connect;
   * if that fails answer 500 and stop (there is nothing to release);
   * otherwise execute one statement, send `answer` and release the
   * connection. An absent `answer` is a callback that throws while
   * answering, before it reaches the release.
   */
  function WithConnection<R>(db: DbOutcome<R>, call: DbCall, answer: Option<Response>): Exchange
  {
    match db.connectError
    case Some(e) => ConnectFailure(e)
    case None =>
      match answer
      case Some(r) => Exchange(r, [Connect, call, Release])
      case None => Thrown([Connect, call])
  }

  /**
   * A string Node accepts as a header value: every character is a tab or lies
   * in 0x20-0x7E or 0x80-0xFF. Setting a header to any other value throws.
   */
  predicate HeaderValue(s: string)
  {
    forall i :: 0 <= i < |s| ==> HeaderChar(s[i])
  }

  predicate HeaderChar(c: char)
  {
    c as int == 9 || 0x20 <= c as int <= 0x7E || 0x80 <= c as int <= 0xFF
  }

  /**
   * The Location of a created employee: "/employees/" followed by the body's
   * USER_NAME as a string; `None` when converting USER_NAME throws.
   */
  function CreatedLocation(body: Body): Option<string>
  {
    match ToJsString(Lookup(body, "USER_NAME"))
    case Some(text) => Some("/employees/" + text)
    case None => None
  }

  /**
   * Setting the Location header completes: USER_NAME converts to a string,
   * and Node accepts the resulting value as a header value.
   */
  predicate LocationAccepted(body: Body)
  {
    CreatedLocation(body).Some? && HeaderValue(CreatedLocation(body).value)
  }

  /** The write handlers accept only a Content-Type header equal to "application/json". */
  predicate IsJson(contentType: Option<string>)
  {
    contentType == Some(JsonType)
  }

  function UnsupportedMediaType(): Exchange
  {
    Exchange(ErrorResponse(415, WrongContentType, None), [])
  }

  // ---------------------------------------------------------------------------
  // What each handler answers once its statement has run
  // ---------------------------------------------------------------------------

  function ListAnswer(err: Option<DbError>, rows: seq<Row>): Response
  {
    match err
    case Some(e) => ErrorResponse(500, ListFailed, Some(e.message))
    case None => Response(200, RowsPayload(rows), None)
  }

  function GetAnswer(err: Option<DbError>, rows: seq<Row>): Response
  {
    if err.Some? || |rows| < 1 then
      var status := if err.Some? then 500 else 404;
      ErrorResponse(status, if err.Some? then GetFailed else EmployeeMissing,
                    if err.Some? then Some(err.value.message) else Some(""))
    else
      Response(200, RowsPayload(rows), None)
  }

  /** `None` when setting the Location header throws. */
  function InsertAnswer(err: Option<DbError>, body: Body): Option<Response>
  {
    match err
    case Some(e) =>
      Some(ErrorResponse(400, if IndexOf(e.message, UniqueViolation) > -1 then DuplicateEmployee else InputError,
                         Some(e.message)))
    case None =>
      if LocationAccepted(body) then Some(Response(201, NoPayload, CreatedLocation(body)))
      else None
  }

  function UpdateAnswer(err: Option<DbError>, rowsAffected: nat): Response
  {
    if err.Some? || rowsAffected == 0 then
      ErrorResponse(400, if err.Some? then InputError else UserMissing,
                    if err.Some? then Some(err.value.message) else Some(""))
    else
      Response(204, NoPayload, None)
  }

  function DeleteAnswer(err: Option<DbError>, rowsAffected: nat): Response
  {
    if err.Some? || rowsAffected == 0 then
      ErrorResponse(400, if err.Some? then InputError else EmployeeMissing,
                    if err.Some? then Some(err.value.message) else Some(""))
    else
      Response(204, NoPayload, None)
  }

  // ---------------------------------------------------------------------------
  // The five routes
  // ---------------------------------------------------------------------------

  /** The eleven body values, in column order, bound positionally by the INSERT. */
  function InsertValues(body: Body): (values: seq<JsValue>)
    ensures |values| == |Columns|
    ensures forall i :: 0 <= i < |Columns| ==> values[i] == Lookup(body, Columns[i])
  {
    seq(|Columns|, i requires 0 <= i < |Columns| => Lookup(body, Columns[i]))
  }

  /** GET /employees */
  function ListEmployees(db: DbOutcome<seq<Row>>): Exchange
  {
    WithConnection(db, Execute(SelectAllSql, Named(map[])), Some(ListAnswer(db.executeError, db.result)))
  }

  /** GET /employees/:EMPLOYEE_ID */
  function GetEmployee(params: Params, db: DbOutcome<seq<Row>>): Exchange
  {
    WithConnection(db, Execute(SelectByIdSql, Positional([Param(params, "EMPLOYEE_ID")])),
                   Some(GetAnswer(db.executeError, db.result)))
  }

  /** POST /employees */
  function CreateEmployee(req: Request, db: DbOutcome<()>): Exchange
  {
    if !IsJson(req.contentType) then UnsupportedMediaType()
    else
      WithConnection(db, Execute(InsertSql, Positional(InsertValues(req.body))),
                     InsertAnswer(db.executeError, req.body))
  }

  /** PUT /employees/:EMPLOYEE_ID */
  function UpdateEmployee(req: Request, db: DbOutcome<nat>): Exchange
  {
    if !IsJson(req.contentType) then UnsupportedMediaType()
    else
      WithConnection(db, Execute(UpdateStatement(req.body), Named(UpdateBinds(req.body, req.params))),
                     Some(UpdateAnswer(db.executeError, db.result)))
  }

  /** DELETE /employees/:EMPLOYEE_ID */
  function DeleteEmployee(params: Params, db: DbOutcome<nat>): Exchange
  {
    WithConnection(db, Execute(DeleteSql, Positional([Param(params, "EMPLOYEE_ID")])),
                   Some(DeleteAnswer(db.executeError, db.result)))
  }

  // ---------------------------------------------------------------------------
  // Properties
  // ---------------------------------------------------------------------------

  /**
   * A request either makes no driver call, or only a failed connect, or
   * connect, one execute and release, in that order: whatever was acquired is
   * released exactly once, and nothing is released that was not acquired.
   */
  predicate Scoped(calls: seq<DbCall>)
  {
    || calls == []
    || calls == [Connect]
    || (|calls| == 3 && calls[0] == Connect && calls[1].Execute? && calls[2] == Release)
  }

  /**
   * POST and PUT answer 415 exactly when the Content-Type header is not
   * exactly "application/json", and then make no driver call at all;
   * otherwise their first call is the connect.
   */
  lemma MediaTypeGate(req: Request, insert: DbOutcome<()>, update: DbOutcome<nat>)
    ensures (CreateEmployee(req, insert).Exchange? && CreateEmployee(req, insert).response.status == 415)
      <==> !IsJson(req.contentType)
    ensures UpdateEmployee(req, update).response.status == 415 <==> !IsJson(req.contentType)
    ensures !IsJson(req.contentType) ==>
      && CreateEmployee(req, insert) == UpdateEmployee(req, update)
      && CreateEmployee(req, insert) == Exchange(ErrorResponse(415, WrongContentType, None), [])
    ensures IsJson(req.contentType) ==>
      CreateEmployee(req, insert).calls[0] == Connect && UpdateEmployee(req, update).calls[0] == Connect
  {
  }

  /**
   * In every handler a failed connect answers 500 "Error connecting to DB"
   * with the driver's message and stops, whatever the execute fields hold
   * (they are never read). POST and PUT get that far only with a JSON
   * Content-Type.
   */
  lemma ConnectionFailure(req: Request, q: DbOutcome<seq<Row>>, ins: DbOutcome<()>, chg: DbOutcome<nat>)
    ensures q.connectError.Some? ==>
      && ListEmployees(q) == ConnectFailure(q.connectError.value)
      && GetEmployee(req.params, q) == ConnectFailure(q.connectError.value)
    ensures IsJson(req.contentType) && ins.connectError.Some? ==>
      CreateEmployee(req, ins) == ConnectFailure(ins.connectError.value)
    ensures IsJson(req.contentType) && chg.connectError.Some? ==>
      UpdateEmployee(req, chg) == ConnectFailure(chg.connectError.value)
    ensures chg.connectError.Some? ==> DeleteEmployee(req.params, chg) == ConnectFailure(chg.connectError.value)
    ensures forall e :: ConnectFailure(e) == Exchange(ErrorResponse(500, ConnectFailed, Some(e.message)), [Connect])
  {
  }

  /**
   * Every handler's driver calls are scoped whenever it answers, and it
   * releases exactly when it connected successfully and did not throw.
   * Only POST can throw: when setting its Location header throws, after the
   * insert and before the release.
   */
  lemma ReleaseDiscipline(req: Request, q: DbOutcome<seq<Row>>, ins: DbOutcome<()>, chg: DbOutcome<nat>)
    ensures ListEmployees(q).Exchange? && Scoped(ListEmployees(q).calls)
    ensures GetEmployee(req.params, q).Exchange? && Scoped(GetEmployee(req.params, q).calls)
    ensures UpdateEmployee(req, chg).Exchange? && Scoped(UpdateEmployee(req, chg).calls)
    ensures DeleteEmployee(req.params, chg).Exchange? && Scoped(DeleteEmployee(req.params, chg).calls)
    ensures CreateEmployee(req, ins).Exchange? ==> Scoped(CreateEmployee(req, ins).calls)
    ensures CreateEmployee(req, ins).Thrown? ==>
      CreateEmployee(req, ins).calls == [Connect, Execute(InsertSql, Positional(InsertValues(req.body)))]
    ensures Release in ListEmployees(q).calls <==> q.connectError.None?
    ensures Release in GetEmployee(req.params, q).calls <==> q.connectError.None?
    ensures Release in CreateEmployee(req, ins).calls <==>
      && IsJson(req.contentType) && ins.connectError.None?
      && (ins.executeError.None? ==> LocationAccepted(req.body))
    ensures Release in UpdateEmployee(req, chg).calls <==> IsJson(req.contentType) && chg.connectError.None?
    ensures Release in DeleteEmployee(req.params, chg).calls <==> chg.connectError.None?
  {
  }

  /** GET /employees: a query error answers 500; otherwise 200 with exactly the rows, an empty table included. */
  lemma ListOutcomes(db: DbOutcome<seq<Row>>)
    requires db.connectError.None?
    ensures ListEmployees(db).calls == [Connect, Execute(SelectAllSql, Named(map[])), Release]
    ensures db.executeError.Some? ==>
      ListEmployees(db).response == ErrorResponse(500, ListFailed, Some(db.executeError.value.message))
    ensures db.executeError.None? ==> ListEmployees(db).response == Response(200, RowsPayload(db.result), None)
  {
  }

  /**
   * GET /employees/:EMPLOYEE_ID binds the route identifier; an execute error
   * answers 500 whatever the rows (the error takes precedence); no rows
   * answers 404 "Employee doesn't exist"; one or more rows answer 200 with them.
   */
  lemma GetOutcomes(params: Params, db: DbOutcome<seq<Row>>, otherRows: seq<Row>)
    requires db.connectError.None?
    ensures GetEmployee(params, db).calls[1] == Execute(SelectByIdSql, Positional([Param(params, "EMPLOYEE_ID")]))
    ensures db.executeError.Some? ==>
      && GetEmployee(params, db).response == ErrorResponse(500, GetFailed, Some(db.executeError.value.message))
      && GetEmployee(params, db.(result := otherRows)) == GetEmployee(params, db)
    ensures db.executeError.None? && db.result == [] ==>
      GetEmployee(params, db).response == ErrorResponse(404, EmployeeMissing, Some(""))
    ensures db.executeError.None? && db.result != [] ==>
      GetEmployee(params, db).response == Response(200, RowsPayload(db.result), None)
  {
  }

  /**
   * POST /employees binds the eleven body values in column order. An insert
   * error answers 400, with "Employee already exists" exactly when its message
   * contains "ORA-00001" and "Input Error" otherwise. A successful insert
   * answers 201 with Location "/employees/" followed by the body's USER_NAME
   * when setting that header completes; otherwise it throws, no response is
   * sent and the connection is not released.
   */
  lemma CreateOutcomes(req: Request, db: DbOutcome<()>)
    requires IsJson(req.contentType) && db.connectError.None?
    ensures var call := Execute(InsertSql, Positional(InsertValues(req.body)));
      && (db.executeError.Some? ==>
            var m := db.executeError.value.message;
            CreateEmployee(req, db) ==
              Exchange(ErrorResponse(400, if exists i :: OccursAt(m, UniqueViolation, i) then DuplicateEmployee else InputError,
                                     Some(m)),
                       [Connect, call, Release]))
      && (db.executeError.None? && LocationAccepted(req.body) ==>
            var location := "/employees/" + ToJsString(Lookup(req.body, "USER_NAME")).value;
            CreateEmployee(req, db) == Exchange(Response(201, NoPayload, Some(location)), [Connect, call, Release]))
      && (db.executeError.None? && !LocationAccepted(req.body) ==>
            CreateEmployee(req, db) == Thrown([Connect, call]))
  {
    if db.executeError.Some? {
      IndexOfFindsFirst(db.executeError.value.message, UniqueViolation);
    }
  }

  /**
   * Setting the Location throws exactly when USER_NAME is a string holding a
   * character Node refuses in a header, or an object or array whose
   * conversion throws or whose text holds such a character. "/employees/",
   * "undefined", "null", "true", "false" and numerals are all plain ASCII.
   */
  lemma LocationCharacters(body: Body)
    ensures var v := Lookup(body, "USER_NAME");
      LocationAccepted(body) <==>
        && (v.Str? ==> HeaderValue(v.s))
        && (v.Obj? ==> v.text.Some? && HeaderValue(v.text.value))
  {
    var v := Lookup(body, "USER_NAME");
    assert HeaderValue("/employees/");
    match v
    case Num(n) =>
      var digits := Decimal(if n < 0 then -n else n);
      HeaderValueConcat("-", digits);
      assert HeaderValue(digits);
      HeaderValueConcat("/employees/", ToJsString(v).value);
    case Undefined =>
      assert HeaderValue("undefined");
      HeaderValueConcat("/employees/", "undefined");
    case Null =>
      assert HeaderValue("null");
      HeaderValueConcat("/employees/", "null");
    case Bool(b) =>
      assert HeaderValue("true") && HeaderValue("false");
      HeaderValueConcat("/employees/", ToJsString(v).value);
    case Str(text) =>
      HeaderValueConcat("/employees/", text);
    case Obj(text) =>
      if text.Some? {
        HeaderValueConcat("/employees/", text.value);
      }
  }

  lemma HeaderValueConcat(a: string, b: string)
    ensures HeaderValue(a + b) <==> HeaderValue(a) && HeaderValue(b)
  {
    var ab := a + b;
    if HeaderValue(a) && HeaderValue(b) {
      forall i | 0 <= i < |ab| ensures HeaderChar(ab[i]) {
        if i < |a| { assert ab[i] == a[i]; } else { assert ab[i] == b[i - |a|]; }
      }
    }
    if HeaderValue(ab) {
      forall i | 0 <= i < |a| ensures HeaderChar(a[i]) { assert ab[i] == a[i]; }
      forall i | 0 <= i < |b| ensures HeaderChar(b[i]) { assert ab[|a| + i] == b[i]; }
    }
  }

  /** A body of the eleven columns has no USER_NAME, so a created employee gets Location "/employees/undefined". */
  lemma LocationWithoutUserName(req: Request, db: DbOutcome<()>)
    requires IsJson(req.contentType) && db.connectError.None? && db.executeError.None?
    requires "USER_NAME" !in req.body
    ensures CreateEmployee(req, db).Exchange?
    ensures CreateEmployee(req, db).response == Response(201, NoPayload, Some("/employees/undefined"))
  {
    LocationCharacters(req.body);
    assert ToJsString(Lookup(req.body, "USER_NAME")) == Some("undefined");
    assert "/employees/" + "undefined" == "/employees/undefined";
  }

  /**
   * A USER_NAME object whose "toString" key holds a non-function makes a
   * successful insert throw: no response and no release.
   */
  lemma ObjectUserNameThrows(req: Request, db: DbOutcome<()>)
    requires IsJson(req.contentType) && db.connectError.None? && db.executeError.None?
    requires Lookup(req.body, "USER_NAME") == Obj(None)
    ensures CreateEmployee(req, db) == Thrown([Connect, Execute(InsertSql, Positional(InsertValues(req.body)))])
  {
    LocationCharacters(req.body);
  }

  /**
   * PUT /employees/:EMPLOYEE_ID executes the built statement with the built
   * binds; an execute error answers 400 "Input Error" whatever the row count
   * (the error takes precedence); zero rows affected answers 400 "User doesn't
   * exist"; otherwise 204 with no body.
   */
  lemma UpdateOutcomes(req: Request, db: DbOutcome<nat>, otherCount: nat)
    requires IsJson(req.contentType) && db.connectError.None?
    ensures UpdateEmployee(req, db).calls[1] ==
      Execute(UpdateStatement(req.body), Named(UpdateBinds(req.body, req.params)))
    ensures db.executeError.Some? ==>
      && UpdateEmployee(req, db).response == ErrorResponse(400, InputError, Some(db.executeError.value.message))
      && UpdateEmployee(req, db.(result := otherCount)) == UpdateEmployee(req, db)
    ensures db.executeError.None? && db.result == 0 ==>
      UpdateEmployee(req, db).response == ErrorResponse(400, UserMissing, Some(""))
    ensures db.executeError.None? && db.result > 0 ==>
      UpdateEmployee(req, db).response == Response(204, NoPayload, None)
  {
  }

  /**
   * The route identifier of PUT /employees/:EMPLOYEE_ID has no influence on
   * what is executed or answered: the statement is built from the body alone.
   */
  lemma UpdateIgnoresRouteId(req: Request, db: DbOutcome<nat>, id: string)
    ensures UpdateEmployee(req.(params := req.params["EMPLOYEE_ID" := id]), db) == UpdateEmployee(req, db)
  {
    WherePlaceholderBinding(req.body, req.params, id);
  }

  /**
   * DELETE /employees/:EMPLOYEE_ID binds the route identifier; an execute
   * error answers 400 "Input Error" whatever the row count; zero rows affected
   * answers 400 "Employee doesn't exist"; otherwise 204 with no body.
   */
  lemma DeleteOutcomes(params: Params, db: DbOutcome<nat>, otherCount: nat)
    requires db.connectError.None?
    ensures DeleteEmployee(params, db).calls[1] == Execute(DeleteSql, Positional([Param(params, "EMPLOYEE_ID")]))
    ensures db.executeError.Some? ==>
      && DeleteEmployee(params, db).response == ErrorResponse(400, InputError, Some(db.executeError.value.message))
      && DeleteEmployee(params, db.(result := otherCount)) == DeleteEmployee(params, db)
    ensures db.executeError.None? && db.result == 0 ==>
      DeleteEmployee(params, db).response == ErrorResponse(400, EmployeeMissing, Some(""))
    ensures db.executeError.None? && db.result > 0 ==>
      DeleteEmployee(params, db).response == Response(204, NoPayload, None)
  {
  }

  /** The statuses each route can answer with. */
  lemma RouteStatuses(req: Request, q: DbOutcome<seq<Row>>, ins: DbOutcome<()>, chg: DbOutcome<nat>)
    ensures ListEmployees(q).response.status in {200, 500}
    ensures GetEmployee(req.params, q).response.status in {200, 404, 500}
    ensures CreateEmployee(req, ins).Exchange? ==> CreateEmployee(req, ins).response.status in {201, 400, 415, 500}
    ensures UpdateEmployee(req, chg).response.status in {204, 400, 415, 500}
    ensures DeleteEmployee(req.params, chg).response.status in {204, 400, 500}
  {
  }
}
