# Employee service: UPDATE builder and route decisions

This project models the core of `emp_server.js`, a small Express service that
exposes CRUD routes over an Oracle `EMPLOYEES` table.

- `UpdateBuilder` models `buildUpdateStatement`.
  - Its eleven column blocks append `COL = :COL` to a comma-joined SET list whenever the body value of the column is truthy. Each block also records a bind value.
  - The builder then adds ` WHERE EMPLOYEE_ID = :EMPLOYEE_ID`, binds USER_NAME from the route parameter USER_NAME, and prefixes `UPDATE EMPLOYEES SET `.
  - The builder is the method `BuildUpdateStatement`. It updates a statement string and a bind map block by block, one block being the method `AppendColumn`.
  - The method is proved to compute exactly the specification functions `UpdateStatement` and `UpdateBinds`. The lemmas about those functions state:
    - what the SET list holds;
    - in which order;
    - how it splits back at ", ";
    - where WHERE occurs;
    - what the bind map holds.
- `Handlers` models the five route handlers as functions, each stated by its own lemma:
  - `ListEmployees` models GET /employees (emp_server.js:13-57), stated by `ListOutcomes`;
  - `GetEmployee` models GET /employees/:EMPLOYEE_ID (emp_server.js:62-106), stated by `GetOutcomes`;
  - `CreateEmployee` models POST /employees (emp_server.js:111-164), stated by `CreateOutcomes`; its callback's decision after the insert (emp_server.js:140-152) is `InsertAnswer`, and `LocationCharacters` states when it throws;
  - `UpdateEmployee` models PUT /employees/:EMPLOYEE_ID (emp_server.js:240-292), stated by `UpdateOutcomes` and `UpdateIgnoresRouteId`;
  - `DeleteEmployee` models DELETE /employees/:EMPLOYEE_ID (emp_server.js:297-340), stated by `DeleteOutcomes`.
  - `MediaTypeGate`, `ConnectionFailure`, `ReleaseDiscipline` and `RouteStatuses` state what the handlers share.
  - Their inputs are the request and what the Oracle driver reports (`DbOutcome`): the connect error, and the execute error and result.
  - Their output is an `Exchange`: the response (status, JSON error object or rows, Location header) and the driver calls made (`Connect`, `Execute(sql, binds)`, `Release`). When a handler throws inside the driver callback, the output is `Thrown`: the calls made so far, with no response.
- `JsValues` gives the JavaScript semantics the code relies on:
  - truthiness (`Truthy`);
  - property access that yields `undefined` for a missing key: `Lookup` defines `req.body.X` and `Param` defines `req.params.X`;
  - string conversion in `'/employees/' + value` (`ToJsString`), which is `None` when converting an object throws, and whose number case `NumberText` relates to the independent numeral reader `DigitsValue`;
  - `String.prototype.indexOf` (`IndexOf`), tied to the independent `OccursAt` by `IndexOfFindsFirst`.
- `Handlers.InsertValues` defines the array literal of the eleven body values at emp_server.js:134-136. `CreateOutcomes` states what the INSERT binds.

Two defects of the builder are modelled as written and stated as lemmas:
- The LAST_NAME block records `body.EMAIL` under the key EMAIL and binds no LAST_NAME value (`LastNameBindsEmail`).
- The identifier is bound under USER_NAME from `req.params.USER_NAME`, which the route `/employees/:EMPLOYEE_ID` never defines, so that bind is always `undefined` (`IdentifierBindUndefined`). The WHERE placeholder `:EMPLOYEE_ID` is bound only from a truthy body EMPLOYEE_ID (`WherePlaceholderBinding`), so the route identifier has no effect on an update (`UpdateIgnoresRouteId`).

Behaviours of the code worth knowing, all modelled as written:
- GET by id answers 200 for any non-empty row list, one row or several (line 82).
- The Location of a created employee is built from `body.USER_NAME`, not from EMPLOYEE_ID (line 151). A body of the eleven columns therefore yields `/employees/undefined`.
- A PUT with no truthy column is not rejected (lines 167-229). It executes `UPDATE EMPLOYEES SET  WHERE EMPLOYEE_ID = :EMPLOYEE_ID` (`EmptySetList`).
- "Not found" is a 404 for GET by id (line 84) but a 400 for PUT (line 272) and DELETE (line 319).
- A connection is released only when connecting succeeded. A failed connect answers 500 and returns before any execute or release (for example lines 18-26).
- After a successful insert, line 151 passes `'/employees/' + req.body.USER_NAME` to `res.set`, and Node's `setHeader` throws on a character outside tab, 0x20-0x7E and 0x80-0xFF. A USER_NAME such as "a\nb" therefore ends the callback with no response and before the release at line 154 (`Thrown` in the model, `LocationCharacters`). So does an object or array USER_NAME whose text holds such a character, and an object whose "toString" key holds a non-function, since converting it throws a TypeError (`ObjectUserNameThrows`).

## Model

| member | source | states |
|---|---|---|
| JsValues.NumberText | emp_server.js:151 | a number concatenated into a string becomes its decimal numeral (no leading zero unless "0"), preceded by "-" when negative, and that numeral reads back as the number's magnitude; this is JavaScript's text for magnitudes below 2^53 |
| JsValues.DecimalValue | emp_server.js:151 | reading the printed digits of a non-negative integer back gives that integer |
| JsValues.IndexOfFindsFirst | emp_server.js:146 | `indexOf` returns the first index where the substring occurs, and -1 exactly when it occurs nowhere |
| UpdateBuilder.AppendColumn | emp_server.js:173-226 | any one of the eleven column blocks (the first, at 173-176, has nothing before it, so its separator test never fires): the statement and binds after the block are the SET list and bind map of the columns visited so far plus this one |
| UpdateBuilder.BuildUpdateStatement | emp_server.js:167-235 | the builder returns exactly the statement `UpdateStatement(body)` and the bind map `UpdateBinds(body, params)` |
| UpdateBuilder.SetListIsJoin | emp_server.js:173-226 | the accumulated SET list is the ", "-join of `COL = :COL` over the truthy columns, in order |
| UpdateBuilder.TruthyColumnsMembers | emp_server.js:173-226 | a column is listed exactly when it is one of the visited columns and its body value is truthy |
| UpdateBuilder.TruthyColumnsCount | emp_server.js:173-226 | over distinct columns, each truthy column is listed once and every other column never |
| UpdateBuilder.TruthyColumnsOrdered | emp_server.js:173-226 | the listed columns keep the visiting order |
| UpdateBuilder.SetListContents | emp_server.js:173-226 | the non-empty SET list splits at ", " into the assignments of listed columns, all of them table columns; each of the eleven assignments occurs exactly once if its column is truthy and never otherwise, in table column order |
| UpdateBuilder.SetListSplits | emp_server.js:173-226 | the SET list is empty exactly when no column is truthy; otherwise splitting it at ", " gives back exactly the assignments, so no separator leads, trails or doubles |
| UpdateBuilder.EmptySetList | emp_server.js:173-229 | the statement is the prefix followed directly by the WHERE clause exactly when no column is truthy |
| UpdateBuilder.NoWInSetList | emp_server.js:173-226 | the SET list contains no 'W', so it cannot contain another WHERE |
| UpdateBuilder.StatementShape | emp_server.js:227-229 | the statement starts with `UPDATE EMPLOYEES SET `, ends with ` WHERE EMPLOYEE_ID = :EMPLOYEE_ID`, and " WHERE" occurs in it exactly once |
| UpdateBuilder.ColumnBindsSpec | emp_server.js:173-226 | the recorded bind keys are the bind keys of the truthy columns, each holding the body's value for that key |
| UpdateBuilder.UpdateBindsContents | emp_server.js:173-228 | columns other than LAST_NAME and EMAIL are bound iff truthy; EMAIL is bound iff EMAIL or LAST_NAME is truthy; LAST_NAME is never bound; values are the body's; USER_NAME holds the route parameter; nothing else is bound |
| UpdateBuilder.WherePlaceholderBinding | emp_server.js:173-228 | `:EMPLOYEE_ID` is bound iff the body EMPLOYEE_ID is truthy, to that value; changing the route identifier changes no bind |
| UpdateBuilder.IdentifierBindUndefined | emp_server.js:228 | on a route that only declares EMPLOYEE_ID, the USER_NAME bind is `undefined` |
| UpdateBuilder.LastNameBindsEmail | emp_server.js:182-186 | a truthy LAST_NAME puts `LAST_NAME = :LAST_NAME` in the SET list, binds no LAST_NAME, and binds `body.EMAIL` under EMAIL |
| Handlers.MediaTypeGate | emp_server.js:113-120 | POST (and PUT alike, lines 243-250) answers 415 with a null detail exactly when Content-Type is not exactly "application/json", and then makes no driver call |
| Handlers.ConnectionFailure | emp_server.js:17-26 | every handler answers a failed connect with 500 "Error connecting to DB" and the driver's message, and makes no call after the connect, whatever the execute fields hold; POST and PUT reach the connect only with a JSON Content-Type |
| Handlers.ReleaseDiscipline | emp_server.js:29-55 | GET, PUT and DELETE always answer, and their calls are none, a failed connect, or connect, one execute and release; POST does the same unless it throws, and then its calls are exactly connect and the insert; a handler releases exactly when it connected and did not throw, which for POST means the insert failed or its Location converts to a string Node accepts as a header value |
| Handlers.ListOutcomes | emp_server.js:29-45 | GET /employees runs the unfiltered select; a query error answers 500 "Error getting the employee"; otherwise 200 with exactly the rows, including none |
| Handlers.GetOutcomes | emp_server.js:79-93 | GET by id binds the route identifier; an error answers 500 whatever the rows; no rows answers 404 "Employee doesn't exist"; otherwise 200 with the rows |
| Handlers.CreateOutcomes | emp_server.js:131-154 | POST executes the INSERT with the eleven body values bound positionally in table column order (a missing one as `undefined`); an insert error answers 400 "Employee already exists" iff its message contains ORA-00001, else 400 "Input Error", with the message as detail, then releases; success answers 201 with Location "/employees/" + body.USER_NAME and releases when USER_NAME converts to a string and Node accepts the result as a header value, and otherwise throws with no response and no release |
| Handlers.LocationCharacters | emp_server.js:151 | setting the Location throws exactly when USER_NAME is a string holding a character other than tab, 0x20-0x7E and 0x80-0xFF, or an object or array whose conversion throws or whose text holds such a character; undefined, null, booleans and numbers print as plain ASCII |
| Handlers.ObjectUserNameThrows | emp_server.js:151 | after a successful insert, a USER_NAME object whose conversion throws leaves the request with no response and its calls exactly connect and the insert, with no release |
| Handlers.LocationWithoutUserName | emp_server.js:151 | a created employee whose body has no USER_NAME is answered 201 with Location "/employees/undefined" |
| Handlers.UpdateOutcomes | emp_server.js:262-279 | PUT executes the built statement and binds; an error answers 400 "Input Error" whatever the count; zero rows answers 400 "User doesn't exist"; otherwise 204 |
| Handlers.UpdateIgnoresRouteId | emp_server.js:262-264 | the route identifier of PUT has no influence on what is executed or answered |
| Handlers.DeleteOutcomes | emp_server.js:312-326 | DELETE binds the route identifier; an error answers 400 "Input Error" whatever the count; zero rows answers 400 "Employee doesn't exist"; otherwise 204 |
| Handlers.RouteStatuses | emp_server.js:13-326 | the statuses per route: GET all {200, 500}, GET by id {200, 404, 500}, POST {201, 400, 415, 500}, PUT {204, 400, 415, 500}, DELETE {204, 400, 500} |

## Left out

- The Express wiring (`app.get`, `app.listen`, body-parser), the callback chaining and all I/O are left out. The driver's results are inputs (`DbOutcome`), and the driver calls are recorded as a sequence.
- The response headers are left out: Content-Type, and the CORS headers that some branches set. So is the `status` field of the JSON error object, which always equals the response status. `JSON.stringify` of the rows is kept abstract as the row list.
- Logging on release (`console.log`/`console.error`) is left out, and so are release errors, which the code only logs.
- The DELETE handler passes the undeclared identifier `connAttrs` (emp_server.js:300) to `getConnection`. As written, every DELETE ends in that ReferenceError: no driver call is made, and Express answers with its default 500 page. `DeleteEmployee` is modelled as if line 300 passed `dbConfig` like the other routes. That covers its connect-failure branch (lines 301-310) and its decisions after execute (lines 312-326). `ConnectionFailure`, `ReleaseDiscipline` and `RouteStatuses` state DELETE's behaviour under that reading.
- Repeating a DELETE is not modelled. The table is external, and its row count reaches the handlers only as `rowsAffected`.
- Every JSON number is modelled as an integer, so a body value such as a COMMISSION_PCT of 0.35 cannot be expressed. No decision depends on it: a non-zero fraction is truthy like a non-zero integer, and the builder and the handlers copy values without inspecting them.
- JsValues.ToJsString: prints integers only, exactly. Fractions and exponent notation (from 10^21) are not modelled. From 2^53 in magnitude JavaScript prints the shortest digits that read back as the same double, padded with zeros, so 2^64 prints as 18446744073709552000; the model prints every digit. An object or array carries its conversion result as a parameter (`Obj(text)`), so the model does not compute an array's comma-joined elements; it only distinguishes a text from a conversion that throws.
- JsValues.NumberText: the numeral it describes is JavaScript's only for magnitudes below 2^53. Above that, a numeric USER_NAME gives a Location whose digits differ from the source's.
- Handlers.CreateOutcomes: when setting the Location throws, the exception is uncaught in an asynchronous callback, so Node terminates the process with every other request in flight. The model records only that this request gets no response and its connection is not released.
- UpdateBuilder.AppendColumn: the eleven near-identical blocks of the builder are written as one block method called eleven times. Each call names the column it tests and the key it binds.
- The database's handling of the executed SQL is not modelled: constraint checks, auto-commit, and the rejection of an empty SET list.
