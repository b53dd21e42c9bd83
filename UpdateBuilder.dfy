/**
 * The UPDATE statement builder of the employee service (`buildUpdateStatement`).
 *
 * The specification is given as functions over the list of the eleven known
 * columns: `SetList` is the comma-joined list of the assignments of the
 * columns whose body value is truthy, and `ColumnBinds` the bind values the
 * builder records for them. `BuildUpdateStatement` is the builder itself,
 * eleven sequential blocks that update a string and a bind map in place, and
 * it is proved to compute exactly `UpdateStatement` and `UpdateBinds`.
 *
 * Two defects of the builder are kept as they are and stated as lemmas:
 * a truthy LAST_NAME records `body.EMAIL` under the key EMAIL (and no
 * LAST_NAME bind), and the identifier is bound under USER_NAME from the route
 * parameter USER_NAME, which the route `/employees/:EMPLOYEE_ID` never has.
 */
module UpdateBuilder {
  import opened JsValues

  /** A parsed JSON request body. */
  type Body = map<string, JsValue>

  /** The route parameters of the request. */
  type Params = map<string, string>

  /** The columns of the EMPLOYEES table, in the order the builder visits them. */
  const Columns: seq<string> := [
    "EMPLOYEE_ID", "FIRST_NAME", "LAST_NAME", "EMAIL", "PHONE_NUMBER", "HIRE_DATE",
    "JOB_ID", "SALARY", "COMMISSION_PCT", "MANAGER_ID", "DEPARTMENT_ID"
  ]

  const SetPrefix := "UPDATE EMPLOYEES SET "
  const WhereClause := " WHERE EMPLOYEE_ID = :EMPLOYEE_ID"
  const Separator := ", "
  /** The key under which the builder records the route identifier. */
  const IdentifierKey := "USER_NAME"

  /** The SET-list entry for a column: `COL = :COL`. */
  function Assignment(col: string): string
  {
    col + " = :" + col
  }

  /** The columns of `cols` whose body value is truthy, in the order of `cols`. */
  function TruthyColumns(body: Body, cols: seq<string>): seq<string>
  {
    if cols == [] then []
    else
      var c := cols[|cols| - 1];
      var before := TruthyColumns(body, cols[..|cols| - 1]);
      if Truthy(Lookup(body, c)) then before + [c] else before
  }

  function Assignments(cols: seq<string>): (r: seq<string>)
    ensures |r| == |cols|
    ensures forall i :: 0 <= i < |cols| ==> r[i] == Assignment(cols[i])
  {
    seq(|cols|, i requires 0 <= i < |cols| => Assignment(cols[i]))
  }

  /** `items.join(", ")`. */
  function Join(items: seq<string>): string
  {
    if items == [] then ""
    else if |items| == 1 then items[0]
    else items[0] + Separator + Join(items[1..])
  }

  /** `s.split(", ")`: the pieces of `s` between the separators. */
  function Split(s: string): (r: seq<string>)
    ensures |r| >= 1
    decreases |s|
  {
    if s == [] then [""]
    else if |s| >= 2 && s[0] == ',' && s[1] == ' ' then [""] + Split(s[2..])
    else
      var rest := Split(s[1..]);
      [[s[0]] + rest[0]] + rest[1..]
  }

  /**
   * The SET list the builder has accumulated after visiting the columns
   * `cols`: a truthy column appends its assignment, after ", " when the list
   * is already non-empty.
   */
  function SetList(body: Body, cols: seq<string>): string
  {
    if cols == [] then ""
    else
      var c := cols[|cols| - 1];
      var before := SetList(body, cols[..|cols| - 1]);
      if !Truthy(Lookup(body, c)) then before
      else if before == "" then Assignment(c)
      else before + Separator + Assignment(c)
  }

  /** The statement text `buildUpdateStatement` returns. */
  function UpdateStatement(body: Body): string
  {
    SetPrefix + SetList(body, Columns) + WhereClause
  }

  /** The bind key a truthy column writes: LAST_NAME writes EMAIL, every other column its own name. */
  function BindKey(col: string): string
  {
    if col == "LAST_NAME" then "EMAIL" else col
  }

  /** The bind values recorded for the truthy columns of `cols`, in order, later writes winning. */
  function ColumnBinds(body: Body, cols: seq<string>): map<string, JsValue>
  {
    if cols == [] then map[]
    else
      var c := cols[|cols| - 1];
      var before := ColumnBinds(body, cols[..|cols| - 1]);
      if Truthy(Lookup(body, c)) then before[BindKey(c) := Lookup(body, BindKey(c))] else before
  }

  /** The bind values `buildUpdateStatement` returns. */
  function UpdateBinds(body: Body, params: Params): map<string, JsValue>
  {
    ColumnBinds(body, Columns)[IdentifierKey := Param(params, IdentifierKey)]
  }

  // ---------------------------------------------------------------------------
  // The builder as the source writes it
  // ---------------------------------------------------------------------------

  /**
   * One of the eleven blocks of `buildUpdateStatement`, which differ only in
   * the column they test and the key they bind: when the body value of `col`
   * is truthy, append ", " if the statement is non-empty, then `COL = :COL`,
   * and record the body value of `key` under `key`. Every block binds its own
   * column except the LAST_NAME block, which binds EMAIL.
   */
  method AppendColumn(statement: string, binds: map<string, JsValue>, body: Body, col: string, key: string,
                      ghost done: seq<string>)
    returns (statement': string, binds': map<string, JsValue>)
    requires statement == SetList(body, done) && binds == ColumnBinds(body, done)
    requires key == BindKey(col)
    ensures statement' == SetList(body, done + [col])
    ensures binds' == ColumnBinds(body, done + [col])
  {
    assert (done + [col])[..|done|] == done;
    statement', binds' := statement, binds;
    if Truthy(Lookup(body, col)) {
      if statement' != "" { statement' := statement' + ", "; }
      statement' := statement' + col + " = :" + col;
      binds' := binds'[key := Lookup(body, key)];
    }
  }

  /**
   * `buildUpdateStatement(req)`: the eleven column blocks in table order, then
   * the WHERE clause, the identifier bind under USER_NAME taken from the route
   * parameter USER_NAME, and the `UPDATE EMPLOYEES SET ` prefix.
   */
  method BuildUpdateStatement(body: Body, params: Params) returns (statement: string, binds: map<string, JsValue>)
    ensures statement == UpdateStatement(body)
    ensures binds == UpdateBinds(body, params)
  {
    statement, binds := "", map[];
    ghost var done: seq<string> := [];  // the columns visited so far
    statement, binds := AppendColumn(statement, binds, body, "EMPLOYEE_ID", "EMPLOYEE_ID", done);
    done := done + ["EMPLOYEE_ID"];
    statement, binds := AppendColumn(statement, binds, body, "FIRST_NAME", "FIRST_NAME", done);
    done := done + ["FIRST_NAME"];
    statement, binds := AppendColumn(statement, binds, body, "LAST_NAME", "EMAIL", done);
    done := done + ["LAST_NAME"];
    statement, binds := AppendColumn(statement, binds, body, "EMAIL", "EMAIL", done);
    done := done + ["EMAIL"];
    statement, binds := AppendColumn(statement, binds, body, "PHONE_NUMBER", "PHONE_NUMBER", done);
    done := done + ["PHONE_NUMBER"];
    statement, binds := AppendColumn(statement, binds, body, "HIRE_DATE", "HIRE_DATE", done);
    done := done + ["HIRE_DATE"];
    statement, binds := AppendColumn(statement, binds, body, "JOB_ID", "JOB_ID", done);
    done := done + ["JOB_ID"];
    statement, binds := AppendColumn(statement, binds, body, "SALARY", "SALARY", done);
    done := done + ["SALARY"];
    statement, binds := AppendColumn(statement, binds, body, "COMMISSION_PCT", "COMMISSION_PCT", done);
    done := done + ["COMMISSION_PCT"];
    statement, binds := AppendColumn(statement, binds, body, "MANAGER_ID", "MANAGER_ID", done);
    done := done + ["MANAGER_ID"];
    statement, binds := AppendColumn(statement, binds, body, "DEPARTMENT_ID", "DEPARTMENT_ID", done);
    done := done + ["DEPARTMENT_ID"];
    assert done == Columns;
    statement := statement + WhereClause;
    binds := binds[IdentifierKey := Param(params, IdentifierKey)];
    statement := SetPrefix + statement;
  }

  // ---------------------------------------------------------------------------
  // The SET list as a comma-joined list of assignments
  // ---------------------------------------------------------------------------

  lemma {:induction false} JoinSnoc(items: seq<string>, x: string)
    ensures Join(items + [x]) == if items == [] then x else Join(items) + Separator + x
    decreases |items|
  {
    if |items| >= 2 {
      assert (items + [x])[1..] == items[1..] + [x];
      JoinSnoc(items[1..], x);
    } else if |items| == 1 {
      assert (items + [x])[1..] == [x];
    }
  }

  lemma {:induction false} JoinEmpty(items: seq<string>)
    requires forall i :: 0 <= i < |items| ==> items[i] != ""
    ensures Join(items) == "" <==> items == []
  {
    if |items| >= 2 {
      assert Join(items)[0] == items[0][0];
    }
  }

  /** The accumulated SET list is the ", "-join of the assignments of the truthy columns, in order. */
  lemma {:induction false} SetListIsJoin(body: Body, cols: seq<string>)
    ensures SetList(body, cols) == Join(Assignments(TruthyColumns(body, cols)))
  {
    if cols != [] {
      var init := cols[..|cols| - 1];
      var c := cols[|cols| - 1];
      SetListIsJoin(body, init);
      var before := TruthyColumns(body, init);
      if Truthy(Lookup(body, c)) {
        assert Assignments(before + [c]) == Assignments(before) + [Assignment(c)];
        JoinSnoc(Assignments(before), Assignment(c));
        JoinEmpty(Assignments(before));
      }
    }
  }

  // ---------------------------------------------------------------------------
  // Properties of the SET list
  // ---------------------------------------------------------------------------

  /** A column is listed exactly when it is one of `cols` and its body value is truthy. */
  lemma {:induction false} TruthyColumnsMembers(body: Body, cols: seq<string>)
    ensures forall c :: c in TruthyColumns(body, cols) <==> c in cols && Truthy(Lookup(body, c))
  {
    if cols != [] {
      var init := cols[..|cols| - 1];
      TruthyColumnsMembers(body, init);
      assert cols == init + [cols[|cols| - 1]];
    }
  }

  predicate Distinct(cols: seq<string>)
  {
    forall i, j :: 0 <= i < j < |cols| ==> cols[i] != cols[j]
  }

  /** Over distinct columns, each truthy column is listed exactly once and every other column never. */
  lemma {:induction false} TruthyColumnsCount(body: Body, cols: seq<string>)
    requires Distinct(cols)
    ensures forall c :: multiset(TruthyColumns(body, cols))[c] == if c in cols && Truthy(Lookup(body, c)) then 1 else 0
  {
    if cols != [] {
      var init := cols[..|cols| - 1];
      var last := cols[|cols| - 1];
      TruthyColumnsCount(body, init);
      assert cols == init + [last];
      forall k | 0 <= k < |init| ensures init[k] != last {
        assert cols[k] == init[k];
      }
    }
  }

  /** The position of `c` in `cols`. */
  function IndexIn(cols: seq<string>, c: string): (k: nat)
    requires c in cols
    ensures k < |cols| && cols[k] == c
    ensures forall j :: 0 <= j < k ==> cols[j] != c
  {
    if cols[0] == c then 0 else 1 + IndexIn(cols[1..], c)
  }

  lemma IndexInPrefix(cols: seq<string>, n: nat, c: string)
    requires n <= |cols| && c in cols[..n]
    ensures IndexIn(cols, c) == IndexIn(cols[..n], c) < n
  {
    var k := IndexIn(cols[..n], c);
    assert cols[k] == c;
    assert IndexIn(cols, c) <= k;
  }

  /** Every element of `xs` is one of `cols`, and `xs` lists them in the order of `cols`. */
  predicate OrderedIn(cols: seq<string>, xs: seq<string>)
  {
    forall i, j :: 0 <= i < j < |xs| ==> xs[i] in cols && xs[j] in cols && IndexIn(cols, xs[i]) < IndexIn(cols, xs[j])
  }

  /** The listed columns keep the order of `cols`. */
  lemma {:induction false} TruthyColumnsOrdered(body: Body, cols: seq<string>)
    requires Distinct(cols)
    ensures OrderedIn(cols, TruthyColumns(body, cols))
  {
    if cols != [] {
      var n := |cols| - 1;
      var init := cols[..n];
      var last := cols[n];
      assert Distinct(init);
      TruthyColumnsOrdered(body, init);
      TruthyColumnsMembers(body, init);
      var before := TruthyColumns(body, init);
      var tc := TruthyColumns(body, cols);
      forall i | 0 <= i < |before|
        ensures before[i] in cols && IndexIn(cols, before[i]) == IndexIn(init, before[i]) < n
      {
        assert before[i] in before;
        IndexInPrefix(cols, n, before[i]);
      }
      forall i, j | 0 <= i < j < |before|
        ensures IndexIn(cols, before[i]) < IndexIn(cols, before[j])
      {
        assert IndexIn(init, before[i]) < IndexIn(init, before[j]);
      }
      if Truthy(Lookup(body, last)) {
        assert tc == before + [last];
        assert IndexIn(cols, last) == n by {
          forall j | 0 <= j < n ensures cols[j] != last { }
        }
        forall i, j | 0 <= i < j < |tc|
          ensures tc[i] in cols && tc[j] in cols && IndexIn(cols, tc[i]) < IndexIn(cols, tc[j])
        {
          assert tc[i] == before[i];
          if j < |before| {
            assert tc[j] == before[j];
          } else {
            assert tc[j] == last;
          }
        }
      } else {
        assert tc == before;
      }
    }
  }

  /** No two columns share a name, and no column name holds a 'W' or a ','. */
  lemma ColumnNames()
    ensures Distinct(Columns)
    ensures forall c :: c in Columns ==> 'W' !in c && ',' !in c
  {
    ColumnsDistinct();
    ColumnCharacters();
  }

  lemma ColumnsDistinct()
    ensures Distinct(Columns)
  {
  }

  lemma ColumnCharacters()
    ensures forall c :: c in Columns ==> 'W' !in c && ',' !in c
  {
  }

  /** The only 'W' of the fixed statement text is that of WHERE. */
  lemma StatementTextCharacters()
    ensures 'W' !in SetPrefix
    ensures |WhereClause| >= 6 && WhereClause[..6] == " WHERE"
    ensures forall k :: 2 <= k < |WhereClause| ==> WhereClause[k] != 'W'
  {
    PrefixCharacters();
    WhereCharacters();
  }

  lemma PrefixCharacters()
    ensures 'W' !in SetPrefix
  {
  }

  lemma WhereCharacters()
    ensures |WhereClause| >= 6 && WhereClause[..6] == " WHERE"
    ensures forall k :: 2 <= k < |WhereClause| ==> WhereClause[k] != 'W'
  {
  }

  lemma AssignmentInjective(a: string, b: string)
    ensures Assignment(a) == Assignment(b) ==> a == b
  {
    if Assignment(a) == Assignment(b) {
      assert |a| == |b|;
      assert a == Assignment(a)[..|a|];
      assert b == Assignment(b)[..|b|];
    }
  }

  lemma {:induction false} AssignmentsCount(cols: seq<string>, c: string)
    ensures multiset(Assignments(cols))[Assignment(c)] == multiset(cols)[c]
  {
    if cols != [] {
      var init := cols[..|cols| - 1];
      var last := cols[|cols| - 1];
      AssignmentsCount(init, c);
      assert cols == init + [last];
      assert Assignments(cols) == Assignments(init) + [Assignment(last)];
      AssignmentInjective(last, c);
    }
  }

  /**
   * The assignments of the SET list: the non-empty SET list splits at ", "
   * into the assignments of listed columns, each of the eleven columns
   * contributes `COL = :COL` exactly once when its body value is truthy and
   * never otherwise, and the contributions follow the column order.
   */
  lemma SetListContents(body: Body)
    ensures var tc := TruthyColumns(body, Columns);
      && (forall c :: c in Columns ==>
            multiset(Assignments(tc))[Assignment(c)] == if Truthy(Lookup(body, c)) then 1 else 0)
      && (forall c :: c in tc ==> c in Columns)
      && OrderedIn(Columns, tc)
      && (SetList(body, Columns) != "" ==> Split(SetList(body, Columns)) == Assignments(tc))
  {
    var tc := TruthyColumns(body, Columns);
    SetListSplits(body);
    TruthyColumnsMembers(body, Columns);
    ColumnNames();
    TruthyColumnsCount(body, Columns);
    TruthyColumnsOrdered(body, Columns);
    forall c | c in Columns
      ensures multiset(Assignments(tc))[Assignment(c)] == if Truthy(Lookup(body, c)) then 1 else 0
    {
      AssignmentsCount(tc, c);
    }
  }

  /** Splitting a comma-free prefix off a string. */
  lemma {:induction false} SplitPrefix(x: string, t: string)
    requires ',' !in x
    ensures Split(x + t) == [x + Split(t)[0]] + Split(t)[1..]
    decreases |x|
  {
    if x != [] {
      var s := x + t;
      assert x[0] in x;
      assert s[0] == x[0] && s[0] != ',';
      assert s[1..] == x[1..] + t;
      SplitPrefix(x[1..], t);
      assert [x[0]] + (x[1..] + Split(t)[0]) == x + Split(t)[0];
    } else {
      assert x + t == t;
      assert x + Split(t)[0] == Split(t)[0];
    }
  }

  /** Splitting at ", " undoes joining with ", ", for non-empty lists of comma-free items. */
  lemma {:induction false} SplitJoin(items: seq<string>)
    requires items != []
    requires forall i :: 0 <= i < |items| ==> ',' !in items[i]
    ensures Split(Join(items)) == items
    decreases |items|
  {
    var x := items[0];
    if |items| == 1 {
      assert x + "" == x;
      SplitPrefix(x, "");
    } else {
      var rest := Join(items[1..]);
      var t := Separator + rest;
      assert Join(items) == x + t;
      SplitJoin(items[1..]);
      SplitSeparator(rest);
      var st := Split(t);
      assert st[0] == "" && st[1..] == items[1..];
      SplitPrefix(x, t);
      assert x + st[0] == x;
      assert items == [x] + items[1..];
    }
  }

  /** A leading separator splits off an empty piece. */
  lemma SplitSeparator(rest: string)
    ensures Split(Separator + rest) == [""] + Split(rest)
  {
    assert (Separator + rest)[2..] == rest;
  }

  /**
   * The SET list is empty exactly when no column is truthy, and otherwise
   * splits at ", " into the assignments of the truthy columns, in order: no
   * separator leads, trails or doubles.
   */
  lemma SetListSplits(body: Body)
    ensures SetList(body, Columns) == "" <==> forall c :: c in Columns ==> !Truthy(Lookup(body, c))
    ensures SetList(body, Columns) != "" ==> Split(SetList(body, Columns)) == Assignments(TruthyColumns(body, Columns))
  {
    var tc := TruthyColumns(body, Columns);
    SetListIsJoin(body, Columns);
    TruthyColumnsMembers(body, Columns);
    ColumnNames();
    JoinEmpty(Assignments(tc));
    if tc != [] {
      assert tc[0] in tc;
      forall i | 0 <= i < |tc| ensures ',' !in Assignment(tc[i]) {
        assert tc[i] in tc;
      }
      SplitJoin(Assignments(tc));
    } else {
      forall c | c in Columns ensures !Truthy(Lookup(body, c)) {
        assert c !in tc;
      }
    }
  }

  /**
   * With no truthy column the statement is the prefix followed directly by the
   * WHERE clause, `UPDATE EMPLOYEES SET  WHERE EMPLOYEE_ID = :EMPLOYEE_ID`
   * (two spaces), and only then.
   */
  lemma EmptySetList(body: Body)
    ensures (forall c :: c in Columns ==> !Truthy(Lookup(body, c))) <==>
      UpdateStatement(body) == SetPrefix + WhereClause
  {
    SetListSplits(body);
    var list := SetList(body, Columns);
    if list == "" {
      assert SetPrefix + list == SetPrefix;
    } else {
      assert |UpdateStatement(body)| > |SetPrefix| + |WhereClause|;
    }
  }

  lemma {:induction false} NoWInJoin(items: seq<string>)
    requires forall i :: 0 <= i < |items| ==> 'W' !in items[i]
    ensures 'W' !in Join(items)
    decreases |items|
  {
    if |items| >= 2 {
      NoWInJoin(items[1..]);
    }
  }

  /** No character of the SET list is a 'W': no column name holds one. */
  lemma NoWInSetList(body: Body)
    ensures 'W' !in SetList(body, Columns)
  {
    var tc := TruthyColumns(body, Columns);
    SetListIsJoin(body, Columns);
    TruthyColumnsMembers(body, Columns);
    ColumnNames();
    forall i | 0 <= i < |tc| ensures 'W' !in Assignment(tc[i]) {
      assert tc[i] in tc;
    }
    NoWInJoin(Assignments(tc));
  }

  /** In `a + w`, where `a` holds no 'W' and `w` holds exactly one at index 1, the only 'W' is at `|a| + 1`. */
  lemma OnlyW(a: string, w: string, j: int)
    requires 'W' !in a && |w| >= 2 && w[0] != 'W'
    requires forall k :: 2 <= k < |w| ==> w[k] != 'W'
    requires 0 <= j < |a + w| && (a + w)[j] == 'W'
    ensures j == |a| + 1
  {
    forall k | 0 <= k < |a| ensures (a + w)[k] != 'W' {
      assert a[k] in a;
    }
    forall k | |a| + 2 <= k < |a + w| ensures (a + w)[k] != 'W' {
      assert (a + w)[k] == w[k - |a|];
    }
    assert (a + w)[|a|] == w[0];
  }

  /**
   * The statement starts with the UPDATE prefix, ends with the WHERE clause,
   * and " WHERE" occurs in it exactly once, as that clause.
   */
  lemma StatementShape(body: Body)
    ensures var s := UpdateStatement(body);
      && |s| >= |SetPrefix| + |WhereClause|
      && s[..|SetPrefix|] == "UPDATE EMPLOYEES SET "
      && s[|s| - |WhereClause|..] == " WHERE EMPLOYEE_ID = :EMPLOYEE_ID"
      && forall i :: OccursAt(s, " WHERE", i) <==> i == |s| - |WhereClause|
  {
    StatementEnds(body);
    WhereOnce(body);
  }

  lemma StatementEnds(body: Body)
    ensures var s := UpdateStatement(body);
      && |s| >= |SetPrefix| + |WhereClause|
      && s[..|SetPrefix|] == SetPrefix
      && s[|s| - |WhereClause|..] == WhereClause
  {
    var s := UpdateStatement(body);
    assert s == SetPrefix + (SetList(body, Columns) + WhereClause);
    assert s == (SetPrefix + SetList(body, Columns)) + WhereClause;
  }

  lemma WhereOnce(body: Body)
    ensures var s := UpdateStatement(body);
      |s| >= |WhereClause| && forall i :: OccursAt(s, " WHERE", i) <==> i == |s| - |WhereClause|
  {
    var s := UpdateStatement(body);
    var a := SetPrefix + SetList(body, Columns);
    assert s == a + WhereClause;
    NoWInSetList(body);
    StatementTextCharacters();
    forall i | OccursAt(s, " WHERE", i)
      ensures i == |s| - |WhereClause|
    {
      assert s[i + 1] == s[i..i + 6][1];
      OnlyW(a, WhereClause, i + 1);
    }
    assert OccursAt(s, " WHERE", |s| - |WhereClause|) by {
      assert s[|a|..|a| + 6] == WhereClause[..6];
    }
  }


  // ---------------------------------------------------------------------------
  // Properties of the bind values
  // ---------------------------------------------------------------------------

  /** The recorded keys are the bind keys of the truthy columns, each holding the body's value for that key. */
  lemma {:induction false} ColumnBindsSpec(body: Body, cols: seq<string>)
    ensures ColumnBinds(body, cols).Keys == set c | c in cols && Truthy(Lookup(body, c)) :: BindKey(c)
    ensures forall k :: k in ColumnBinds(body, cols) ==> ColumnBinds(body, cols)[k] == Lookup(body, k)
  {
    if cols != [] {
      var init := cols[..|cols| - 1];
      ColumnBindsSpec(body, init);
      assert cols == init + [cols[|cols| - 1]];
    }
  }

  /**
   * The bind map of the builder: a column other than LAST_NAME and EMAIL is
   * bound exactly when it is truthy; EMAIL is bound when EMAIL or LAST_NAME is
   * truthy; LAST_NAME is never bound; every column bind holds the body's value
   * for its key; USER_NAME holds the route parameter USER_NAME; nothing else is bound.
   */
  lemma UpdateBindsContents(body: Body, params: Params)
    ensures var b := UpdateBinds(body, params);
      && (forall c :: c in Columns && c != "LAST_NAME" && c != "EMAIL" ==> (c in b <==> Truthy(Lookup(body, c))))
      && ("EMAIL" in b <==> Truthy(Lookup(body, "EMAIL")) || Truthy(Lookup(body, "LAST_NAME")))
      && "LAST_NAME" !in b
      && (forall k :: k in b && k != IdentifierKey ==> b[k] == Lookup(body, k))
      && IdentifierKey in b && b[IdentifierKey] == Param(params, "USER_NAME")
      && (forall k :: k in b ==> k == IdentifierKey || k in Columns)
  {
    forall c | c in Columns && c != "LAST_NAME" && c != "EMAIL"
      ensures c in UpdateBinds(body, params) <==> Truthy(Lookup(body, c))
    {
      OwnColumnBound(body, c);
    }
    EmailBound(body);
    ColumnBindsSpec(body, Columns);
    BindKeyNeverLastName();
  }

  /** Only LAST_NAME and EMAIL itself write the key EMAIL; every other column writes only its own name. */
  lemma BindKeyNeverLastName()
    ensures forall c :: BindKey(c) != "LAST_NAME"
    ensures forall c :: BindKey(c) == "EMAIL" <==> c == "LAST_NAME" || c == "EMAIL"
  {
  }

  /** A column other than LAST_NAME and EMAIL is bound exactly when its body value is truthy. */
  lemma OwnColumnBound(body: Body, c: string)
    requires c in Columns && c != "LAST_NAME" && c != "EMAIL"
    ensures c in ColumnBinds(body, Columns) <==> Truthy(Lookup(body, c))
  {
    ColumnBindsSpec(body, Columns);
    BindKeyNeverLastName();
    if Truthy(Lookup(body, c)) {
      assert BindKey(c) == c;
    }
  }

  /** EMAIL is bound exactly when EMAIL or LAST_NAME has a truthy body value. */
  lemma EmailBound(body: Body)
    ensures "EMAIL" in ColumnBinds(body, Columns) <==> Truthy(Lookup(body, "EMAIL")) || Truthy(Lookup(body, "LAST_NAME"))
  {
    ColumnBindsSpec(body, Columns);
    BindKeyNeverLastName();
    assert Columns[2] == "LAST_NAME" && Columns[3] == "EMAIL";
    if Truthy(Lookup(body, "LAST_NAME")) {
      assert BindKey("LAST_NAME") == "EMAIL";
    }
    if Truthy(Lookup(body, "EMAIL")) {
      assert BindKey("EMAIL") == "EMAIL";
    }
  }


  /**
   * The WHERE placeholder :EMPLOYEE_ID is bound only from a truthy body
   * EMPLOYEE_ID, never from the route: changing the route identifier changes no bind.
   */
  lemma WherePlaceholderBinding(body: Body, params: Params, id: string)
    ensures "EMPLOYEE_ID" in UpdateBinds(body, params) <==> Truthy(Lookup(body, "EMPLOYEE_ID"))
    ensures "EMPLOYEE_ID" in UpdateBinds(body, params) ==> UpdateBinds(body, params)["EMPLOYEE_ID"] == body["EMPLOYEE_ID"]
    ensures UpdateBinds(body, params["EMPLOYEE_ID" := id]) == UpdateBinds(body, params)
  {
    UpdateBindsContents(body, params);
  }

  /** On the route `/employees/:EMPLOYEE_ID` the identifier bind USER_NAME is always `undefined`. */
  lemma IdentifierBindUndefined(body: Body, id: string)
    ensures UpdateBinds(body, map["EMPLOYEE_ID" := id])[IdentifierKey] == Undefined
  {
  }

  /**
   * A truthy LAST_NAME puts `LAST_NAME = :LAST_NAME` into the SET list but
   * binds no LAST_NAME value; it writes `body.EMAIL` (possibly `undefined`) under EMAIL.
   */
  lemma LastNameBindsEmail(body: Body, params: Params)
    requires Truthy(Lookup(body, "LAST_NAME"))
    ensures Assignment("LAST_NAME") in Split(SetList(body, Columns))
    ensures "LAST_NAME" !in UpdateBinds(body, params)
    ensures "EMAIL" in UpdateBinds(body, params) && UpdateBinds(body, params)["EMAIL"] == Lookup(body, "EMAIL")
  {
    UpdateBindsContents(body, params);
    TruthyColumnsMembers(body, Columns);
    SetListSplits(body);
    var tc := TruthyColumns(body, Columns);
    assert "LAST_NAME" in tc;
    var k :| 0 <= k < |tc| && tc[k] == "LAST_NAME";
    assert Assignments(tc)[k] == Assignment("LAST_NAME");
  }
}
