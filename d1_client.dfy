/**
 * The edge-database adapter for `user_profiles` (utils/d1/client.ts).
 * The database exists only inside a Cloudflare Worker (`DB` bound); every
 * operation answers a fixed "unavailable" default outside one. The table
 * is a sequence of rows: INSERT appends, a lookup takes the first
 * matching row, UPDATE ... WHERE user_id = ? rewrites every matching row.
 * A statement that throws is a `Fault` parameter.
 */
module D1Client {
  import opened Common

  /** A value bound to a `?` placeholder. */
  datatype SqlValue = Null | Text(s: string) | Int(n: int)

  /** A `user_profiles` row as the database stores it. */
  datatype D1Row = D1Row(
    id: string, user_id: string, username: string, display_name: string,
    age: Option<int>, gender: Option<string>, created_at: string, updated_at: string)

  /** The profile `getUserProfile` hands back. */
  datatype Profile = Profile(
    id: string, user_id: string, username: string, display_name: string,
    age: Option<int>, gender: Option<string>, created_at: string, updated_at: string)

  /** The argument of `createUserProfile`. */
  datatype NewProfile = NewProfile(
    id: string, user_id: string, username: string, display_name: string,
    age: Option<int>, gender: Option<string>)

  /**
   * The argument of `updateUserProfile`: the outer None is a field left
   * undefined, `Some(None)` an explicit null.
   */
  datatype Updates = Updates(display_name: Option<string>, age: Option<Option<int>>, gender: Option<Option<string>>)

  /** How running the statement ends: normally, throwing an `Error`, or throwing anything else. */
  datatype Fault = NoFault | ThrowsError(message: string) | ThrowsOther

  /** `{success, error?}` */
  datatype Outcome = Outcome(success: bool, error: Option<string>)

  const Unavailable: Outcome := Outcome(false, Some("D1 database not available"))

  /** The error text of a caught exception: its message, or the fixed fallback for a non-`Error`. */
  function FaultMessage(fault: Fault, fallback: string): string
    requires fault != NoFault
  {
    if fault.ThrowsError? then fault.message else fallback
  }

  /** The index of the first row with this username. */
  function FirstWithUsername(rows: seq<D1Row>, username: string): (r: Option<nat>)
    ensures r.None? <==> forall i :: 0 <= i < |rows| ==> rows[i].username != username
    ensures r.Some? ==> r.value < |rows| && rows[r.value].username == username
  {
    if rows == [] then None
    else if rows[0].username == username then Some(0)
    else match FirstWithUsername(rows[1..], username)
      case None => None
      case Some(i) => Some(i + 1)
  }

  /** The index of the first row for this user. */
  function FirstWithUserId(rows: seq<D1Row>, userId: string): (r: Option<nat>)
    ensures r.None? <==> forall i :: 0 <= i < |rows| ==> rows[i].user_id != userId
    ensures r.Some? ==>
      r.value < |rows| && rows[r.value].user_id == userId &&
      forall j :: 0 <= j < r.value ==> rows[j].user_id != userId
  {
    if rows == [] then None
    else if rows[0].user_id == userId then Some(0)
    else match FirstWithUserId(rows[1..], userId)
      case None => None
      case Some(i) => Some(i + 1)
  }

  /** A row as `getUserProfile` returns it: a falsy age (null or 0) becomes null. */
  function ToProfile(row: D1Row): (p: Profile)
    ensures p.age == (if row.age.None? || row.age.value == 0 then None else row.age)
    ensures p.id == row.id && p.user_id == row.user_id && p.username == row.username
    ensures p.display_name == row.display_name && p.gender == row.gender
    ensures p.created_at == row.created_at && p.updated_at == row.updated_at
  {
    Profile(row.id, row.user_id, row.username, row.display_name,
            if row.age.Some? && row.age.value != 0 then row.age else None,
            row.gender, row.created_at, row.updated_at)
  }

  // ---------------------------------------------------------------------
  // The dynamic UPDATE statement

  /** The columns `updateUserProfile` assigns after `updated_at`, in statement order. */
  function UpdatedColumns(u: Updates): (cols: seq<string>)
    // only the editable columns: never username, id, user_id or created_at
    ensures forall c :: c in cols ==> c in ["display_name", "age", "gender"]
    ensures "display_name" in cols <==> u.display_name.Some?
    ensures "age" in cols <==> u.age.Some?
    ensures "gender" in cols <==> u.gender.Some?
  {
    (if u.display_name.Some? then ["display_name"] else [])
    + (if u.age.Some? then ["age"] else [])
    + (if u.gender.Some? then ["gender"] else [])
  }

  /** The values bound to the assigned columns, in the same order. */
  function UpdatedValues(u: Updates): seq<SqlValue>
  {
    (if u.display_name.Some? then [Text(u.display_name.value)] else [])
    + (if u.age.Some? then [if u.age.value.Some? then Int(u.age.value.value) else Null] else [])
    + (if u.gender.Some? then [if u.gender.value.Some? then Text(u.gender.value.value) else Null] else [])
  }

  /** The clause that assigns one column: `, <col> = ?`. */
  function SetClause(col: string): string
  {
    ", " + col + " = ?"
  }

  function SetClauses(cols: seq<string>): string
  {
    if cols == [] then "" else SetClauses(cols[..|cols| - 1]) + SetClause(cols[|cols| - 1])
  }

  const UpdateHead := "UPDATE user_profiles SET updated_at = ?"
  const UpdateWhere := " WHERE user_id = ?"

  /** The statement text for a list of assigned columns. */
  function UpdateSql(cols: seq<string>): string
  {
    UpdateHead + SetClauses(cols) + UpdateWhere
  }

  /** The parameter list: the timestamp, the assigned values, then the user id. */
  function UpdateParams(u: Updates, now: string, userId: string): seq<SqlValue>
  {
    [Text(now)] + UpdatedValues(u) + [Text(userId)]
  }

  lemma AppendClause(head: string, cols: seq<string>, col: string)
    ensures head + SetClauses(cols) + SetClause(col) == head + SetClauses(cols + [col])
  {
    assert (cols + [col])[..|cols|] == cols;
  }

  /** The clause a field contributes: its `SET` clause when the field is given, nothing otherwise. */
  function OptionalClause(given: bool, col: string): string
  {
    if given then SetClause(col) else ""
  }

  /** The assigned clauses of the specified statement, written as the three optional steps. */
  lemma UpdateSteps(u: Updates)
    ensures SetClauses(UpdatedColumns(u)) ==
      OptionalClause(u.display_name.Some?, "display_name") + OptionalClause(u.age.Some?, "age")
      + OptionalClause(u.gender.Some?, "gender")
  {
    var c1 := if u.display_name.Some? then ["display_name"] else [];
    var c2 := c1 + (if u.age.Some? then ["age"] else []);
    var c3 := c2 + (if u.gender.Some? then ["gender"] else []);
    assert SetClauses(c1) == OptionalClause(u.display_name.Some?, "display_name") by {
      if u.display_name.Some? { AppendClause("", [], "display_name"); }
    }
    assert SetClauses(c2) == SetClauses(c1) + OptionalClause(u.age.Some?, "age") by {
      if u.age.Some? { AppendClause("", c1, "age"); }
    }
    assert SetClauses(c3) == SetClauses(c2) + OptionalClause(u.gender.Some?, "gender") by {
      if u.gender.Some? { AppendClause("", c2, "gender"); }
    }
    assert c3 == UpdatedColumns(u);
  }

  /** Text appended in three optional steps between a head and a tail. */
  lemma Reassociate<T>(head: seq<T>, a: seq<T>, b: seq<T>, c: seq<T>, tail: seq<T>, middle: seq<T>)
    requires middle == a + b + c
    ensures head + a + b + c + tail == head + middle + tail
  {
  }

  /** Build the UPDATE statement and its parameters, clause by clause. */
  method BuildUpdate(userId: string, u: Updates, now: string) returns (sql: string, params: seq<SqlValue>)
    ensures sql == UpdateSql(UpdatedColumns(u))
    ensures params == UpdateParams(u, now, userId)
  {
    ghost var c1 := OptionalClause(u.display_name.Some?, "display_name");
    ghost var c2 := OptionalClause(u.age.Some?, "age");
    ghost var c3 := OptionalClause(u.gender.Some?, "gender");
    ghost var v1: seq<SqlValue> := if u.display_name.Some? then [Text(u.display_name.value)] else [];
    ghost var v2: seq<SqlValue> := if u.age.Some? then [if u.age.value.Some? then Int(u.age.value.value) else Null] else [];
    ghost var v3: seq<SqlValue> := if u.gender.Some? then [if u.gender.value.Some? then Text(u.gender.value.value) else Null] else [];
    sql := UpdateHead;
    params := [Text(now)];
    if u.display_name.Some? {
      sql := sql + SetClause("display_name");
      params := params + [Text(u.display_name.value)];
    }
    assert sql == UpdateHead + c1 && params == [Text(now)] + v1;
    if u.age.Some? {
      sql := sql + SetClause("age");
      params := params + [if u.age.value.Some? then Int(u.age.value.value) else Null];
    }
    assert sql == UpdateHead + c1 + c2 && params == [Text(now)] + v1 + v2;
    if u.gender.Some? {
      sql := sql + SetClause("gender");
      params := params + [if u.gender.value.Some? then Text(u.gender.value.value) else Null];
    }
    assert sql == UpdateHead + c1 + c2 + c3 && params == [Text(now)] + v1 + v2 + v3;
    sql := sql + UpdateWhere;
    params := params + [Text(userId)];
    UpdateSteps(u);
    Reassociate(UpdateHead, c1, c2, c3, UpdateWhere, SetClauses(UpdatedColumns(u)));
    Reassociate([Text(now)], v1, v2, v3, [Text(userId)], UpdatedValues(u));
  }

  function Count(s: string, c: char): nat
  {
    if s == [] then 0 else (if s[0] == c then 1 else 0) + Count(s[1..], c)
  }

  lemma {:induction false} CountConcat(a: string, b: string, c: char)
    ensures Count(a + b, c) == Count(a, c) + Count(b, c)
    decreases |a|
  {
    if a == [] {
      assert a + b == b;
    } else {
      assert (a + b)[1..] == a[1..] + b;
      CountConcat(a[1..], b, c);
    }
  }

  lemma {:induction false} CountAbsent(s: string, c: char)
    requires c !in s
    ensures Count(s, c) == 0
    decreases |s|
  {
    if s != [] {
      CountAbsent(s[1..], c);
    }
  }

  /** A string whose only `?` is its last character holds one placeholder. */
  lemma CountPlaceholderAtEnd(p: string)
    requires '?' !in p
    ensures Count(p + "?", '?') == 1
  {
    CountConcat(p, "?", '?');
    CountAbsent(p, '?');
    assert "?"[1..] == [];
  }

  lemma SetClausePlaceholder(col: string)
    requires '?' !in col
    ensures Count(SetClause(col), '?') == 1
  {
    CountConcat(", " + col, " = ?", '?');
    CountConcat(", ", col, '?');
    CountAbsent(", ", '?');
    CountAbsent(col, '?');
    assert " = ?" == " = " + "?";
    CountPlaceholderAtEnd(" = ");
  }

  /** Each assigned column contributes exactly one placeholder. */
  lemma {:induction false} SetClausePlaceholders(cols: seq<string>)
    requires forall k :: 0 <= k < |cols| ==> '?' !in cols[k]
    ensures Count(SetClauses(cols), '?') == |cols|
    decreases |cols|
  {
    if cols != [] {
      var init := cols[..|cols| - 1];
      SetClausePlaceholders(init);
      SetClausePlaceholder(cols[|cols| - 1]);
      CountConcat(SetClauses(init), SetClause(cols[|cols| - 1]), '?');
    }
  }

  lemma HeadPlaceholder()
    ensures Count(UpdateHead, '?') == 1
  {
    assert UpdateHead == "UPDATE user_profiles SET updated_at = " + "?";
    CountPlaceholderAtEnd("UPDATE user_profiles SET updated_at = ");
  }

  lemma WherePlaceholder()
    ensures Count(UpdateWhere, '?') == 1
  {
    assert UpdateWhere == " WHERE user_id = " + "?";
    CountPlaceholderAtEnd(" WHERE user_id = ");
  }

  lemma SqlPlaceholders(cols: seq<string>)
    requires forall k :: 0 <= k < |cols| ==> '?' !in cols[k]
    ensures Count(UpdateSql(cols), '?') == |cols| + 2
  {
    SetClausePlaceholders(cols);
    CountConcat(UpdateHead + SetClauses(cols), UpdateWhere, '?');
    CountConcat(UpdateHead, SetClauses(cols), '?');
    HeadPlaceholder();
    WherePlaceholder();
  }

  /** No updatable column name holds a `?`. */
  lemma ColumnsHaveNoPlaceholder(u: Updates)
    ensures forall k :: 0 <= k < |UpdatedColumns(u)| ==> '?' !in UpdatedColumns(u)[k]
  {
    assert '?' !in "display_name" && '?' !in "age" && '?' !in "gender";
  }

  /** One bound value per assigned column. */
  lemma ValuesMatchColumns(u: Updates)
    ensures |UpdatedValues(u)| == |UpdatedColumns(u)|
  {
  }

  /**
   * The statement's placeholders and its parameters line up: as many `?`
   * as parameters, the timestamp first and the user id last.
   */
  lemma PlaceholdersMatchParams(u: Updates, now: string, userId: string)
    ensures Count(UpdateSql(UpdatedColumns(u)), '?') == |UpdateParams(u, now, userId)|
    ensures UpdateParams(u, now, userId)[0] == Text(now)
    ensures UpdateParams(u, now, userId)[|UpdateParams(u, now, userId)| - 1] == Text(userId)
  {
    ColumnsHaveNoPlaceholder(u);
    SqlPlaceholders(UpdatedColumns(u));
    ValuesMatchColumns(u);
  }

  // ---------------------------------------------------------------------
  // What the database does with the statement

  /** The database's effect of `col = ?` bound to `v` on a row. */
  function AssignColumn(row: D1Row, col: string, v: SqlValue): D1Row
  {
    if col == "updated_at" && v.Text? then row.(updated_at := v.s)
    else if col == "display_name" && v.Text? then row.(display_name := v.s)
    else if col == "age" then row.(age := if v.Int? then Some(v.n) else None)
    else if col == "gender" then row.(gender := if v.Text? then Some(v.s) else None)
    else row
  }

  /** Assign each column the value bound to its placeholder, left to right. */
  function AssignAll(row: D1Row, cols: seq<string>, vals: seq<SqlValue>): D1Row
    requires |cols| == |vals|
    decreases |cols|
  {
    if cols == [] then row
    else AssignColumn(AssignAll(row, cols[..|cols| - 1], vals[..|vals| - 1]), cols[|cols| - 1], vals[|vals| - 1])
  }

  /** The intended effect of an update on a matching row, field by field. */
  function Updated(row: D1Row, u: Updates, now: string): (r: D1Row)
    ensures r.id == row.id && r.user_id == row.user_id && r.username == row.username && r.created_at == row.created_at
    ensures r.updated_at == now
  {
    row.(updated_at := now,
         display_name := if u.display_name.Some? then u.display_name.value else row.display_name,
         age := if u.age.Some? then u.age.value else row.age,
         gender := if u.gender.Some? then u.gender.value else row.gender)
  }

  /** The effect of assigning each updatable column by name. */
  lemma AssignNamed(r: D1Row, v: SqlValue)
    ensures AssignColumn(r, "updated_at", v) == if v.Text? then r.(updated_at := v.s) else r
    ensures AssignColumn(r, "display_name", v) == if v.Text? then r.(display_name := v.s) else r
    ensures AssignColumn(r, "age", v) == r.(age := if v.Int? then Some(v.n) else None)
    ensures AssignColumn(r, "gender", v) == r.(gender := if v.Text? then Some(v.s) else None)
  {
    assert "display_name" != "updated_at";
    assert "age" != "updated_at" && "age" != "display_name";
    assert "gender" != "updated_at" && "gender" != "display_name" && "gender" != "age";
  }

  lemma AssignAllSnoc(row: D1Row, cols: seq<string>, vals: seq<SqlValue>, col: string, v: SqlValue)
    requires |cols| == |vals|
    ensures AssignAll(row, cols + [col], vals + [v]) == AssignColumn(AssignAll(row, cols, vals), col, v)
  {
    assert (cols + [col])[..|cols|] == cols;
    assert (vals + [v])[..|vals|] == vals;
  }

  /** Binding the built parameters to the built statement's columns performs exactly the intended update. */
  lemma BuiltStatementEffect(row: D1Row, u: Updates, now: string, userId: string)
    ensures var cols := ["updated_at"] + UpdatedColumns(u);
      |cols| + 1 == |UpdateParams(u, now, userId)| &&
      AssignAll(row, cols, UpdateParams(u, now, userId)[..|cols|]) == Updated(row, u, now)
  {
    ValuesMatchColumns(u);
    AssignAllSnoc(row, [], [], "updated_at", Text(now));
    AssignNamed(row, Text(now));
    var cs, vs, r := ["updated_at"], [Text(now)], row.(updated_at := now);
    DisplayNameStep(row, cs, vs, r, u.display_name);
    cs, vs, r := cs + (if u.display_name.Some? then ["display_name"] else []),
                 vs + (if u.display_name.Some? then [Text(u.display_name.value)] else []),
                 r.(display_name := if u.display_name.Some? then u.display_name.value else r.display_name);
    AgeStep(row, cs, vs, r, u.age);
    cs, vs, r := cs + (if u.age.Some? then ["age"] else []),
                 vs + (if u.age.Some? then [if u.age.value.Some? then Int(u.age.value.value) else Null] else []),
                 r.(age := if u.age.Some? then u.age.value else r.age);
    GenderStep(row, cs, vs, r, u.gender);
    cs, vs, r := cs + (if u.gender.Some? then ["gender"] else []),
                 vs + (if u.gender.Some? then [if u.gender.value.Some? then Text(u.gender.value.value) else Null] else []),
                 r.(gender := if u.gender.Some? then u.gender.value else r.gender);
    BuiltColumns(u, now, userId, cs, vs);
  }

  /** The `display_name` step: assigned only when given. */
  lemma DisplayNameStep(row: D1Row, cs: seq<string>, vs: seq<SqlValue>, r: D1Row, d: Option<string>)
    requires |cs| == |vs| && AssignAll(row, cs, vs) == r
    ensures var v := if d.Some? then [Text(d.value)] else [];
      |cs + (if d.Some? then ["display_name"] else [])| == |vs + v| &&
      AssignAll(row, cs + (if d.Some? then ["display_name"] else []), vs + v) ==
        r.(display_name := if d.Some? then d.value else r.display_name)
  {
    if d.Some? {
      AssignAllSnoc(row, cs, vs, "display_name", Text(d.value));
      AssignNamed(r, Text(d.value));
    } else {
      assert cs + [] == cs && vs + [] == vs;
    }
  }

  /** The `age` step: assigned only when given, a null age binding NULL. */
  lemma AgeStep(row: D1Row, cs: seq<string>, vs: seq<SqlValue>, r: D1Row, a: Option<Option<int>>)
    requires |cs| == |vs| && AssignAll(row, cs, vs) == r
    ensures var v := if a.Some? then [if a.value.Some? then Int(a.value.value) else Null] else [];
      |cs + (if a.Some? then ["age"] else [])| == |vs + v| &&
      AssignAll(row, cs + (if a.Some? then ["age"] else []), vs + v) == r.(age := if a.Some? then a.value else r.age)
  {
    if a.Some? {
      var v := if a.value.Some? then Int(a.value.value) else Null;
      AssignAllSnoc(row, cs, vs, "age", v);
      AssignNamed(r, v);
    } else {
      assert cs + [] == cs && vs + [] == vs;
    }
  }

  /** The `gender` step: assigned only when given, a null gender binding NULL. */
  lemma GenderStep(row: D1Row, cs: seq<string>, vs: seq<SqlValue>, r: D1Row, g: Option<Option<string>>)
    requires |cs| == |vs| && AssignAll(row, cs, vs) == r
    ensures var v := if g.Some? then [if g.value.Some? then Text(g.value.value) else Null] else [];
      |cs + (if g.Some? then ["gender"] else [])| == |vs + v| &&
      AssignAll(row, cs + (if g.Some? then ["gender"] else []), vs + v) ==
        r.(gender := if g.Some? then g.value else r.gender)
  {
    if g.Some? {
      var v := if g.value.Some? then Text(g.value.value) else Null;
      AssignAllSnoc(row, cs, vs, "gender", v);
      AssignNamed(r, v);
    } else {
      assert cs + [] == cs && vs + [] == vs;
    }
  }

  /** The columns and values the statement assigns, in the three optional steps. */
  lemma BuiltColumns(u: Updates, now: string, userId: string, cs: seq<string>, vs: seq<SqlValue>)
    requires cs == ["updated_at"] + (if u.display_name.Some? then ["display_name"] else [])
      + (if u.age.Some? then ["age"] else []) + (if u.gender.Some? then ["gender"] else [])
    requires vs == [Text(now)] + (if u.display_name.Some? then [Text(u.display_name.value)] else [])
      + (if u.age.Some? then [if u.age.value.Some? then Int(u.age.value.value) else Null] else [])
      + (if u.gender.Some? then [if u.gender.value.Some? then Text(u.gender.value.value) else Null] else [])
    ensures cs == ["updated_at"] + UpdatedColumns(u)
    ensures UpdateParams(u, now, userId)[..|cs|] == vs
  {
    BuiltNames(u, cs);
    BuiltValues(u, now, userId, vs);
    ValuesMatchColumns(u);
  }

  lemma BuiltNames(u: Updates, cs: seq<string>)
    requires cs == ["updated_at"] + (if u.display_name.Some? then ["display_name"] else [])
      + (if u.age.Some? then ["age"] else []) + (if u.gender.Some? then ["gender"] else [])
    ensures cs == ["updated_at"] + UpdatedColumns(u)
  {
    var d: seq<string> := if u.display_name.Some? then ["display_name"] else [];
    var a: seq<string> := if u.age.Some? then ["age"] else [];
    var g: seq<string> := if u.gender.Some? then ["gender"] else [];
    assert UpdatedColumns(u) == d + a + g;
  }

  lemma BuiltValues(u: Updates, now: string, userId: string, vs: seq<SqlValue>)
    requires vs == [Text(now)] + (if u.display_name.Some? then [Text(u.display_name.value)] else [])
      + (if u.age.Some? then [if u.age.value.Some? then Int(u.age.value.value) else Null] else [])
      + (if u.gender.Some? then [if u.gender.value.Some? then Text(u.gender.value.value) else Null] else [])
    ensures UpdateParams(u, now, userId)[..|vs|] == vs
  {
    assert UpdateParams(u, now, userId) == vs + [Text(userId)];
  }

  // ---------------------------------------------------------------------
  // The adapter

  class D1Database {
    /** `isCloudflareWorker()`: the `DB` binding is defined. */
    const bound: bool
    var rows: seq<D1Row>

    constructor (bound: bool, rows: seq<D1Row>)
      ensures this.bound == bound && this.rows == rows
    {
      this.bound := bound;
      this.rows := rows;
    }

    /** `isUsernameAvailable`: available iff no row has the username; unavailable outside a worker or on error. */
    function IsUsernameAvailable(username: string, fault: Fault): (available: bool)
      reads this
      ensures !bound || fault != NoFault ==> !available
      ensures available <==>
        bound && fault == NoFault && forall i :: 0 <= i < |rows| ==> rows[i].username != username
    {
      bound && fault == NoFault && FirstWithUsername(rows, username).None?
    }

    /** `getUserProfile`: the first row for the user, age normalised; null outside a worker, on error or with no row. */
    function GetUserProfile(userId: string, fault: Fault): (p: Option<Profile>)
      reads this
      ensures !bound || fault != NoFault ==> p.None?
      ensures p.Some? <==> bound && fault == NoFault && exists i :: 0 <= i < |rows| && rows[i].user_id == userId
      ensures p.Some? ==> exists i :: 0 <= i < |rows| && rows[i].user_id == userId && p.value == ToProfile(rows[i]) &&
                                      forall j :: 0 <= j < i ==> rows[j].user_id != userId
    {
      if !bound || fault != NoFault then None
      else match FirstWithUserId(rows, userId)
        case None => None
        case Some(i) => Some(ToProfile(rows[i]))
    }

    /** `createUserProfile`: append one row stamped twice with the same timestamp. */
    method CreateUserProfile(p: NewProfile, now: string, fault: Fault) returns (outcome: Outcome)
      modifies this
      ensures !bound ==> outcome == Unavailable && rows == old(rows)
      ensures bound && fault != NoFault ==>
        outcome == Outcome(false, Some(FaultMessage(fault, "Unknown D1 error creating profile"))) && rows == old(rows)
      ensures bound && fault == NoFault ==>
        outcome == Outcome(true, None) &&
        rows == old(rows) + [D1Row(p.id, p.user_id, p.username, p.display_name, p.age, p.gender, now, now)]
    {
      if !bound {
        return Unavailable;
      }
      if fault != NoFault {
        return Outcome(false, Some(FaultMessage(fault, "Unknown D1 error creating profile")));
      }
      rows := rows + [D1Row(p.id, p.user_id, p.username, p.display_name, p.age, p.gender, now, now)];
      outcome := Outcome(true, None);
    }

    /**
     * `updateUserProfile`: build the statement, then the database binds
     * each `?` to the parameter at its position and rewrites every row of
     * the user.
     */
    method UpdateUserProfile(userId: string, u: Updates, now: string, fault: Fault) returns (outcome: Outcome)
      modifies this
      ensures !bound ==> outcome == Unavailable && rows == old(rows)
      ensures bound && fault != NoFault ==>
        outcome == Outcome(false, Some(FaultMessage(fault, "Unknown D1 error updating profile"))) && rows == old(rows)
      ensures bound && fault == NoFault ==>
        outcome == Outcome(true, None) && |rows| == |old(rows)| &&
        forall i :: 0 <= i < |rows| ==>
          rows[i] == if old(rows)[i].user_id == userId then Updated(old(rows)[i], u, now) else old(rows)[i]
    {
      if !bound {
        return Unavailable;
      }
      var sql, params := BuildUpdate(userId, u, now);
      if fault != NoFault {
        return Outcome(false, Some(FaultMessage(fault, "Unknown D1 error updating profile")));
      }
      var cols := ["updated_at"] + UpdatedColumns(u);
      assert |cols| + 1 == |params|;
      var key := params[|params| - 1];
      var old_rows := rows;
      rows := seq(|old_rows|, i requires 0 <= i < |old_rows| =>
        if Text(old_rows[i].user_id) == key then AssignAll(old_rows[i], cols, params[..|cols|]) else old_rows[i]);
      forall i | 0 <= i < |rows|
        ensures rows[i] == if old_rows[i].user_id == userId then Updated(old_rows[i], u, now) else old_rows[i]
      {
        BuiltStatementEffect(old_rows[i], u, now, userId);
      }
      outcome := Outcome(true, None);
    }
  }
}
