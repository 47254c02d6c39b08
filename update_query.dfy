/** The dynamic `UPDATE users SET ...` builder of `PUT /profile/update` (backend/server.js). */
module UpdateQuery {
  import opened Common
  import opened Text

  datatype Param = TextParam(text: string) | IdParam(id: int)

  /** `updateFields`, `queryParams` and the final `paramCount`. */
  datatype Query = Query(fields: seq<string>, params: seq<Param>, paramCount: nat)

  const Columns: seq<string> := ["username", "status", "profile_picture"]

  function Placeholder(n: nat): string {
    "$" + Decimal(n)
  }

  /** `column = $n`. */
  function Clause(column: string, n: nat): string {
    column + " = " + Placeholder(n)
  }

  /** The position of a column in `Columns`. */
  function Rank(column: string): nat {
    if column == "username" then 0 else if column == "status" then 1 else 2
  }

  /** The columns a request sets, each with its new value: username, status, profile_picture. */
  function Assignments(username: Option<string>, status: Option<string>, picture: Option<string>)
    : seq<(string, string)>
  {
    (if Truthy(username) then [("username", username.value)] else [])
    + (if Truthy(status) then [("status", status.value)] else [])
    + (if Truthy(picture) then [("profile_picture", picture.value)] else [])
  }

  predicate SetsColumn(a: seq<(string, string)>, column: string) {
    exists i :: 0 <= i < |a| && a[i].0 == column
  }

  /**
   * A column is set exactly when its value is truthy, with that value; the columns keep the order
   * username, status, profile_picture; nothing is set exactly when no value is truthy.
   */
  lemma AssignmentsShape(username: Option<string>, status: Option<string>, picture: Option<string>)
    ensures var a := Assignments(username, status, picture);
      && |a| <= 3
      && (forall i :: 0 <= i < |a| ==> a[i].0 in Columns && a[i].1 != "")
      && (forall i, j :: 0 <= i < j < |a| ==> Rank(a[i].0) < Rank(a[j].0))
      && (SetsColumn(a, "username") <==> Truthy(username))
      && (SetsColumn(a, "status") <==> Truthy(status))
      && (SetsColumn(a, "profile_picture") <==> Truthy(picture))
      && (Truthy(username) ==> ("username", username.value) in a)
      && (Truthy(status) ==> ("status", status.value) in a)
      && (Truthy(picture) ==> ("profile_picture", picture.value) in a)
      && (|a| == 0 <==> !Truthy(username) && !Truthy(status) && !Truthy(picture))
  {
    var a := Assignments(username, status, picture);
    var a1 := if Truthy(username) then [("username", username.value)] else [];
    var a2 := if Truthy(status) then [("status", status.value)] else [];
    var a3 := if Truthy(picture) then [("profile_picture", picture.value)] else [];
    assert a == a1 + a2 + a3;
    if Truthy(username) { assert a[0] == ("username", username.value); }
    if Truthy(status) { assert a[|a1|] == ("status", status.value); }
    if Truthy(picture) { assert a[|a1| + |a2|] == ("profile_picture", picture.value); }
  }

  /** `fields` and `params` hold one clause and one parameter per assignment in `done`, numbered from 1. */
  ghost predicate Built(fields: seq<string>, params: seq<Param>, paramCount: nat, done: seq<(string, string)>) {
    && |fields| == |done| && |params| == |done| && paramCount == |done| + 1
    && (forall i :: 0 <= i < |done| ==> fields[i] == Clause(done[i].0, i + 1))
    && (forall i :: 0 <= i < |done| ==> params[i] == TextParam(done[i].1))
  }

  lemma PushKeepsBuilt(fields: seq<string>, params: seq<Param>, paramCount: nat, done: seq<(string, string)>,
                       column: string, value: string)
    requires Built(fields, params, paramCount, done)
    ensures Built(fields + [Clause(column, paramCount)], params + [TextParam(value)], paramCount + 1,
                  done + [(column, value)])
  {
  }

  /** Appending the user id to a built query gives the statement's clauses and parameters. */
  lemma FinishKeepsBuilt(fields: seq<string>, params: seq<Param>, paramCount: nat, done: seq<(string, string)>,
                         userId: int)
    requires Built(fields, params, paramCount, done)
    ensures var ps := params + [IdParam(userId)];
      && |fields| == |done|
      && (forall i :: 0 <= i < |done| ==> fields[i] == Clause(done[i].0, i + 1))
      && |ps| == |done| + 1
      && (forall i :: 0 <= i < |done| ==> ps[i] == TextParam(done[i].1))
      && ps[|done|] == IdParam(userId)
      && paramCount == |done| + 1
  {
  }

  /**
   * The builder: each truthy value pushes a clause with the running placeholder number and its
   * parameter; the user id goes last and the WHERE clause takes the next number.
   */
  method BuildUpdate(username: Option<string>, status: Option<string>, picture: Option<string>, userId: int)
    returns (q: Query)
    ensures var a := Assignments(username, status, picture);
      && |q.fields| == |a|
      && (forall i :: 0 <= i < |a| ==> q.fields[i] == Clause(a[i].0, i + 1))
      && |q.params| == |a| + 1
      && (forall i :: 0 <= i < |a| ==> q.params[i] == TextParam(a[i].1))
      && q.params[|a|] == IdParam(userId)
      && q.paramCount == |a| + 1
    ensures Assignments(username, status, picture) == [] ==> SqlText(q) == "UPDATE users SET  WHERE id = $1" + Returning
  {
    var updateFields: seq<string> := [];
    var queryParams: seq<Param> := [];
    var paramCount: nat := 1;
    ghost var done: seq<(string, string)> := [];

    if Truthy(username) {
      PushKeepsBuilt(updateFields, queryParams, paramCount, done, "username", username.value);
      updateFields := updateFields + [Clause("username", paramCount)];
      queryParams := queryParams + [TextParam(username.value)];
      paramCount := paramCount + 1;
      done := done + [("username", username.value)];
    }
    assert Built(updateFields, queryParams, paramCount, done) && done == (if Truthy(username) then [("username", username.value)] else []);

    if Truthy(status) {
      PushKeepsBuilt(updateFields, queryParams, paramCount, done, "status", status.value);
      updateFields := updateFields + [Clause("status", paramCount)];
      queryParams := queryParams + [TextParam(status.value)];
      paramCount := paramCount + 1;
      done := done + [("status", status.value)];
    }
    assert Built(updateFields, queryParams, paramCount, done) && done == (if Truthy(username) then [("username", username.value)] else []) + (if Truthy(status) then [("status", status.value)] else []);

    if Truthy(picture) {
      PushKeepsBuilt(updateFields, queryParams, paramCount, done, "profile_picture", picture.value);
      updateFields := updateFields + [Clause("profile_picture", paramCount)];
      queryParams := queryParams + [TextParam(picture.value)];
      paramCount := paramCount + 1;
      done := done + [("profile_picture", picture.value)];
    }
    assert Built(updateFields, queryParams, paramCount, done) && done == (if Truthy(username) then [("username", username.value)] else []) + (if Truthy(status) then [("status", status.value)] else []) + (if Truthy(picture) then [("profile_picture", picture.value)] else []);
    assert done == Assignments(username, status, picture);
    FinishKeepsBuilt(updateFields, queryParams, paramCount, done, userId);

    queryParams := queryParams + [IdParam(userId)];
    q := Query(updateFields, queryParams, paramCount);
    if done == [] {
      EmptyStatement(q);
    }
  }

  /** With no clause and the id as `$1`, the statement has an empty SET list. */
  lemma EmptyStatement(q: Query)
    requires q.fields == [] && q.paramCount == 1
    ensures SqlText(q) == "UPDATE users SET  WHERE id = $1" + Returning
  {
    assert Decimal(1) == [Digit(1)] && Digit(1) == '1';
    assert Placeholder(1) == "$1";
  }

  const Returning := " RETURNING id, username, email, status, profile_picture"

  /**
   * The statement text, with the template's line breaks and indentation written as single spaces.
   * The WHERE clause binds the last placeholder; with nothing to set, the SET list is empty
   * ("SET  WHERE"), which the database refuses as a syntax error.
   */
  function SqlText(q: Query): (r: string)
    ensures EndsWith(r, " WHERE id = " + Placeholder(q.paramCount) + Returning)
    ensures q.fields == [] ==> r == "UPDATE users SET  WHERE id = " + Placeholder(q.paramCount) + Returning
    ensures q.fields != [] ==> StartsWith(r, "UPDATE users SET " + q.fields[0])
  {
    var head := "UPDATE users SET " + Join(q.fields, ", ");
    var tail := " WHERE id = " + Placeholder(q.paramCount) + Returning;
    EndsWithConcat(head, tail);
    assert q.fields != [] ==> StartsWith(head + tail, "UPDATE users SET " + q.fields[0]) by {
      if q.fields != [] {
        StartsWithConcat("UPDATE users SET ", Join(q.fields, ", "), q.fields[0]);
        StartsWithExtend(head, "UPDATE users SET " + q.fields[0], tail);
      }
    }
    head + tail
  }

  /** The placeholders are pairwise distinct, so every parameter is bound exactly once. */
  lemma PlaceholdersDistinct(m: nat, n: nat)
    requires m != n
    ensures Placeholder(m) != Placeholder(n)
  {
    if Placeholder(m) == Placeholder(n) {
      assert Decimal(m) == Placeholder(m)[1..] == Placeholder(n)[1..] == Decimal(n);
      DecimalInjective(m, n);
    }
  }
}
