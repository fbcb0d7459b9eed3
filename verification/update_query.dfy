/** The partial UPDATE statement the store builds for a review: which columns
    it sets, the numbered placeholders it uses, the parameters it binds, and
    what executing it does to the `review` table. */
module UpdateQuery {
  import opened Errors
  import opened Models
  import opened Dtos

  /** The columns a partial update can set. */
  datatype Column = BodyColumn | UpdatedTimeColumn

  /** A bound statement parameter. */
  datatype Value = Text(text: string) | Stamp(time: Time) | Key(key: Uuid)

  /** `column = $param` in the SET list. */
  datatype Assignment = Assignment(column: Column, param: nat)

  /** `UPDATE "review" SET sets WHERE id = $whereParam`. */
  datatype Statement = Update(sets: seq<Assignment>, whereParam: nat)

  /** The intended result of a partial update of `row`: `updatedTime` always
      replaces the stored time, `body` replaces the stored body unless it is
      empty, and every other column is kept. */
  function Patch(row: Review, body: string, updatedTime: Time): Review
  {
    row.(body := if body == "" then row.body else body, updatedTime := updatedTime)
  }

  /** The intended effect on the table: the row with key `id` is patched; an
      absent `id` leaves the table as it is. */
  function PatchTable(table: map<Uuid, Review>, id: Uuid, body: string, updatedTime: Time): map<Uuid, Review>
  {
    if id in table then table[id := Patch(table[id], body, updatedTime)] else table
  }

  /** The columns a command sets: `updated_time` always, `body` when non-empty. */
  function Columns(body: string): set<Column>
  {
    if body == "" then {UpdatedTimeColumn} else {BodyColumn, UpdatedTimeColumn}
  }

  /** The value a command binds for a column. */
  function Intended(column: Column, body: string, updatedTime: Time): Value
  {
    match column
    case BodyColumn => Text(body)
    case UpdatedTimeColumn => Stamp(updatedTime)
  }

  function ColumnsOf(sets: seq<Assignment>): set<Column>
  {
    set a | a in sets :: a.column
  }

  lemma ColumnsOfAppend(sets: seq<Assignment>, a: Assignment)
    ensures ColumnsOf(sets + [a]) == ColumnsOf(sets) + {a.column}
  {
  }

  /** An assignment whose placeholder is bound, to a value of the column's kind. */
  predicate Fits(a: Assignment, params: seq<Value>)
  {
    && 1 <= a.param <= |params|
    && match a.column
       case BodyColumn => params[a.param - 1].Text?
       case UpdatedTimeColumn => params[a.param - 1].Stamp?
  }

  /** A statement that sets no column twice, every placeholder of which is
      bound, with a key in the WHERE slot. */
  predicate WellFormed(stmt: Statement, params: seq<Value>)
  {
    && DistinctColumns(stmt.sets)
    && 1 <= stmt.whereParam <= |params|
    && params[stmt.whereParam - 1].Key?
    && forall j :: 0 <= j < |stmt.sets| ==> Fits(stmt.sets[j], params)
  }

  function Assign(row: Review, a: Assignment, params: seq<Value>): Review
    requires Fits(a, params)
  {
    match a.column
    case BodyColumn => row.(body := params[a.param - 1].text)
    case UpdatedTimeColumn => row.(updatedTime := params[a.param - 1].time)
  }

  /** The assignments of a SET list applied left to right to one row. */
  function SetAll(row: Review, sets: seq<Assignment>, params: seq<Value>): Review
    requires forall j :: 0 <= j < |sets| ==> Fits(sets[j], params)
    decreases |sets|
  {
    if sets == [] then row else SetAll(Assign(row, sets[0], params), sets[1..], params)
  }

  /** Executing the statement: the row whose key is bound in the WHERE slot,
      if present, gets the SET list; no other row changes. */
  function Execute(table: map<Uuid, Review>, stmt: Statement, params: seq<Value>): map<Uuid, Review>
    requires WellFormed(stmt, params)
  {
    var id := params[stmt.whereParam - 1].key;
    if id in table then table[id := SetAll(table[id], stmt.sets, params)] else table
  }

  /** A SET list whose every placeholder is bound to the command's value for
      its column sets exactly those columns, whatever their order. */
  lemma {:induction false} SetAllSetsColumns(row: Review, sets: seq<Assignment>, params: seq<Value>,
                                             body: string, updatedTime: Time)
    requires forall j :: 0 <= j < |sets| ==>
      1 <= sets[j].param <= |params| && params[sets[j].param - 1] == Intended(sets[j].column, body, updatedTime)
    ensures forall j :: 0 <= j < |sets| ==> Fits(sets[j], params)
    ensures SetAll(row, sets, params)
         == row.(body := if BodyColumn in ColumnsOf(sets) then body else row.body,
                 updatedTime := if UpdatedTimeColumn in ColumnsOf(sets) then updatedTime else row.updatedTime)
    decreases |sets|
  {
    if sets != [] {
      var rest := sets[1..];
      assert forall j :: 0 <= j < |rest| ==> rest[j] == sets[j + 1];
      SetAllSetsColumns(Assign(row, sets[0], params), rest, params, body, updatedTime);
      assert ColumnsOf(sets) == {sets[0].column} + ColumnsOf(rest) by {
        assert sets == [sets[0]] + rest;
      }
    }
  }

  /** The SET list numbers its placeholders $1..$k and binds each to the
      value `fields` holds for its column. */
  predicate Binds(sets: seq<Assignment>, params: seq<Value>, fields: map<Column, Value>)
  {
    && |params| == |sets|
    && (forall j :: 0 <= j < |sets| ==> sets[j].param == j + 1)
    && (forall j :: 0 <= j < |sets| ==> sets[j].column in fields && params[j] == fields[sets[j].column])
  }

  /** No column is set twice. */
  predicate DistinctColumns(sets: seq<Assignment>)
  {
    forall j, l :: 0 <= j < l < |sets| ==> sets[j].column != sets[l].column
  }

  lemma BindsAppend(sets: seq<Assignment>, params: seq<Value>, fields: map<Column, Value>, c: Column)
    requires Binds(sets, params, fields) && DistinctColumns(sets) && c in fields && c !in ColumnsOf(sets)
    ensures Binds(sets + [Assignment(c, |sets| + 1)], params + [fields[c]], fields)
    ensures DistinctColumns(sets + [Assignment(c, |sets| + 1)])
    ensures ColumnsOf(sets + [Assignment(c, |sets| + 1)]) == ColumnsOf(sets) + {c}
  {
  }

  lemma MoveDone<T>(all: set<T>, pending: set<T>, x: T)
    requires x in pending && pending <= all
    ensures all - (pending - {x}) == (all - pending) + {x}
  {
  }

  /** A SET list that sets no column twice has one entry per column. */
  lemma {:induction false} DistinctCount(sets: seq<Assignment>)
    requires DistinctColumns(sets)
    ensures |ColumnsOf(sets)| == |sets|
  {
    if sets != [] {
      var init := sets[..|sets| - 1];
      var last := sets[|sets| - 1];
      assert sets == init + [last];
      assert DistinctColumns(init);
      DistinctCount(init);
      ColumnsOfAppend(init, last);
      assert last.column !in ColumnsOf(init);
    }
  }

  /** A SET list numbered $1..$k, bound to the command's values, with the
      id bound last as $(k+1) and no column set twice, is well formed. */
  lemma StatementWellFormed(sets: seq<Assignment>, params: seq<Value>, id: Uuid, body: string, updatedTime: Time)
    requires |params| == |sets| + 1 && params[|sets|] == Key(id)
    requires forall j :: 0 <= j < |sets| ==> sets[j].param == j + 1
    requires forall j :: 0 <= j < |sets| ==> params[j] == Intended(sets[j].column, body, updatedTime)
    requires DistinctColumns(sets)
    ensures WellFormed(Update(sets, |params|), params)
  {
    forall j | 0 <= j < |sets|
      ensures Fits(sets[j], params)
    {
      assert params[sets[j].param - 1] == Intended(sets[j].column, body, updatedTime);
    }
  }

  /** On one row, a SET list numbered $1..$k, bound to the command's values
      and covering the command's columns, performs the partial update. */
  lemma RowPatched(row: Review, sets: seq<Assignment>, params: seq<Value>, body: string, updatedTime: Time)
    requires |params| == |sets| + 1
    requires forall j :: 0 <= j < |sets| ==> sets[j].param == j + 1
    requires forall j :: 0 <= j < |sets| ==> params[j] == Intended(sets[j].column, body, updatedTime)
    requires ColumnsOf(sets) == Columns(body)
    ensures forall j :: 0 <= j < |sets| ==> Fits(sets[j], params)
    ensures SetAll(row, sets, params) == Patch(row, body, updatedTime)
  {
    forall j | 0 <= j < |sets|
      ensures 1 <= sets[j].param <= |params| && params[sets[j].param - 1] == Intended(sets[j].column, body, updatedTime)
    {
      assert sets[j].param - 1 == j;
    }
    SetAllSetsColumns(row, sets, params, body, updatedTime);
    assert UpdatedTimeColumn in ColumnsOf(sets);
    assert BodyColumn in ColumnsOf(sets) <==> body != "";
  }

  /** On one table, executing such a statement patches only the row whose key
      is bound last. */
  lemma TablePatched(table: map<Uuid, Review>, sets: seq<Assignment>, params: seq<Value>,
                     id: Uuid, body: string, updatedTime: Time)
    requires WellFormed(Update(sets, |params|), params)
    requires |params| == |sets| + 1 && params[|sets|] == Key(id)
    requires forall j :: 0 <= j < |sets| ==> sets[j].param == j + 1
    requires forall j :: 0 <= j < |sets| ==> params[j] == Intended(sets[j].column, body, updatedTime)
    requires ColumnsOf(sets) == Columns(body)
    ensures Execute(table, Update(sets, |params|), params) == PatchTable(table, id, body, updatedTime)
  {
    if id in table {
      RowPatched(table[id], sets, params, body, updatedTime);
    }
  }

  /** A statement whose SET list numbers its placeholders $1..$k, binds each
      to the command's value for its column, covers the command's columns and
      binds the id last, and sets no column twice, is well formed and performs
      exactly the partial update on every table. */
  lemma StatementPatches(sets: seq<Assignment>, params: seq<Value>, id: Uuid, body: string, updatedTime: Time)
    requires |params| == |sets| + 1 && params[|sets|] == Key(id)
    requires forall j :: 0 <= j < |sets| ==> sets[j].param == j + 1
    requires forall j :: 0 <= j < |sets| ==> params[j] == Intended(sets[j].column, body, updatedTime)
    requires ColumnsOf(sets) == Columns(body)
    requires DistinctColumns(sets)
    ensures WellFormed(Update(sets, |params|), params)
    ensures forall table :: Execute(table, Update(sets, |params|), params) == PatchTable(table, id, body, updatedTime)
  {
    StatementWellFormed(sets, params, id, body, updatedTime);
    forall table
      ensures Execute(table, Update(sets, |params|), params) == PatchTable(table, id, body, updatedTime)
    {
      TablePatched(table, sets, params, id, body, updatedTime);
    }
  }

  /** The SET-list loop: walks the keys of `fields` in whatever order the map
      yields them, appending `column = $i` and binding the column's value as
      parameter i, for i = 1, 2, ... */
  method NumberFields(fields: map<Column, Value>) returns (sets: seq<Assignment>, params: seq<Value>)
    ensures Binds(sets, params, fields)
    ensures ColumnsOf(sets) == fields.Keys
    ensures DistinctColumns(sets)
  {
    sets, params := [], [];
    var i := 1;
    var pending := fields.Keys;
    while pending != {}
      invariant pending <= fields.Keys
      invariant i == |sets| + 1
      invariant ColumnsOf(sets) == fields.Keys - pending
      invariant Binds(sets, params, fields)
      invariant DistinctColumns(sets)
      decreases pending
    {
      var field :| field in pending;
      BindsAppend(sets, params, fields, field);
      MoveDone(fields.Keys, pending, field);
      sets := sets + [Assignment(field, i)];
      params := params + [fields[field]];
      i := i + 1;
      pending := pending - {field};
    }
  }

  /** A SET list bound from the command's field map, with the id appended,
      binds every placeholder to the command's value for its column. */
  lemma BoundToCommand(sets: seq<Assignment>, setParams: seq<Value>, fields: map<Column, Value>,
                       id: Uuid, body: string, updatedTime: Time)
    requires Binds(sets, setParams, fields)
    requires forall c :: c in fields ==> fields[c] == Intended(c, body, updatedTime)
    ensures |setParams + [Key(id)]| == |sets| + 1 && (setParams + [Key(id)])[|sets|] == Key(id)
    ensures forall j :: 0 <= j < |sets| ==> (setParams + [Key(id)])[j] == Intended(sets[j].column, body, updatedTime)
  {
  }

  /** Builds the partial UPDATE for `cmd`, as the store does: the fields to set
      go into a map (body only when non-empty, updated_time always), the SET
      list numbers them $1..$k in the map's order, and the review id is bound
      last as $(k+1). The "no fields to update" early return (a None
      statement) is never taken, and the statement performs exactly the
      partial update. */
  method BuildUpdate(cmd: UpdateReviewCommand) returns (stmt: Option<Statement>, params: seq<Value>)
    ensures stmt.Some?
    ensures |stmt.value.sets| == |Columns(cmd.body)|
    ensures forall j :: 0 <= j < |stmt.value.sets| ==> stmt.value.sets[j].param == j + 1
    ensures ColumnsOf(stmt.value.sets) == Columns(cmd.body)
    ensures DistinctColumns(stmt.value.sets)
    ensures |params| == |stmt.value.sets| + 1
    ensures forall j :: 0 <= j < |stmt.value.sets| ==>
      params[j] == Intended(stmt.value.sets[j].column, cmd.body, cmd.updatedTime)
    ensures stmt.value.whereParam == |params| && params[|params| - 1] == Key(cmd.id)
    ensures WellFormed(stmt.value, params)
    ensures forall table :: Execute(table, stmt.value, params) == PatchTable(table, cmd.id, cmd.body, cmd.updatedTime)
  {
    var id, body, updatedTime := cmd.id, cmd.body, cmd.updatedTime;
    var setFields: map<Column, Value> := map[];
    if body != "" {
      setFields := setFields[BodyColumn := Text(body)];
    }
    setFields := setFields[UpdatedTimeColumn := Stamp(updatedTime)];
    assert setFields.Keys == Columns(body);

    if |setFields| == 0 {
      return None, [];
    }

    var sets, setParams := NumberFields(setFields);
    DistinctCount(sets);
    BoundToCommand(sets, setParams, setFields, id, body, updatedTime);
    params := setParams + [Key(id)];
    stmt := Some(Update(sets, |sets| + 1));
    StatementPatches(sets, params, id, body, updatedTime);
  }
}
