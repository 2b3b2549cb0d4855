/**
 * `POST /api/services/control` (src/app/api/services/control/route.ts): an administrator
 * enables, disables or toggles a service by rewriting its active flag (column I, index 8).
 */
module ServiceControl {
  import opened Http
  import opened Text
  import opened Sheet

  datatype ControlRequest = ControlRequest(serviceId: Option<string>, action: Option<string>)

  const ActiveColumn: nat := 8

  /** `String(cell).toUpperCase() === "FALSE"`; a missing cell prints as "undefined". */
  predicate ReadsFalse(current: Option<string>) {
    current.Some? && Upper(current.value) == "FALSE"
  }

  /**
   * The value written for an action, given the current cell: `disable` writes "FALSE",
   * `toggle` writes "TRUE" exactly when the cell reads "FALSE" in any case, and every other
   * action, `enable` and unrecognised ones alike, writes "TRUE".
   */
  function NewState(action: string, current: Option<string>): (s: string)
    ensures s == "TRUE" || s == "FALSE"
    ensures action == "disable" ==> s == "FALSE"
    ensures action == "toggle" ==> (s == "TRUE" <==> ReadsFalse(current))
    ensures action != "toggle" && action != "disable" ==> s == "TRUE"
  {
    if action == "toggle" then (if ReadsFalse(current) then "TRUE" else "FALSE")
    else if action == "disable" then "FALSE"
    else "TRUE"
  }

  /** The table after an action on `id`, when authorised and fetched. */
  function Apply(rows: seq<Row>, id: string, action: string): seq<Row> {
    match FirstMatch(rows, id)
    case None => rows
    case Some(i) => UpdateBlock(rows, i, ActiveColumn, [[NewState(action, Cell(rows[i], ActiveColumn))]])
  }

  /** Only cell 8 of the first matching row changes (a short row is padded with blanks). */
  lemma ApplyFrame(rows: seq<Row>, id: string, action: string)
    requires FirstMatch(rows, id).Some?
    ensures var i, r := FirstMatch(rows, id).value, Apply(rows, id, action);
      && |r| == |rows|
      && (forall k :: 0 <= k < |rows| && k != i ==> r[k] == rows[k])
      && |r[i]| == Max(|rows[i]|, 9)
      && r[i][8] == NewState(action, Cell(rows[i], 8))
      && (forall c :: 0 <= c < |rows[i]| && c != 8 ==> r[i][c] == rows[i][c])
      && (forall c :: |rows[i]| <= c < 8 ==> r[i][c] == "")
  {
    var i := FirstMatch(rows, id).value;
    WriteIntoRowFrame(rows, i, ActiveColumn, [NewState(action, Cell(rows[i], ActiveColumn))]);
  }

  /** An unknown id leaves the table as it was. */
  lemma ApplyUnknownId(rows: seq<Row>, id: string, action: string)
    requires forall k :: 0 <= k < |rows| ==> !KeyIs(rows[k], id)
    ensures Apply(rows, id, action) == rows
  {
  }

  /** The first matching row is the same one before and after an action. */
  lemma ApplyKeepsMatch(rows: seq<Row>, id: string, action: string)
    ensures FirstMatch(Apply(rows, id, action), id) == FirstMatch(rows, id)
  {
    if FirstMatch(rows, id).Some? {
      ApplyFrame(rows, id, action);
      FirstMatchKeptByKeyPreservingWrite(rows, Apply(rows, id, action), id);
    }
  }

  /** `enable` and `disable` are idempotent whatever the flag was before. */
  lemma SetActionIdempotent(rows: seq<Row>, id: string, action: string)
    requires action != "toggle"
    ensures Apply(Apply(rows, id, action), id, action) == Apply(rows, id, action)
  {
    match FirstMatch(rows, id)
    case None =>
    case Some(i) =>
      var v := NewState(action, Cell(rows[i], ActiveColumn));
      var once := Apply(rows, id, action);
      ApplyKeepsMatch(rows, id, action);
      ApplyFrame(rows, id, action);
      assert NewState(action, Cell(once[i], ActiveColumn)) == v;
      WriteIntoRowIdempotent(rows, i, ActiveColumn, [v]);
  }

  /** When the matched row has a flag cell, an action is a plain update of that one cell. */
  lemma ApplyInPlace(rows: seq<Row>, id: string, action: string)
    requires FirstMatch(rows, id).Some? && ActiveColumn < |rows[FirstMatch(rows, id).value]|
    ensures var i := FirstMatch(rows, id).value;
      Apply(rows, id, action) == rows[i := rows[i][ActiveColumn := NewState(action, Some(rows[i][ActiveColumn]))]]
  {
    var i := FirstMatch(rows, id).value;
    var v := NewState(action, Some(rows[i][ActiveColumn]));
    WriteIntoRowFrame(rows, i, ActiveColumn, [v]);
    SetCellsInPlace(rows[i], ActiveColumn, v);
  }

  /** Toggling a "TRUE" or "FALSE" cell twice gives the cell back. */
  lemma ToggleValueTwice(c: string)
    requires c == "TRUE" || c == "FALSE"
    ensures NewState("toggle", Some(NewState("toggle", Some(c)))) == c
  {
    assert Upper("TRUE") == "TRUE" && Upper("FALSE") == "FALSE";
  }

  /** Toggling a flag that holds exactly "TRUE" or "FALSE" twice restores the table. */
  lemma ToggleTwiceRestores(rows: seq<Row>, id: string)
    requires FirstMatch(rows, id).Some?
    requires var i := FirstMatch(rows, id).value;
      Cell(rows[i], ActiveColumn) == Some("TRUE") || Cell(rows[i], ActiveColumn) == Some("FALSE")
    ensures Apply(Apply(rows, id, "toggle"), id, "toggle") == rows
  {
    var i := FirstMatch(rows, id).value;
    var row := rows[i];
    var v1 := NewState("toggle", Some(row[ActiveColumn]));
    ApplyInPlace(rows, id, "toggle");
    var once := rows[i := row[ActiveColumn := v1]];
    ApplyKeepsMatch(rows, id, "toggle");
    ApplyInPlace(once, id, "toggle");
    ToggleValueTwice(row[ActiveColumn]);
    UpdateTwiceRestores(row, ActiveColumn, v1);
    assert once[i := row] == rows;
  }

  /** Overwriting a cell and then writing its old value back gives the row back. */
  lemma UpdateTwiceRestores(row: Row, c: nat, v: string)
    requires c < |row|
    ensures row[c := v][c := row[c]] == row
  {
    var restored := row[c := v][c := row[c]];
    assert |restored| == |row|;
    forall j | 0 <= j < |row| ensures restored[j] == row[j] {
    }
  }

  /**
   * The handler. `hasToken` says whether a session token is present; `readFault` and
   * `writeFault` are the message of an error thrown by the read of `A:I` or by the write.
   * An empty first tab stands for a read that returned no `values`.
   */
  method Post(wb: Workbook, hasToken: bool, req: ControlRequest, readFault: Option<string>, writeFault: Option<string>)
    returns (r: Reply<bool>)
    requires wb.Valid()
    modifies wb
    ensures wb.Valid()
    ensures
      if !hasToken then
        r == Err(401, "Unauthorized") && unchanged(wb)
      else if !Truthy(req.serviceId) || !Truthy(req.action) then
        r == Err(400, "Missing parameters") && unchanged(wb)
      else if readFault.Some? then
        r == Err(500, readFault.value) && unchanged(wb)
      else if old(wb.Registry()) == [] then
        r == Err(404, "Data not found") && unchanged(wb)
      else if FirstMatch(old(wb.Registry()), req.serviceId.value).None? then
        r == Err(404, "Service not found") && unchanged(wb)
      else if writeFault.Some? then
        r == Err(500, writeFault.value) && unchanged(wb)
      else
        var i := FirstMatch(old(wb.Registry()), req.serviceId.value).value;
        && r == Ok(NewState(req.action.value, Cell(old(wb.Registry())[i], ActiveColumn)) == "TRUE")
        && wb.tabs == old(wb.tabs)[wb.first := Apply(old(wb.Registry()), req.serviceId.value, req.action.value)]
  {
    if !hasToken {
      return Err(401, "Unauthorized");
    }
    if !Truthy(req.serviceId) || !Truthy(req.action) {
      return Err(400, "Missing parameters");
    }
    if readFault.Some? {
      return Err(500, readFault.value);
    }
    var data := wb.tabs[wb.first];
    if data == [] {
      return Err(404, "Data not found");
    }
    var rowIndex := FirstMatch(data, req.serviceId.value);
    if rowIndex.None? {
      return Err(404, "Service not found");
    }
    var action := req.action.value;
    var newState := "TRUE";
    if action == "toggle" {
      var currentState := Cell(data[rowIndex.value], ActiveColumn);
      newState := if ReadsFalse(currentState) then "TRUE" else "FALSE";
    } else if action == "disable" {
      newState := "FALSE";
    } else if action == "enable" {
      newState := "TRUE";
    }
    if writeFault.Some? {
      return Err(500, writeFault.value);
    }
    wb.tabs := wb.tabs[wb.first := UpdateBlock(data, rowIndex.value, ActiveColumn, [[newState]])];
    return Ok(newState == "TRUE");
  }
}
