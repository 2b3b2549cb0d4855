/**
 * `POST /api/heartbeat` (src/app/api/heartbeat/route.ts): a job reports in, and the
 * status, last-ping and notes cells (columns D-F, indices 3..5) of its row are overwritten.
 * An id with no row is rejected; nothing is appended and nothing is escalated.
 */
module Heartbeat {
  import opened Http
  import opened Sheet

  datatype HeartbeatRequest = HeartbeatRequest(
    apiKey: Option<string>,     // the `x-api-key` header
    serviceId: Option<string>,  // body fields
    status: Option<string>,
    message: Option<string>)

  /** Column index of the reported status; last ping and notes follow it. */
  const StatusColumn: nat := 3

  /** The three cells written: `[status || 'nominal', now, message || '']`. */
  function PingCells(status: Option<string>, message: Option<string>, now: string): seq<string> {
    [Or(status, "nominal"), now, Or(message, "")]
  }

  /** The table after a heartbeat with `now` as the time written, when authorised and fetched. */
  function Apply(rows: seq<Row>, id: string, status: Option<string>, message: Option<string>, now: string): seq<Row> {
    match FirstMatch(rows, id)
    case None => rows
    case Some(i) => UpdateBlock(rows, i, StatusColumn, [PingCells(status, message, now)])
  }

  /**
   * Only the first row whose column 0 is the id changes, and in it only columns 3, 4, 5:
   * status (default "nominal"), the time, and the message (default ""). No row is added.
   */
  lemma ApplyFrame(rows: seq<Row>, id: string, status: Option<string>, message: Option<string>, now: string)
    requires FirstMatch(rows, id).Some?
    ensures var i, r := FirstMatch(rows, id).value, Apply(rows, id, status, message, now);
      && |r| == |rows|
      && (forall k :: 0 <= k < |rows| && k != i ==> r[k] == rows[k])
      && |r[i]| == Max(|rows[i]|, 6)
      && r[i][3] == Or(status, "nominal") && r[i][4] == now && r[i][5] == Or(message, "")
      && (forall c :: 0 <= c < |rows[i]| && (c < 3 || c > 5) ==> r[i][c] == rows[i][c])
      && (forall c :: |rows[i]| <= c < 3 ==> r[i][c] == "")
  {
    var i := FirstMatch(rows, id).value;
    WriteIntoRowFrame(rows, i, StatusColumn, PingCells(status, message, now));
  }

  /** Rows after the first match that carry the same id are left alone. */
  lemma ApplyLeavesLaterDuplicates(rows: seq<Row>, id: string, status: Option<string>, message: Option<string>, now: string, k: nat)
    requires k < |rows| && KeyIs(rows[k], id)
    requires FirstMatch(rows, id).Some? && FirstMatch(rows, id).value != k
    ensures FirstMatch(rows, id).value < k
    ensures Apply(rows, id, status, message, now)[k] == rows[k]
  {
    ApplyFrame(rows, id, status, message, now);
  }

  /** An id no row carries leaves the table as it was. */
  lemma ApplyUnknownId(rows: seq<Row>, id: string, status: Option<string>, message: Option<string>, now: string)
    requires forall k :: 0 <= k < |rows| ==> !KeyIs(rows[k], id)
    ensures Apply(rows, id, status, message, now) == rows
  {
  }

  /** The same heartbeat applied twice with the same time leaves the table as once does. */
  lemma ApplyIdempotent(rows: seq<Row>, id: string, status: Option<string>, message: Option<string>, now: string)
    ensures Apply(Apply(rows, id, status, message, now), id, status, message, now) == Apply(rows, id, status, message, now)
  {
    var once := Apply(rows, id, status, message, now);
    match FirstMatch(rows, id)
    case None =>
    case Some(i) =>
      ApplyFrame(rows, id, status, message, now);
      FirstMatchKeptByKeyPreservingWrite(rows, once, id);
      WriteIntoRowIdempotent(rows, i, StatusColumn, PingCells(status, message, now));
  }

  /**
   * The handler. `secret` is `HEARTBEAT_SECRET_KEY`, `now` the ISO time the server reads,
   * `readFault` and `writeFault` the message of an error thrown by the sheet read or write.
   * An empty first tab stands for a read that returned no `values`.
   */
  method Post(wb: Workbook, req: HeartbeatRequest, secret: Option<string>, now: string,
              readFault: Option<string>, writeFault: Option<string>)
    returns (r: Reply<string>)
    requires wb.Valid()
    modifies wb
    ensures wb.Valid()
    ensures
      if !KeyAccepted(req.apiKey, secret) then
        r == Err(401, "Unauthorized") && unchanged(wb)
      else if !Truthy(req.serviceId) then
        r == Err(400, "service_id is required") && unchanged(wb)
      else if readFault.Some? then
        r == Err(500, readFault.value) && unchanged(wb)
      else if old(wb.Registry()) == [] then
        r == Err(500, "Could not fetch sheet data") && unchanged(wb)
      else if FirstMatch(old(wb.Registry()), req.serviceId.value).None? then
        r == Err(404, "Service not found in master sheet") && unchanged(wb)
      else if writeFault.Some? then
        r == Err(500, writeFault.value) && unchanged(wb)
      else
        && r == Ok(now)
        && wb.tabs == old(wb.tabs)[wb.first := Apply(old(wb.Registry()), req.serviceId.value, req.status, req.message, now)]
  {
    if !Truthy(req.apiKey) || req.apiKey != secret {
      return Err(401, "Unauthorized");
    }
    if !Truthy(req.serviceId) {
      return Err(400, "service_id is required");
    }
    if readFault.Some? {
      return Err(500, readFault.value);
    }
    var values := wb.tabs[wb.first];
    if values == [] {
      return Err(500, "Could not fetch sheet data");
    }
    var rowIndex := FirstMatch(values, req.serviceId.value);
    var currentTime := now;
    if rowIndex.None? {
      return Err(404, "Service not found in master sheet");
    }
    if writeFault.Some? {
      return Err(500, writeFault.value);
    }
    var cells := PingCells(req.status, req.message, currentTime);
    wb.tabs := wb.tabs[wb.first := UpdateBlock(values, rowIndex.value, StatusColumn, [cells])];
    return Ok(currentTime);
  }
}
