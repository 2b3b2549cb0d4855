/**
 * The spreadsheet as the route handlers see it: each tab is a sequence of rows and each
 * row a sequence of cell strings. A tab's row 0 is the sheet's first row (the header),
 * so a scan of `A:G` sees row index i at sheet row i + 1, and a read of `A2:G` sees rows[1..].
 */
module Sheet {
  import opened Http

  type Row = seq<string>

  /** `row[i]`: `None` where the row is shorter (the value `undefined`). */
  function Cell(row: Row, i: nat): Option<string> {
    if i < |row| then Some(row[i]) else None
  }

  /** The result of a `values.get` call: the rows, or the message of the error it threw. */
  datatype Fetch = Fetched(rows: seq<Row>) | FetchFailed(message: string)

  /** The rows a read starting at row index `from` returns. */
  function Snapshot(rows: seq<Row>, from: nat): seq<Row> {
    if from <= |rows| then rows[from..] else []
  }

  function Max(a: nat, b: nat): nat {
    if a < b then b else a
  }

  function Blanks(n: nat): (r: Row)
    ensures |r| == n && forall i :: 0 <= i < n ==> r[i] == ""
  {
    seq(n, _ => "")
  }

  /**
   * Writing `vals` into one row from column `start`: the written cells take the new values,
   * the cells a short row lacked before `start` become blank, every other cell keeps its value.
   */
  function SetCells(row: Row, start: nat, vals: seq<string>): (r: Row)
    ensures |r| == Max(|row|, start + |vals|)
    ensures forall j :: 0 <= j < |r| ==>
      r[j] == if start <= j < start + |vals| then vals[j - start] else if j < |row| then row[j] else ""
  {
    var padded := if |row| < start then row + Blanks(start - |row|) else row;
    var rest := if start + |vals| < |padded| then padded[start + |vals|..] else [];
    padded[..start] + vals + rest
  }

  /** Writing the same cells twice is writing them once. */
  lemma SetCellsIdempotent(row: Row, start: nat, vals: seq<string>)
    ensures SetCells(SetCells(row, start, vals), start, vals) == SetCells(row, start, vals)
  {
    var once := SetCells(row, start, vals);
    var twice := SetCells(once, start, vals);
    assert |twice| == |once|;
    forall j | 0 <= j < |once| ensures twice[j] == once[j] {
    }
  }

  /** Writing one cell the row already has is a plain update of that cell. */
  lemma SetCellsInPlace(row: Row, c: nat, v: string)
    requires c < |row|
    ensures SetCells(row, c, [v]) == row[c := v]
  {
    var r := SetCells(row, c, [v]);
    assert |r| == |row|;
    forall j | 0 <= j < |r| ensures r[j] == row[c := v][j] {
    }
  }

  /** The row at index i, or an empty row below the last one. */
  function RowAt(rows: seq<Row>, i: nat): Row {
    if i < |rows| then rows[i] else []
  }

  /** Row k after writing `block` at (top, left). */
  function BlockRow(rows: seq<Row>, top: nat, left: nat, block: seq<Row>, k: nat): Row {
    if top <= k < top + |block| then SetCells(RowAt(rows, k), left, block[k - top]) else RowAt(rows, k)
  }

  /**
   * `values.update` of a block whose top-left cell is (top, left): row top + k of the tab
   * receives block[k] from column `left`, with empty rows added when the block reaches past
   * the last row; all other rows are as they were.
   */
  function UpdateBlock(rows: seq<Row>, top: nat, left: nat, block: seq<Row>): (r: seq<Row>)
    ensures |r| == if block == [] then |rows| else Max(|rows|, top + |block|)
    ensures forall k :: 0 <= k < |r| ==> r[k] == BlockRow(rows, top, left, block, k)
  {
    var n := if block == [] then |rows| else Max(|rows|, top + |block|);
    seq(n, k requires 0 <= k < n => BlockRow(rows, top, left, block, k))
  }

  /** `row[0] === key`. */
  predicate KeyIs(row: Row, key: string) {
    |row| > 0 && row[0] == key
  }

  /** `findIndex(row => row[0] === key)`: the first row carrying the key, if any. */
  function FirstMatch(rows: seq<Row>, key: string): (r: Option<nat>)
    ensures r.Some? ==> r.value < |rows| && KeyIs(rows[r.value], key)
    ensures r.Some? ==> forall j :: 0 <= j < r.value ==> !KeyIs(rows[j], key)
    ensures r.None? ==> forall j :: 0 <= j < |rows| ==> !KeyIs(rows[j], key)
  {
    if rows == [] then None
    else if KeyIs(rows[0], key) then Some(0)
    else match FirstMatch(rows[1..], key)
      case None => None
      case Some(j) => Some(j + 1)
  }

  /** A write that keeps every row's key column leaves the first match where it was. */
  lemma FirstMatchKeptByKeyPreservingWrite(rows: seq<Row>, rows': seq<Row>, key: string)
    requires |rows'| == |rows|
    requires forall j :: 0 <= j < |rows| ==> (KeyIs(rows'[j], key) <==> KeyIs(rows[j], key))
    ensures FirstMatch(rows', key) == FirstMatch(rows, key)
  {
    var a, b := FirstMatch(rows, key), FirstMatch(rows', key);
    if a.Some? && b.Some? {
      assert !(a.value < b.value) && !(b.value < a.value);
    }
  }

  /**
   * Writing `vals` at (i, start) of an existing row changes nothing but those cells:
   * no row is added, other rows are untouched, and the row's other cells keep their values.
   */
  lemma WriteIntoRowFrame(rows: seq<Row>, i: nat, start: nat, vals: seq<string>)
    requires i < |rows|
    ensures var r := UpdateBlock(rows, i, start, [vals]);
      && |r| == |rows|
      && (forall k :: 0 <= k < |rows| && k != i ==> r[k] == rows[k])
      && r[i] == SetCells(rows[i], start, vals)
  {
  }

  /** Repeating the same write leaves the table as one write left it. */
  lemma WriteIntoRowIdempotent(rows: seq<Row>, i: nat, start: nat, vals: seq<string>)
    requires i < |rows|
    ensures UpdateBlock(UpdateBlock(rows, i, start, [vals]), i, start, [vals]) == UpdateBlock(rows, i, start, [vals])
  {
    var once := UpdateBlock(rows, i, start, [vals]);
    var twice := UpdateBlock(once, i, start, [vals]);
    SetCellsIdempotent(rows[i], start, vals);
    assert |twice| == |once|;
    forall k | 0 <= k < |once| ensures twice[k] == once[k] {
    }
  }

  /**
   * The spreadsheet: its tabs by name, and the name of the first tab, which a range
   * without a tab name (`A:G`) refers to.
   */
  class Workbook {
    var tabs: map<string, seq<Row>>
    const first: string

    ghost predicate Valid()
      reads this
    {
      first in tabs
    }

    constructor (first: string, tabs: map<string, seq<Row>>)
      requires first in tabs
      ensures Valid() && this.first == first && this.tabs == tabs
    {
      this.first := first;
      this.tabs := tabs;
    }

    /** The first tab, holding one row per monitored service below its header. */
    function Registry(): seq<Row>
      reads this
      requires Valid()
    {
      tabs[first]
    }
  }
}
