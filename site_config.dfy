/**
 * `GET` and `POST /api/config` (src/app/api/config/route.ts): the site settings kept as
 * key/value rows in the `SiteConfig` tab below its header (range `SiteConfig!A2:B`).
 */
module SiteConfig {
  import opened Http
  import opened Sheet

  const ConfigTab: string := "SiteConfig"

  /** `acc[row[0]]`: an object key is a string, so a row without cells keys "undefined". */
  function KeyOf(row: Row): string {
    if |row| > 0 then row[0] else "undefined"
  }

  /** `row[1]`, `None` when the row has no second cell. */
  function ValueOf(row: Row): Option<string> {
    Cell(row, 1)
  }

  /** The object the `reduce` builds, row by row; a later row overrides an earlier one. */
  function ConfigOf(rows: seq<Row>): map<string, Option<string>>
    decreases |rows|
  {
    if rows == [] then map[]
    else ConfigOf(rows[..|rows| - 1])[KeyOf(rows[|rows| - 1]) := ValueOf(rows[|rows| - 1])]
  }

  /** The keys are exactly the keys the rows carry. */
  lemma {:induction false} ConfigKeys(rows: seq<Row>)
    ensures ConfigOf(rows).Keys == set i | 0 <= i < |rows| :: KeyOf(rows[i])
    decreases |rows|
  {
    if rows != [] {
      var init := rows[..|rows| - 1];
      ConfigKeys(init);
      assert forall i :: 0 <= i < |init| ==> init[i] == rows[i];
      var s := set i | 0 <= i < |rows| :: KeyOf(rows[i]);
      var s' := set i | 0 <= i < |init| :: KeyOf(init[i]);
      assert s == s' + {KeyOf(rows[|rows| - 1])};
    }
  }

  /** A key holds the value of the last row carrying it. */
  lemma {:induction false} ConfigLastWins(rows: seq<Row>, i: nat)
    requires i < |rows|
    requires forall j :: i < j < |rows| ==> KeyOf(rows[j]) != KeyOf(rows[i])
    ensures KeyOf(rows[i]) in ConfigOf(rows) && ConfigOf(rows)[KeyOf(rows[i])] == ValueOf(rows[i])
    decreases |rows|
  {
    if i < |rows| - 1 {
      var init := rows[..|rows| - 1];
      assert init[i] == rows[i];
      ConfigLastWins(init, i);
    }
  }

  /** The object depends on each row's key and value cells only. */
  lemma {:induction false} ConfigOfReadsKeysAndValues(rows: seq<Row>, rows': seq<Row>)
    requires |rows| == |rows'|
    requires forall i :: 0 <= i < |rows| ==> KeyOf(rows[i]) == KeyOf(rows'[i]) && ValueOf(rows[i]) == ValueOf(rows'[i])
    ensures ConfigOf(rows) == ConfigOf(rows')
    decreases |rows|
  {
    if rows != [] {
      ConfigOfReadsKeysAndValues(rows[..|rows| - 1], rows'[..|rows'| - 1]);
    }
  }

  /**
   * The `GET` handler: `configured` says whether `GOOGLE_SHEET_ID` is set and `read` is the
   * result of reading `SiteConfig!A2:B`. There is no session check.
   */
  method Get(configured: bool, read: Fetch) returns (r: Reply<map<string, Option<string>>>)
    ensures !configured ==> r == Err(500, "Not configured")
    ensures configured && read.FetchFailed? ==> r == Err(500, "Failed to fetch config")
    ensures configured && read.Fetched? ==> r == Ok(ConfigOf(read.rows))
  {
    if !configured {
      return Err(500, "Not configured");
    }
    if read.FetchFailed? {
      return Err(500, "Failed to fetch config");
    }
    var data := read.rows;
    var acc: map<string, Option<string>> := map[];
    var n := 0;
    while n < |data|
      invariant 0 <= n <= |data|
      invariant acc == ConfigOf(data[..n])
    {
      var row := data[n];
      acc := acc[KeyOf(row) := ValueOf(row)];
      n := n + 1;
      assert data[..n][..n - 1] == data[..n - 1];
    }
    assert data[..n] == data;
    return Ok(acc);
  }

  /** An empty tab reads as the empty object. */
  lemma EmptyTabIsEmptyConfig()
    ensures ConfigOf([]) == map[]
  {
  }

  /** A JSON object's entries, in `Object.entries` order. */
  type Entries = seq<(string, string)>

  predicate DistinctKeys(entries: Entries) {
    forall i, j :: 0 <= i < j < |entries| ==> entries[i].0 != entries[j].0
  }

  /** The object the entries describe. */
  function EntriesMap(entries: Entries): (m: map<string, Option<string>>)
    requires DistinctKeys(entries)
  {
    map i | 0 <= i < |entries| :: entries[i].0 := Some(entries[i].1)
  }

  /** `Object.entries(body).map(([key, value]) => [key, value])`. */
  function EntryRows(entries: Entries): seq<Row> {
    seq(|entries|, i requires 0 <= i < |entries| => [entries[i].0, entries[i].1])
  }

  /** Adding the last entry to the object of the others. */
  lemma EntriesMapSnoc(entries: Entries)
    requires entries != [] && DistinctKeys(entries)
    ensures var init, last := entries[..|entries| - 1], entries[|entries| - 1];
      DistinctKeys(init) && EntriesMap(entries) == EntriesMap(init)[last.0 := Some(last.1)]
  {
    var init, last := entries[..|entries| - 1], entries[|entries| - 1];
    InitDistinct(entries, init);
    var m, m' := EntriesMap(entries), EntriesMap(init)[last.0 := Some(last.1)];
    SnocKeys(entries, init, last);
    SnocValues(entries, init, last);
    assert forall k | k in m :: m[k] == m'[k];
  }

  /** Dropping the last entry keeps the keys distinct. */
  lemma InitDistinct(entries: Entries, init: Entries)
    requires entries != [] && DistinctKeys(entries) && init == entries[..|entries| - 1]
    ensures DistinctKeys(init)
  {
    assert forall i | 0 <= i < |init| :: init[i] == entries[i];
  }

  /** The keys of the object are those of the others plus the last one's. */
  lemma SnocKeys(entries: Entries, init: Entries, last: (string, string))
    requires entries == init + [last] && DistinctKeys(entries) && DistinctKeys(init)
    ensures EntriesMap(entries).Keys == EntriesMap(init)[last.0 := Some(last.1)].Keys
  {
    var m, m' := EntriesMap(entries), EntriesMap(init)[last.0 := Some(last.1)];
    forall k | k in m ensures k in m' {
      var i :| 0 <= i < |entries| && entries[i].0 == k;
      if i < |init| { assert init[i].0 == k; }
    }
    forall k | k in m' ensures k in m {
      if k != last.0 {
        var i :| 0 <= i < |init| && init[i].0 == k;
        assert entries[i].0 == k;
      } else {
        assert entries[|init|].0 == k;
      }
    }
  }

  /** Each key keeps the value of the one entry that carries it. */
  lemma SnocValues(entries: Entries, init: Entries, last: (string, string))
    requires entries == init + [last] && DistinctKeys(entries) && DistinctKeys(init)
    ensures forall k | k in EntriesMap(entries) && k in EntriesMap(init)[last.0 := Some(last.1)] ::
      EntriesMap(entries)[k] == EntriesMap(init)[last.0 := Some(last.1)][k]
  {
    var m, m' := EntriesMap(entries), EntriesMap(init)[last.0 := Some(last.1)];
    forall k | k in m && k in m' ensures m[k] == m'[k] {
      var i :| 0 <= i < |entries| && entries[i].0 == k;
      assert m[k] == Some(entries[i].1);
      if i < |init| {
        assert init[i] == entries[i];
        assert k != last.0 by { assert entries[|init|] == last; }
        assert EntriesMap(init)[k] == Some(init[i].1);
      } else {
        assert entries[i] == last;
      }
    }
  }

  /** Reading back the rows the entries are written as gives the object they came from. */
  lemma {:induction false} EntryRowsRoundTrip(entries: Entries)
    requires DistinctKeys(entries)
    ensures ConfigOf(EntryRows(entries)) == EntriesMap(entries)
    decreases |entries|
  {
    if entries != [] {
      var init, last := entries[..|entries| - 1], entries[|entries| - 1];
      EntriesMapSnoc(entries);
      EntryRowsRoundTrip(init);
      var rows := EntryRows(entries);
      assert rows[..|rows| - 1] == EntryRows(init);
      assert rows[|rows| - 1] == [last.0, last.1];
    }
  }

  /** The `SiteConfig` tab after `values.update` of `A2:B` with the entry rows. */
  function AfterPost(tab: seq<Row>, entries: Entries): seq<Row> {
    UpdateBlock(tab, 1, 0, EntryRows(entries))
  }

  /** When no stale setting row is left below the written ones, `GET` reads back the object posted. */
  lemma {:induction false} PostThenGet(tab: seq<Row>, entries: Entries)
    requires DistinctKeys(entries)
    requires |tab| <= 1 + |entries|
    ensures ConfigOf(Snapshot(AfterPost(tab, entries), 1)) == EntriesMap(entries)
  {
    var after := AfterPost(tab, entries);
    var written := EntryRows(entries);
    var read := Snapshot(after, 1);
    assert |read| == |written|;
    forall k | 0 <= k < |written|
      ensures KeyOf(read[k]) == KeyOf(written[k]) && ValueOf(read[k]) == ValueOf(written[k])
    {
      assert read[k] == after[k + 1] == SetCells(RowAt(tab, k + 1), 0, written[k]);
    }
    ConfigOfReadsKeysAndValues(read, written);
    EntryRowsRoundTrip(entries);
  }

  /**
   * As written, the update leaves old rows below the new ones in place, and a stale row
   * carrying a posted key overrides it on the next read: posting {b: "3"} over the rows
   * a=1, b=2 reads back b=2.
   */
  lemma StaleRowOverridesPost()
    ensures var tab := [["key", "value"], ["a", "1"], ["b", "2"]];
      var entries := [("b", "3")];
      && "b" in EntriesMap(entries) && EntriesMap(entries)["b"] == Some("3")
      && "b" in ConfigOf(Snapshot(AfterPost(tab, entries), 1))
      && ConfigOf(Snapshot(AfterPost(tab, entries), 1))["b"] == Some("2")
  {
    var tab := [["key", "value"], ["a", "1"], ["b", "2"]];
    var entries := [("b", "3")];
    var after := AfterPost(tab, entries);
    assert EntryRows(entries) == [["b", "3"]];
    assert after[1] == SetCells(["a", "1"], 0, ["b", "3"]) == ["b", "3"];
    assert after[2] == ["b", "2"];
    var snapshot := Snapshot(after, 1);
    assert snapshot == [["b", "3"], ["b", "2"]];
    ConfigLastWins(snapshot, 1);
  }

  /** The write the handler evidently intends: the setting rows become exactly the entry rows. */
  function AfterPostReplacing(tab: seq<Row>, entries: Entries): seq<Row> {
    [RowAt(tab, 0)] + EntryRows(entries)
  }

  /** With the replacing write, `GET` always reads back the object posted. */
  lemma ReplacingPostThenGet(tab: seq<Row>, entries: Entries)
    requires DistinctKeys(entries)
    ensures ConfigOf(Snapshot(AfterPostReplacing(tab, entries), 1)) == EntriesMap(entries)
  {
    assert Snapshot(AfterPostReplacing(tab, entries), 1) == EntryRows(entries);
    EntryRowsRoundTrip(entries);
  }

  /**
   * The `POST` handler: `hasToken` says whether a session token is present, `entries` is the
   * parsed body and `writeFault` whether the write threw. No tab named `SiteConfig` also
   * makes the write throw.
   */
  method Post(wb: Workbook, hasToken: bool, entries: Entries, writeFault: bool) returns (r: Reply<()>)
    requires wb.Valid()
    modifies wb
    ensures wb.Valid()
    ensures !hasToken ==> r == Err(401, "Unauthorized") && unchanged(wb)
    ensures hasToken && (writeFault || ConfigTab !in old(wb.tabs)) ==>
      r == Err(500, "Failed to update config") && unchanged(wb)
    ensures hasToken && !writeFault && ConfigTab in old(wb.tabs) ==>
      r == Ok(()) && wb.tabs == old(wb.tabs)[ConfigTab := AfterPost(old(wb.tabs)[ConfigTab], entries)]
  {
    if !hasToken {
      return Err(401, "Unauthorized");
    }
    var values := EntryRows(entries);
    if writeFault || ConfigTab !in wb.tabs {
      return Err(500, "Failed to update config");
    }
    wb.tabs := wb.tabs[ConfigTab := UpdateBlock(wb.tabs[ConfigTab], 1, 0, values)];
    return Ok(());
  }
}
