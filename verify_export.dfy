/**
 * The count export of `verify_export.py`: the joined query rows become a
 * twelve-column sheet. Missing usernames fall back to the session owner,
 * the system quantity comes from the master map, the counted quantity is
 * coerced to an integer, the difference is taken where there is a system
 * quantity, timestamps are moved to Bogota time (a value that does not
 * convert is left missing), text cells are scrubbed of control characters,
 * and the columns are put in the export's order.
 */
module VerifyExport {
  import opened Wrappers
  import opened Timestamps
  import opened Sanitizer
  import opened Frames
  import opened ExportRules
  import opened TimestampExamples

  /** The sheet's columns, in order. */
  const ColumnsOrder: seq<Column> :=
    [Id, SessionId, InventoryStage, Username, Timestamp, ItemCode, ItemDescription,
     CountedLocation, CountedQty, SystemQty, Difference, BinLocationSystem]

  /** The sheet names each column once. */
  lemma ColumnsOrderDistinct()
    ensures Distinct(ColumnsOrder)
  {
  }

  /** The seven columns the export passes through as the query returned them. */
  predicate Plain(c: Column) {
    Selected(c) && c != Username && c != CountedQty && c != Timestamp
  }

  // ---------------------------------------------------------------------------
  // What the sheet holds, row by row

  /** The username, or else the session owner's, scrubbed; missing when there is neither. */
  function ExportedUsername(r: QueryRow, owners: map<int, string>): Value {
    if r.username.Some? then Text(Sanitize(r.username.value))
    else if r.sessionId in owners then Text(Sanitize(owners[r.sessionId]))
    else Null
  }

  /** The master quantity of the item, missing for an item the master does not list. */
  function ExportedSystemQty(r: QueryRow, master: map<string, int>): Value {
    if r.itemCode in master then Int(master[r.itemCode]) else Null
  }

  /** The counted quantity read as a number, 0 where it does not read as one. */
  function ExportedCountedQty(r: QueryRow): Value {
    Int(NumericValue(r.countedQty).GetOr(0))
  }

  /** Counted less the master quantity, missing for an item the master does not list. */
  function ExportedDifference(r: QueryRow, master: map<string, int>): Value {
    if r.itemCode in master then Int(NumericValue(r.countedQty).GetOr(0) - master[r.itemCode]) else Null
  }

  /** The timestamp as Bogota wall-clock text, missing where it does not convert. */
  function ExportedTimestamp(r: QueryRow, z: Zones): Value {
    match Normalize(r.timestamp, z)
    case Some(s) => Text(s)
    case None => Null
  }

  /**
   * The sheet shows the query rows: each plain column scrubbed, and the
   * username, quantity and timestamp columns as the row-by-row functions above.
   */
  ghost predicate Shows(sheet: map<Column, seq<Value>>, rows: seq<QueryRow>, owners: map<int, string>,
                        master: map<string, int>, z: Zones)
  {
    ShowsPlain(sheet, rows) && ShowsDerived(sheet, rows, owners, master, z)
  }

  /** Each plain column holds the query's cells, scrubbed. */
  ghost predicate ShowsPlain(sheet: map<Column, seq<Value>>, rows: seq<QueryRow>) {
    forall c | Plain(c) :: c in sheet && |sheet[c]| == |rows|
      && forall i | 0 <= i < |rows| :: sheet[c][i] == SanitizeCell(QueryCell(rows[i], c))
  }

  /** The username, quantity and timestamp columns hold the row-by-row values. */
  ghost predicate ShowsDerived(sheet: map<Column, seq<Value>>, rows: seq<QueryRow>, owners: map<int, string>,
                               master: map<string, int>, z: Zones)
  {
    && Username in sheet && |sheet[Username]| == |rows|
    && (forall i | 0 <= i < |rows| :: sheet[Username][i] == ExportedUsername(rows[i], owners))
    && SystemQty in sheet && |sheet[SystemQty]| == |rows|
    && (forall i | 0 <= i < |rows| :: sheet[SystemQty][i] == ExportedSystemQty(rows[i], master))
    && CountedQty in sheet && |sheet[CountedQty]| == |rows|
    && (forall i | 0 <= i < |rows| :: sheet[CountedQty][i] == ExportedCountedQty(rows[i]))
    && Difference in sheet && |sheet[Difference]| == |rows|
    && (forall i | 0 <= i < |rows| :: sheet[Difference][i] == ExportedDifference(rows[i], master))
    && Timestamp in sheet && |sheet[Timestamp]| == |rows|
    && (forall i | 0 <= i < |rows| :: sheet[Timestamp][i] == ExportedTimestamp(rows[i], z))
  }

  // ---------------------------------------------------------------------------
  // The export

  /**
   * `test_export_logic`: None for no rows; otherwise the twelve columns in
   * `ColumnsOrder`, one row per query row, each cell as the functions above
   * say.
   */
  method TestExportLogic(rows: seq<QueryRow>, owners: map<int, string>, master: map<string, int>, z: Zones)
    returns (df: Frame?)
    ensures df == null <==> rows == []
    ensures df != null ==> fresh(df) && df.Valid() && df.Labelled() && df.columns == ColumnsOrder && df.height == |rows|
    ensures df != null ==> Shows(df.data, rows, owners, master, z)
  {
    QueryDataLabels(rows);
    df := new Frame(QueryColumns, QueryData(rows), |rows|);
    if df.height == 0 {
      return null;
    }
    ConvertColumns(df, rows, owners, master, z);
    ghost var converted := df.data;
    df.SanitizeText();
    ColumnsOrderDistinct();
    df.Reorder(ColumnsOrder);
    SheetShows(rows, owners, master, z, converted, df.data);
  }

  /** The converted columns, scrubbed and cut down to `ColumnsOrder`, are the rows as the export shows them. */
  lemma SheetShows(rows: seq<QueryRow>, owners: map<int, string>, master: map<string, int>, z: Zones,
                   converted: map<Column, seq<Value>>, sheet: map<Column, seq<Value>>)
    requires Converted(QueryData(rows), owners, master, z, converted)
    requires forall c | c in ColumnsOrder ::
      c in sheet && sheet[c] == if c in converted then SanitizeColumn(converted[c]) else Nulls(|rows|)
    ensures Shows(sheet, rows, owners, master, z)
  {
    forall c | Plain(c)
      ensures c in sheet && sheet[c] == SanitizeColumn(QueryData(rows)[c])
    {
      PlainShown(c);
    }
    assert Username in ColumnsOrder && SystemQty in ColumnsOrder && CountedQty in ColumnsOrder;
    assert Difference in ColumnsOrder && Timestamp in ColumnsOrder;
    UsernamesExported(rows, owners);
    QuantitiesExported(rows, master);
    TimestampsExported(rows, z);
  }

  /** What the conversion steps leave of the query's columns `d0`, column by column. */
  ghost predicate Converted(d0: map<Column, seq<Value>>, owners: map<int, string>, master: map<string, int>, z: Zones,
                            d: map<Column, seq<Value>>)
  {
    && (forall c | Plain(c) :: c in d0 && c in d && d[c] == d0[c])
    && Username in d0 && SessionId in d0 && ItemCode in d0 && CountedQty in d0 && Timestamp in d0
    && |d0[Username]| == |d0[SessionId]| && |d0[CountedQty]| == |d0[ItemCode]|
    && Username in d && d[Username] == FilledUsernames(d0[Username], d0[SessionId], owners)
    && SystemQty in d && d[SystemQty] == SystemQtys(d0[ItemCode], master)
    && CountedQty in d && d[CountedQty] == CountedQtys(d0[CountedQty])
    && Difference in d && d[Difference] == Differences(CountedQtys(d0[CountedQty]), Numerics(SystemQtys(d0[ItemCode], master)))
    && Timestamp in d && d[Timestamp] == LocalTexts(Instants(d0[Timestamp], z), z)
  }

  /** The sheet shows every plain column. */
  lemma PlainShown(c: Column)
    requires Plain(c)
    ensures c in ColumnsOrder
  {
  }

  // ---------------------------------------------------------------------------
  // The steps

  /**
   * Lines 77-91: the enrichment and conversion steps on the query's frame,
   * column by column; the helper column `timestamp_dt` is left in place.
   */
  method ConvertColumns(df: Frame, rows: seq<QueryRow>, owners: map<int, string>, master: map<string, int>, z: Zones)
    requires df.Valid() && df.data == QueryData(rows) && df.height == |rows|
    modifies df
    ensures df.Valid() && df.height == |rows|
    ensures Converted(QueryData(rows), owners, master, z, df.data)
  {
    FillUsernames(df, owners);
    ghost var filled := df.data;
    EnrichQuantities(df, master);
    ghost var enriched := df.data;
    ConvertTimestamps(df, z);
    StepsConvert(QueryData(rows), owners, master, z, filled, enriched, df.data);
  }

  /** The three steps, one after the other, leave the columns `Converted` says. */
  lemma StepsConvert(d0: map<Column, seq<Value>>, owners: map<int, string>, master: map<string, int>, z: Zones,
                     filled: map<Column, seq<Value>>, enriched: map<Column, seq<Value>>, d: map<Column, seq<Value>>)
    requires forall c | Plain(c) :: c in d0
    requires Username in d0 && SessionId in d0 && ItemCode in d0 && CountedQty in d0 && Timestamp in d0
    requires |d0[Username]| == |d0[SessionId]| && |d0[CountedQty]| == |d0[ItemCode]|
    requires filled == d0[Username := FilledUsernames(d0[Username], d0[SessionId], owners)]
    requires var system := SystemQtys(filled[ItemCode], master);
      var counted := CountedQtys(filled[CountedQty]);
      var numeric := Numerics(system);
      enriched == filled[SystemQty := system][CountedQty := counted][SystemQtyNumeric := numeric]
        [Difference := Differences(counted, numeric)] - {SystemQtyNumeric}
    requires Timestamp in enriched
    requires var instants := Instants(enriched[Timestamp], z);
      d == enriched[TimestampDt := instants][Timestamp := LocalTexts(instants, z)]
    ensures Converted(d0, owners, master, z, d)
  {
  }

  /** Lines 77-78: `df['username'] = df['username'].fillna(df['session_id'].map(session_map))`. */
  method FillUsernames(df: Frame, owners: map<int, string>)
    requires df.Valid() && Username in df.data && SessionId in df.data
    modifies df
    ensures df.Valid() && df.height == old(df.height) && df.columns == old(df.columns)
    ensures old(df.Labelled()) ==> df.Labelled()
    ensures df.data == old(df.data)[Username := FilledUsernames(old(df.data)[Username], old(df.data)[SessionId], owners)]
  {
    df.Assign(Username, FilledUsernames(df.data[Username], df.data[SessionId], owners));
  }

  /** Lines 80-85: the system quantity, the coerced counted quantity and their difference. */
  method EnrichQuantities(df: Frame, master: map<string, int>)
    requires df.Valid() && ItemCode in df.data && CountedQty in df.data
    modifies df
    ensures df.Valid() && df.height == old(df.height)
    ensures old(df.Labelled()) ==> df.Labelled()
    ensures df.columns == Without(old(df.columns), SystemQtyNumeric)
      + (if SystemQty in old(df.data) then [] else [SystemQty])
      + (if Difference in old(df.data) then [] else [Difference])
    ensures var system := SystemQtys(old(df.data)[ItemCode], master);
      var counted := CountedQtys(old(df.data)[CountedQty]);
      var numeric := Numerics(system);
      df.data == old(df.data)[SystemQty := system][CountedQty := counted][SystemQtyNumeric := numeric]
        [Difference := Differences(counted, numeric)] - {SystemQtyNumeric}
  {
    ghost var c0, d0 := df.columns, df.data;
    df.Assign(SystemQty, SystemQtys(df.data[ItemCode], master));
    ghost var c1 := df.columns;
    df.Assign(CountedQty, CountedQtys(df.data[CountedQty]));
    ghost var c2 := df.columns;
    df.Assign(SystemQtyNumeric, Numerics(df.data[SystemQty]));
    ghost var c3 := df.columns;
    df.Assign(Difference, Differences(df.data[CountedQty], df.data[SystemQtyNumeric]));
    ghost var c4 := df.columns;
    df.Delete(SystemQtyNumeric);
    EnrichedLabels(c0, c1, c2, c3, c4, SystemQty in d0, SystemQtyNumeric in d0, Difference in d0);
  }

  /**
   * The labels the four assignments and the deletion leave: the old ones
   * less `system_qty_numeric`, then `system_qty` and `difference` where new.
   */
  lemma EnrichedLabels(c0: seq<Column>, c1: seq<Column>, c2: seq<Column>, c3: seq<Column>, c4: seq<Column>,
                       hasSystem: bool, hasNumeric: bool, hasDifference: bool)
    requires c1 == if hasSystem then c0 else c0 + [SystemQty]
    requires c2 == c1
    requires c3 == if hasNumeric then c2 else c2 + [SystemQtyNumeric]
    requires c4 == if hasDifference then c3 else c3 + [Difference]
    ensures Without(c4, SystemQtyNumeric) == Without(c0, SystemQtyNumeric)
      + (if hasSystem then [] else [SystemQty]) + (if hasDifference then [] else [Difference])
  {
    if !hasSystem {
      WithoutAppend(c0, SystemQty, SystemQtyNumeric);
    }
    if !hasNumeric {
      WithoutAppend(c2, SystemQtyNumeric, SystemQtyNumeric);
    }
    if !hasDifference {
      WithoutAppend(c3, Difference, SystemQtyNumeric);
    }
  }

  /** Lines 88-91: the instant column, then the timestamp as Bogota wall-clock text; NaT leaves it missing. */
  method ConvertTimestamps(df: Frame, z: Zones)
    requires df.Valid() && Timestamp in df.data
    modifies df
    ensures df.Valid() && df.height == old(df.height)
    ensures old(df.Labelled()) ==> df.Labelled()
    ensures df.columns == old(df.columns) + (if TimestampDt in old(df.data) then [] else [TimestampDt])
    ensures var instants := Instants(old(df.data)[Timestamp], z);
      df.data == old(df.data)[TimestampDt := instants][Timestamp := LocalTexts(instants, z)]
  {
    df.Assign(TimestampDt, Instants(df.data[Timestamp], z));
    df.Assign(Timestamp, LocalTexts(df.data[TimestampDt], z));
  }

  // ---------------------------------------------------------------------------
  // The steps, column by column, against the row-by-row definitions

  /** The filled and scrubbed username column is `ExportedUsername` of each row. */
  lemma UsernamesExported(rows: seq<QueryRow>, owners: map<int, string>)
    ensures var d0 := QueryData(rows);
      var col := SanitizeColumn(FilledUsernames(d0[Username], d0[SessionId], owners));
      |col| == |rows| && forall i | 0 <= i < |rows| :: col[i] == ExportedUsername(rows[i], owners)
  {
  }

  /** The three quantity columns, scrubbed, are the row-by-row quantities. */
  lemma QuantitiesExported(rows: seq<QueryRow>, master: map<string, int>)
    ensures var d0 := QueryData(rows);
      var system := SystemQtys(d0[ItemCode], master);
      var counted := CountedQtys(d0[CountedQty]);
      var difference := Differences(counted, Numerics(system));
      |system| == |counted| == |difference| == |rows|
      && (forall i | 0 <= i < |rows| :: SanitizeColumn(system)[i] == ExportedSystemQty(rows[i], master))
      && (forall i | 0 <= i < |rows| :: SanitizeColumn(counted)[i] == ExportedCountedQty(rows[i]))
      && (forall i | 0 <= i < |rows| :: SanitizeColumn(difference)[i] == ExportedDifference(rows[i], master))
  {
  }

  /** The converted and scrubbed timestamp column is `ExportedTimestamp` of each row. */
  lemma TimestampsExported(rows: seq<QueryRow>, z: Zones)
    ensures var col := SanitizeColumn(LocalTexts(Instants(QueryData(rows)[Timestamp], z), z));
      |col| == |rows| && forall i | 0 <= i < |rows| :: col[i] == ExportedTimestamp(rows[i], z)
  {
    TimestampColumnExported(QueryData(rows)[Timestamp], rows, z);
  }

  /** A column of the rows' raw timestamps, converted and scrubbed, is `ExportedTimestamp` of each row. */
  lemma TimestampColumnExported(ts: seq<Value>, rows: seq<QueryRow>, z: Zones)
    requires |ts| == |rows| && forall i | 0 <= i < |rows| :: ts[i] == Text(rows[i].timestamp)
    ensures var col := SanitizeColumn(LocalTexts(Instants(ts, z), z));
      |col| == |rows| && forall i | 0 <= i < |rows| :: col[i] == ExportedTimestamp(rows[i], z)
  {
    forall i | 0 <= i < |rows|
      ensures SanitizeColumn(LocalTexts(Instants(ts, z), z))[i] == ExportedTimestamp(rows[i], z)
    {
      TimestampCellExported(rows[i], z);
    }
  }

  /** One row's timestamp: converted, rendered and scrubbed, is `ExportedTimestamp`. */
  lemma TimestampCellExported(r: QueryRow, z: Zones)
    ensures SanitizeCell(LocalCell(InstantCell(Text(r.timestamp), z), z)) == ExportedTimestamp(r, z)
  {
    LocalOfInstant(Text(r.timestamp), z);
    if Normalize(r.timestamp, z).Some? {
      ExportTextIsClean(Normalize(r.timestamp, z).value);
    }
  }

  // ---------------------------------------------------------------------------
  // The sheet, as a whole

  /** The sheet keeps the query's rows in their order: `ORDER BY sc.id DESC` still holds of the `id` column. */
  lemma IdsKeepOrder(sheet: map<Column, seq<Value>>, rows: seq<QueryRow>, owners: map<int, string>,
                     master: map<string, int>, z: Zones)
    requires Shows(sheet, rows, owners, master, z) && IdDescending(rows)
    ensures Id in sheet && |sheet[Id]| == |rows|
    ensures forall i, j | 0 <= i < j < |rows| :: sheet[Id][i].Int? && sheet[Id][j].Int? && sheet[Id][i].n > sheet[Id][j].n
  {
    assert Plain(Id);
  }

  /** The script's one test row: ITEM001, counted 10, by user1 in session 1, stamped with an `isoformat()` value. */
  const TestRow: QueryRow :=
    QueryRow(1, 1, "2025-11-28T15:09:54.123456", "ITEM001", Some("Test Item"), Int(10), "LOC1", Some("BIN1"), Some("user1"), 1)

  /**
   * Against the master map {'ITEM001': 5} the test row shows a system
   * quantity of 5, the counted 10 and a difference of 5.
   */
  lemma TestRowQuantities(r: QueryRow, master: map<string, int>)
    requires r == TestRow && master == map["ITEM001" := 5]
    ensures ExportedSystemQty(r, master) == Int(5) && ExportedCountedQty(r) == Int(10)
    ensures ExportedDifference(r, master) == Int(5)
  {
  }

  /** The test row shows user1, and its timestamp five hours back without the microseconds. */
  lemma TestRowUserAndTime(r: QueryRow, owners: map<int, string>)
    requires r == TestRow && owners == map[1 := "user1"]
    ensures ExportedUsername(r, owners) == Text("user1")
    ensures ExportedTimestamp(r, AsWritten) == Text("2025-11-28 10:09:54")
  {
    var name := r.username.value;
    assert name == "user1";
    assert IsClean(name);
    SanitizeFixesExactlyClean(name);
    IsoMicrosExported();
  }
}
