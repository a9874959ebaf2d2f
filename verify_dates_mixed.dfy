/**
 * The export of `verify_dates_mixed.py`: the same joined query rows, the
 * username fallback, then the timestamps read with `format='mixed'` and
 * moved to Bogota time, where a value that does not convert is kept as it
 * was (`converted_ts.fillna(original_ts)`), then the control-character
 * scrub. There is no quantity enrichment and no reordering: the frame keeps
 * the query's columns, plus the instant column `timestamp_dt`.
 */
module VerifyDatesMixed {
  import opened Wrappers
  import opened Timestamps
  import opened Sanitizer
  import opened Frames
  import opened ExportRules
  import opened VerifyExport
  import opened TimestampExamples

  /** The frame's columns at the end: the query's, then `timestamp_dt`. */
  const MixedColumns: seq<Column> := QueryColumns + [TimestampDt]

  /** The eight query columns the script passes through, scrubbed. */
  predicate Passed(c: Column) {
    Selected(c) && c != Username && c != Timestamp
  }

  /** The timestamp as Bogota wall-clock text, or the raw value where it does not convert; scrubbed. */
  function MixedTimestamp(r: QueryRow, z: Zones): Value {
    Text(Sanitize(NormalizeOrKeep(r.timestamp, z)))
  }

  /**
   * The frame shows the query rows: each passed-through column scrubbed, the
   * username filled, the timestamp converted or kept, and `timestamp_dt`
   * holding the instant (missing where the value does not convert).
   */
  ghost predicate MixedShows(sheet: map<Column, seq<Value>>, rows: seq<QueryRow>, owners: map<int, string>, z: Zones) {
    && (forall c | Passed(c) :: c in sheet && |sheet[c]| == |rows|
          && forall i | 0 <= i < |rows| :: sheet[c][i] == SanitizeCell(QueryCell(rows[i], c)))
    && Username in sheet && |sheet[Username]| == |rows|
    && (forall i | 0 <= i < |rows| :: sheet[Username][i] == ExportedUsername(rows[i], owners))
    && Timestamp in sheet && |sheet[Timestamp]| == |rows|
    && (forall i | 0 <= i < |rows| :: sheet[Timestamp][i] == MixedTimestamp(rows[i], z))
    && TimestampDt in sheet && |sheet[TimestampDt]| == |rows|
    && (forall i | 0 <= i < |rows| :: sheet[TimestampDt][i] == InstantCell(Text(rows[i].timestamp), z))
  }

  // ---------------------------------------------------------------------------
  // The export

  /**
   * `test_export_logic` of the mixed-format script: None for no rows;
   * otherwise the query's columns and `timestamp_dt`, one row per query row,
   * each cell as `MixedShows` says.
   */
  method TestMixedDates(rows: seq<QueryRow>, owners: map<int, string>, z: Zones) returns (df: Frame?)
    ensures df == null <==> rows == []
    ensures df != null ==> fresh(df) && df.Valid() && df.Labelled() && df.columns == MixedColumns && df.height == |rows|
    ensures df != null ==> MixedShows(df.data, rows, owners, z)
  {
    QueryDataLabels(rows);
    df := new Frame(QueryColumns, QueryData(rows), |rows|);
    if df.height == 0 {
      return null;
    }
    FillUsernames(df, owners);
    ghost var filled := df.data;
    ConvertOrKeepTimestamps(df, z);
    ghost var converted := df.data;
    df.SanitizeText();
    MixedSheetShows(rows, owners, z, filled, converted, df.data);
  }

  /**
   * Lines 102-108: the raw column saved, the instant column added, then the
   * timestamp as Bogota wall-clock text where it converts and the saved raw
   * value where it does not.
   */
  method ConvertOrKeepTimestamps(df: Frame, z: Zones)
    requires df.Valid() && Timestamp in df.data
    modifies df
    ensures df.Valid() && df.height == old(df.height)
    ensures old(df.Labelled()) ==> df.Labelled()
    ensures df.columns == old(df.columns) + (if TimestampDt in old(df.data) then [] else [TimestampDt])
    ensures var instants := Instants(old(df.data)[Timestamp], z);
      df.data == old(df.data)[TimestampDt := instants][Timestamp := KeptOriginals(LocalTexts(instants, z), old(df.data)[Timestamp])]
  {
    var original := df.data[Timestamp];
    df.Assign(TimestampDt, Instants(df.data[Timestamp], z));
    var converted := LocalTexts(df.data[TimestampDt], z);
    df.Assign(Timestamp, KeptOriginals(converted, original));
  }

  /** The steps, one after the other, leave the frame `MixedShows` describes, once scrubbed. */
  lemma MixedSheetShows(rows: seq<QueryRow>, owners: map<int, string>, z: Zones,
                        filled: map<Column, seq<Value>>, converted: map<Column, seq<Value>>, sheet: map<Column, seq<Value>>)
    requires var d0 := QueryData(rows);
      filled == d0[Username := FilledUsernames(d0[Username], d0[SessionId], owners)]
    requires Timestamp in filled
    requires var instants := Instants(filled[Timestamp], z);
      converted == filled[TimestampDt := instants][Timestamp := KeptOriginals(LocalTexts(instants, z), filled[Timestamp])]
    requires sheet == map c | c in converted :: SanitizeColumn(converted[c])
    ensures MixedShows(sheet, rows, owners, z)
  {
    UsernamesExported(rows, owners);
    MixedTimestampsShown(rows, z);
  }

  /** The converted-or-kept and scrubbed timestamp column is `MixedTimestamp` of each row; the instants are the rows' instants. */
  lemma MixedTimestampsShown(rows: seq<QueryRow>, z: Zones)
    ensures var raw := QueryData(rows)[Timestamp];
      var instants := Instants(raw, z);
      var col := SanitizeColumn(KeptOriginals(LocalTexts(instants, z), raw));
      |col| == |rows| && (forall i | 0 <= i < |rows| :: col[i] == MixedTimestamp(rows[i], z))
      && |SanitizeColumn(instants)| == |rows|
      && (forall i | 0 <= i < |rows| :: SanitizeColumn(instants)[i] == InstantCell(Text(rows[i].timestamp), z))
  {
    var raw := QueryData(rows)[Timestamp];
    forall i | 0 <= i < |rows|
      ensures SanitizeColumn(KeptOriginals(LocalTexts(Instants(raw, z), z), raw))[i] == MixedTimestamp(rows[i], z)
    {
      MixedTimestampCell(rows[i], z);
    }
  }

  /** One row's timestamp: converted or kept, then scrubbed, is `MixedTimestamp`. */
  lemma MixedTimestampCell(r: QueryRow, z: Zones)
    ensures SanitizeCell(KeepOriginal(LocalCell(InstantCell(Text(r.timestamp), z), z), Text(r.timestamp))) == MixedTimestamp(r, z)
  {
    LocalOfInstant(Text(r.timestamp), z);
  }

  // ---------------------------------------------------------------------------
  // One cell

  /**
   * A timestamp that converts shows as its export text, which the scrub
   * leaves alone; one that does not shows as its raw value, scrubbed.
   */
  lemma MixedTimestampMeaning(r: QueryRow, z: Zones)
    ensures Normalize(r.timestamp, z).Some? ==> MixedTimestamp(r, z) == Text(Normalize(r.timestamp, z).value)
    ensures Normalize(r.timestamp, z).None? ==> MixedTimestamp(r, z) == Text(Sanitize(r.timestamp))
  {
    if Normalize(r.timestamp, z).Some? {
      ExportTextIsClean(Normalize(r.timestamp, z).value);
    }
  }

  /** A raw value that does not convert and holds no control character comes through verbatim. */
  lemma MixedKeepsCleanUnparsed(r: QueryRow, z: Zones)
    requires Normalize(r.timestamp, z).None? && IsClean(r.timestamp)
    ensures MixedTimestamp(r, z) == Text(r.timestamp)
  {
    SanitizeFixesExactlyClean(r.timestamp);
  }

  // ---------------------------------------------------------------------------
  // The assertions: `df[df['item_code'] == code]['timestamp'].iloc[0]`

  /** The value beside the first key equal to `key`; None where there is none (`iloc[0]` raises). */
  function FirstWhere(keys: seq<Value>, values: seq<Value>, key: Value): (r: Option<Value>)
    requires |keys| == |values|
  {
    if keys == [] then None
    else if keys[0] == key then Some(values[0])
    else FirstWhere(keys[1..], values[1..], key)
  }

  /** `FirstWhere` finds a value exactly when the key occurs, and then the one at its first occurrence. */
  lemma {:induction false} FirstWhereSpec(keys: seq<Value>, values: seq<Value>, key: Value)
    requires |keys| == |values|
    ensures FirstWhere(keys, values, key).Some? <==> key in keys
    ensures key in keys ==> exists i | 0 <= i < |keys| ::
      keys[i] == key && (forall j | 0 <= j < i :: keys[j] != key) && FirstWhere(keys, values, key) == Some(values[i])
  {
    if keys != [] && keys[0] != key {
      FirstWhereSpec(keys[1..], values[1..], key);
      assert forall k :: k in keys <==> k == keys[0] || k in keys[1..];
      if key in keys {
        var i :| 0 <= i < |keys[1..]| && keys[1..][i] == key && (forall j | 0 <= j < i :: keys[1..][j] != key)
          && FirstWhere(keys[1..], values[1..], key) == Some(values[1..][i]);
        assert keys[i + 1] == key && FirstWhere(keys, values, key) == Some(values[i + 1]);
        assert forall j | 0 <= j < i + 1 :: keys[j] != key by {
          forall j | 0 <= j < i + 1 ensures keys[j] != key {
            if j > 0 { assert keys[j] == keys[1..][j - 1]; }
          }
        }
      }
    } else if keys != [] {
      assert keys[0] in keys;
    }
  }

  /** Given the first index holding `key`, `FirstWhere` returns the value there. */
  lemma {:induction false} FirstWhereAt(keys: seq<Value>, values: seq<Value>, key: Value, i: nat)
    requires |keys| == |values| && i < |keys| && keys[i] == key
    requires forall j | 0 <= j < i :: keys[j] != key
    ensures FirstWhere(keys, values, key) == Some(values[i])
  {
    if i > 0 {
      assert keys[0] != key;
      FirstWhereAt(keys[1..], values[1..], key, i - 1);
    }
  }

  // ---------------------------------------------------------------------------
  // The script's rows and its assertions

  /** A row of the script's session 1, entered by user1, at stage 1. */
  function MixedRow(id: int, timestamp: string, code: string, description: string, qty: int, location: string, bin: string): QueryRow {
    QueryRow(id, 1, timestamp, code, Some(description), Int(qty), location, Some(bin), Some("user1"), 1)
  }

  /**
   * The five inserted rows, as `ORDER BY sc.id DESC` returns them; the first
   * row's `datetime.now().isoformat()` is fixed to one such value.
   */
  const MixedRows: seq<QueryRow> := [
    MixedRow(5, "2025-11-28 15:09:54", "ITEM005", "Naive Date", 1, "LOC5", "BIN5"),
    MixedRow(4, "2025-11-28T20:09:33.987Z", "ITEM004", "ISO Date", 1, "LOC4", "BIN4"),
    MixedRow(3, "", "ITEM003", "Empty Date", 2, "LOC3", "BIN3"),
    MixedRow(2, "INVALID-DATE-STRING", "ITEM002", "Invalid Date", 5, "LOC2", "BIN2"),
    MixedRow(1, "2025-11-28T15:09:54.123456", "ITEM001", "Valid Date", 10, "LOC1", "BIN1")
  ]

  /**
   * Lines 123-134 on the script's rows: ITEM004 shows `2025-11-28 15:09:33`
   * and ITEM005 `2025-11-28 10:09:54`, neither holding a `T` or a `Z`.
   */
  lemma MixedAssertionsHold(sheet: map<Column, seq<Value>>, rows: seq<QueryRow>, owners: map<int, string>)
    requires rows == MixedRows && MixedShows(sheet, rows, owners, AsWritten)
    ensures ItemCode in sheet && Timestamp in sheet && |sheet[ItemCode]| == |sheet[Timestamp]|
    ensures FirstWhere(sheet[ItemCode], sheet[Timestamp], Text("ITEM004")) == Some(Text("2025-11-28 15:09:33"))
    ensures FirstWhere(sheet[ItemCode], sheet[Timestamp], Text("ITEM005")) == Some(Text("2025-11-28 10:09:54"))
    ensures 'T' !in "2025-11-28 15:09:33" && 'Z' !in "2025-11-28 15:09:33" && 'T' !in "2025-11-28 10:09:54"
  {
    MixedRowsFields();
    MixedShownAt(sheet, rows, owners, AsWritten, 0);
    var codes, stamps := sheet[ItemCode], sheet[Timestamp];
    assert codes[0] == Text("ITEM005") && stamps[0] == Text("2025-11-28 10:09:54") by {
      NaiveRowShown(rows[0]);
    }
    assert 'T' !in "2025-11-28 10:09:54" by {
      NaiveAsWrittenConverts();
      ExportTextHasNoMarkers("2025-11-28 10:09:54");
    }
    assert codes[1] == Text("ITEM004") && stamps[1] == Text("2025-11-28 15:09:33") by {
      MixedShownAt(sheet, rows, owners, AsWritten, 1);
      IsoRowShown(rows[1]);
    }
    assert 'T' !in "2025-11-28 15:09:33" && 'Z' !in "2025-11-28 15:09:33" by {
      IsoMillisZuluConverts(AsWritten);
      ExportTextHasNoMarkers("2025-11-28 15:09:33");
    }
    LookupFirstTwo(codes, stamps);
  }

  /** The item codes and timestamps of the first two rows the query returns. */
  lemma MixedRowsFields()
    ensures |MixedRows| == 5
    ensures MixedRows[0].itemCode == "ITEM005" && MixedRows[0].timestamp == "2025-11-28 15:09:54"
    ensures MixedRows[1].itemCode == "ITEM004" && MixedRows[1].timestamp == "2025-11-28T20:09:33.987Z"
  {
  }

  /** With ITEM005 then ITEM004 in the first two rows, the lookups find those rows' timestamps. */
  lemma LookupFirstTwo(codes: seq<Value>, stamps: seq<Value>)
    requires |codes| == |stamps| >= 2
    requires codes[0] == Text("ITEM005") && stamps[0] == Text("2025-11-28 10:09:54")
    requires codes[1] == Text("ITEM004") && stamps[1] == Text("2025-11-28 15:09:33")
    ensures FirstWhere(codes, stamps, Text("ITEM004")) == Some(Text("2025-11-28 15:09:33"))
    ensures FirstWhere(codes, stamps, Text("ITEM005")) == Some(Text("2025-11-28 10:09:54"))
  {
    FirstWhereAt(codes, stamps, Text("ITEM005"), 0);
    FirstWhereAt(codes, stamps, Text("ITEM004"), 1);
  }

  /** Row `i`'s item code and timestamp in a frame that shows `rows`. */
  lemma MixedShownAt(sheet: map<Column, seq<Value>>, rows: seq<QueryRow>, owners: map<int, string>, z: Zones, i: nat)
    requires MixedShows(sheet, rows, owners, z) && i < |rows|
    ensures ItemCode in sheet && Timestamp in sheet && |sheet[ItemCode]| == |sheet[Timestamp]| == |rows|
    ensures sheet[ItemCode][i] == SanitizeCell(Text(rows[i].itemCode))
    ensures sheet[Timestamp][i] == MixedTimestamp(rows[i], z)
  {
    assert Passed(ItemCode);
  }

  /** ITEM005's row: the naive value read as UTC and moved five hours back. */
  lemma NaiveRowShown(r: QueryRow)
    requires r == MixedRows[0]
    ensures SanitizeCell(Text(r.itemCode)) == Text("ITEM005")
    ensures MixedTimestamp(r, AsWritten) == Text("2025-11-28 10:09:54")
  {
    CleanCode(r.itemCode);
    NaiveAsWrittenConverts();
    MixedTimestampMeaning(r, AsWritten);
  }

  /** ITEM004's row: the `Z` value moved to Bogota time, its milliseconds dropped. */
  lemma IsoRowShown(r: QueryRow)
    requires r.itemCode == "ITEM004" && r.timestamp == "2025-11-28T20:09:33.987Z"
    ensures SanitizeCell(Text(r.itemCode)) == Text("ITEM004")
    ensures MixedTimestamp(r, AsWritten) == Text("2025-11-28 15:09:33")
  {
    CleanCode(r.itemCode);
    assert Normalize(r.timestamp, AsWritten) == Some("2025-11-28 15:09:33") by {
      IsoMillisZuluConverts(AsWritten);
    }
    MixedTimestampMeaning(r, AsWritten);
  }

  /** ITEM003's row: the empty value is kept, still empty. */
  lemma EmptyRowShown(r: QueryRow)
    requires r == MixedRows[2]
    ensures MixedTimestamp(r, AsWritten) == Text("")
  {
    EmptyKept(AsWritten);
    MixedKeepsCleanUnparsed(r, AsWritten);
  }

  /** ITEM002's row: the invalid value is kept verbatim. */
  lemma InvalidRowShown(r: QueryRow)
    requires r == MixedRows[3]
    ensures MixedTimestamp(r, AsWritten) == Text("INVALID-DATE-STRING")
  {
    InvalidKept(AsWritten);
    var s := r.timestamp;
    assert s == "INVALID-DATE-STRING";
    assert IsClean(s);
    MixedKeepsCleanUnparsed(r, AsWritten);
  }

  /** ITEM001's row: the `isoformat()` value read as UTC and moved five hours back. */
  lemma MicrosRowShown(r: QueryRow)
    requires r == MixedRows[4]
    ensures MixedTimestamp(r, AsWritten) == Text("2025-11-28 10:09:54")
  {
    IsoMicrosExported();
    MixedTimestampMeaning(r, AsWritten);
  }

  /** An item code of the script is clean, so the scrub keeps it. */
  lemma CleanCode(s: string)
    requires s in {"ITEM001", "ITEM002", "ITEM003", "ITEM004", "ITEM005"}
    ensures Sanitize(s) == s
  {
    assert IsClean(s);
    SanitizeFixesExactlyClean(s);
  }
}
