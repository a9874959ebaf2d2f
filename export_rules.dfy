/**
 * The cell-level rules of the count export: what the joined query returns,
 * and what each vectorised pandas step does to one cell.
 */
module ExportRules {
  import opened Wrappers
  import opened Calendar
  import opened Timestamps
  import opened Sanitizer
  import opened Frames

  // ---------------------------------------------------------------------------
  // The query result

  /**
   * One row of `stock_counts sc JOIN count_sessions cs ON sc.session_id = cs.id`.
   * `counted_qty` is a cell: the column is declared INTEGER, but sqlite keeps
   * text that does not read as a number as text.
   */
  datatype QueryRow = QueryRow(
    id: int, sessionId: int, timestamp: string, itemCode: string,
    itemDescription: Option<string>, countedQty: Value, countedLocation: string,
    binLocationSystem: Option<string>, username: Option<string>, inventoryStage: int)

  /** The SELECT list, in order. */
  const QueryColumns: seq<Column> :=
    [Id, SessionId, Timestamp, ItemCode, ItemDescription, CountedQty,
     CountedLocation, BinLocationSystem, Username, InventoryStage]

  /** The columns the query selects. */
  predicate Selected(c: Column) {
    !(c.SystemQty? || c.SystemQtyNumeric? || c.Difference? || c.TimestampDt?)
  }

  /** `QueryColumns` lists exactly the selected columns. */
  lemma QueryColumnsSelected(c: Column)
    ensures c in QueryColumns <==> Selected(c)
  {
  }

  /** A nullable text column's cell. */
  function OptText(s: Option<string>): (v: Value)
    ensures v == Null <==> s.None?
  {
    if s.Some? then Text(s.value) else Null
  }

  /** The cell of query column `c` in row `r`. */
  function QueryCell(r: QueryRow, c: Column): Value {
    match c
    case Id => Int(r.id)
    case SessionId => Int(r.sessionId)
    case Timestamp => Text(r.timestamp)
    case ItemCode => Text(r.itemCode)
    case ItemDescription => OptText(r.itemDescription)
    case CountedQty => r.countedQty
    case CountedLocation => Text(r.countedLocation)
    case BinLocationSystem => OptText(r.binLocationSystem)
    case Username => OptText(r.username)
    case InventoryStage => Int(r.inventoryStage)
    case _ => Null
  }

  /** `pd.read_sql_query(...)`: one column per selected field, one cell per row. */
  function QueryData(rows: seq<QueryRow>): (data: map<Column, seq<Value>>)
    ensures forall c :: c in data <==> Selected(c)
    ensures forall c | Selected(c) :: |data[c]| == |rows| && forall i | 0 <= i < |rows| :: data[c][i] == QueryCell(rows[i], c)
  {
    map c | Selected(c) :: seq(|rows|, i requires 0 <= i < |rows| => QueryCell(rows[i], c))
  }

  /** The query result's labels are `QueryColumns`, each selected once. */
  lemma QueryDataLabels(rows: seq<QueryRow>)
    ensures Labels(QueryColumns, QueryData(rows)) && Distinct(QueryColumns)
  {
    forall c
      ensures c in QueryData(rows) <==> c in QueryColumns
    {
      QueryColumnsSelected(c);
    }
  }

  /** `ORDER BY sc.id DESC`. */
  predicate IdDescending(rows: seq<QueryRow>) {
    forall i, j | 0 <= i < j < |rows| :: rows[i].id > rows[j].id
  }

  // ---------------------------------------------------------------------------
  // Username

  /** `df['session_id'].map(session_map)`: the session's owner, or missing. */
  function SessionOwner(sessionId: Value, owners: map<int, string>): (v: Value)
    ensures v != Null <==> sessionId.Int? && sessionId.n in owners
    ensures v != Null ==> v == Text(owners[sessionId.n])
  {
    if sessionId.Int? && sessionId.n in owners then Text(owners[sessionId.n]) else Null
  }

  /** `df['username'].fillna(...)`: a missing username takes the session owner's. */
  function FillUsername(username: Value, sessionId: Value, owners: map<int, string>): (v: Value)
    ensures username != Null ==> v == username
    ensures username == Null ==> v == SessionOwner(sessionId, owners)
  {
    if username == Null then SessionOwner(sessionId, owners) else username
  }

  /** The result is missing only when both the username and the owner are. */
  lemma FillUsernameMissing(username: Value, sessionId: Value, owners: map<int, string>)
    ensures FillUsername(username, sessionId, owners) == Null
      <==> username == Null && !(sessionId.Int? && sessionId.n in owners)
  {
  }

  // ---------------------------------------------------------------------------
  // Quantities

  /** `df['item_code'].map(master_qty_map)`: the system quantity, or missing. */
  function MasterLookup(itemCode: Value, master: map<string, int>): (v: Value)
    ensures v != Null <==> itemCode.Text? && itemCode.s in master
    ensures v != Null ==> v == Int(master[itemCode.s])
  {
    if itemCode.Text? && itemCode.s in master then Int(master[itemCode.s]) else Null
  }

  /** An optionally signed run of decimal digits, read as an integer. */
  function IntegerText(s: string): (r: Option<int>)
    ensures r.Some? ==> |s| >= 1
  {
    if |s| >= 2 && (s[0] == '-' || s[0] == '+') && AllDigits(s[1..]) then
      Some(if s[0] == '-' then -(Decimal(s[1..]) as int) else Decimal(s[1..]))
    else if |s| >= 1 && AllDigits(s) then Some(Decimal(s))
    else None
  }

  /** Digits read back as the number they spell, with or without a sign. */
  lemma IntegerTextReadsPadded(n: nat, width: nat)
    requires 1 <= width && n < Pow10(width)
    ensures IntegerText(Padded(n, width)) == Some(n)
    ensures IntegerText("-" + Padded(n, width)) == Some(-(n as int))
    ensures IntegerText("+" + Padded(n, width)) == Some(n)
  {
    var d := Padded(n, width);
    assert ("-" + d)[1..] == d;
    assert ("+" + d)[1..] == d;
  }

  /** `pd.to_numeric(..., errors='coerce')`: the number a cell holds, or missing. */
  function NumericValue(v: Value): (r: Option<int>)
    ensures v.Int? ==> r == Some(v.n)
    ensures v.Text? ==> r == IntegerText(v.s)
    ensures v.Null? ==> r.None?
  {
    match v
    case Int(n) => Some(n)
    case Text(s) => IntegerText(s)
    case _ => None
  }

  /** The coerced column as cells: the number, or missing. */
  function NumericCell(v: Value): (r: Value)
    ensures r.Int? || r.Null?
    ensures r.Int? <==> NumericValue(v).Some?
  {
    match NumericValue(v)
    case Some(n) => Int(n)
    case None => Null
  }

  /** `pd.to_numeric(..., errors='coerce').fillna(0).astype(int)`. */
  function CountedQtyCell(v: Value): (r: Value)
    ensures r.Int?
    ensures NumericValue(v).Some? ==> r.n == NumericValue(v).value
    ensures NumericValue(v).None? ==> r.n == 0
  {
    Int(NumericValue(v).GetOr(0))
  }

  /** A coerced quantity is already numeric: coercing again changes nothing. */
  lemma CountedQtyStable(v: Value)
    ensures CountedQtyCell(CountedQtyCell(v)) == CountedQtyCell(v)
  {
  }

  /** `df['counted_qty'] - df['system_qty_numeric']`: missing when either side is. */
  function DifferenceCell(counted: Value, system: Value): (r: Value)
    ensures r.Int? <==> counted.Int? && system.Int?
    ensures r.Int? ==> counted.n == system.n + r.n
    ensures r.Null? || r.Int?
  {
    if counted.Int? && system.Int? then Int(counted.n - system.n) else Null
  }

  // ---------------------------------------------------------------------------
  // Timestamps

  /** `pd.to_datetime(..., utc=True, errors='coerce')` on one cell: the instant or NaT. */
  function InstantCell(v: Value, z: Zones): Value {
    if v.Text? then
      match ParseInstant(v.s, z)
      case Some(t) => Moment(t)
      case None => Null
    else Null
  }

  /** `.dt.tz_convert(tz).dt.strftime('%Y-%m-%d %H:%M:%S')` on one cell: NaT stays missing. */
  function LocalCell(v: Value, z: Zones): Value {
    if v.Moment? && Valid(v.t) && InPandasRange(v.t) then Text(LocalText(v.t, z.target)) else Null
  }

  /** Converting a raw cell and rendering it is `Normalize` on its text, missing where that fails. */
  lemma LocalOfInstant(v: Value, z: Zones)
    ensures LocalCell(InstantCell(v, z), z) == if v.Text? && Normalize(v.s, z).Some? then Text(Normalize(v.s, z).value) else Null
  {
    if v.Text? && ParseInstant(v.s, z).Some? {
      assert InstantCell(v, z) == Moment(ParseInstant(v.s, z).value);
    }
  }

  /** `converted.fillna(original)`: the converted cell, or the original where conversion gave nothing. */
  function KeepOriginal(converted: Value, original: Value): (r: Value)
    ensures converted != Null ==> r == converted
    ensures converted == Null ==> r == original
  {
    if converted == Null then original else converted
  }

  // ---------------------------------------------------------------------------
  // Illegal characters

  /** Export text holds only digits, `-`, `:` and a space, none of them in the class the scrub replaces. */
  lemma ExportTextIsClean(s: string)
    requires IsExportText(s)
    ensures IsClean(s) && Sanitize(s) == s
  {
    ExportTextCharacters(s);
    SanitizeFixesExactlyClean(s);
  }

  // ---------------------------------------------------------------------------
  // The vectorised steps, column by column

  function FilledUsernames(usernames: seq<Value>, sessionIds: seq<Value>, owners: map<int, string>): (r: seq<Value>)
    requires |usernames| == |sessionIds|
    ensures |r| == |usernames|
    ensures forall i | 0 <= i < |r| :: r[i] == FillUsername(usernames[i], sessionIds[i], owners)
  {
    seq(|usernames|, i requires 0 <= i < |usernames| => FillUsername(usernames[i], sessionIds[i], owners))
  }

  function SystemQtys(itemCodes: seq<Value>, master: map<string, int>): (r: seq<Value>)
    ensures |r| == |itemCodes| && forall i | 0 <= i < |r| :: r[i] == MasterLookup(itemCodes[i], master)
  {
    seq(|itemCodes|, i requires 0 <= i < |itemCodes| => MasterLookup(itemCodes[i], master))
  }

  function CountedQtys(vs: seq<Value>): (r: seq<Value>)
    ensures |r| == |vs| && forall i | 0 <= i < |r| :: r[i] == CountedQtyCell(vs[i])
  {
    seq(|vs|, i requires 0 <= i < |vs| => CountedQtyCell(vs[i]))
  }

  function Numerics(vs: seq<Value>): (r: seq<Value>)
    ensures |r| == |vs| && forall i | 0 <= i < |r| :: r[i] == NumericCell(vs[i])
  {
    seq(|vs|, i requires 0 <= i < |vs| => NumericCell(vs[i]))
  }

  function Differences(counted: seq<Value>, system: seq<Value>): (r: seq<Value>)
    requires |counted| == |system|
    ensures |r| == |counted| && forall i | 0 <= i < |r| :: r[i] == DifferenceCell(counted[i], system[i])
  {
    seq(|counted|, i requires 0 <= i < |counted| => DifferenceCell(counted[i], system[i]))
  }

  function Instants(vs: seq<Value>, z: Zones): (r: seq<Value>)
    ensures |r| == |vs| && forall i | 0 <= i < |r| :: r[i] == InstantCell(vs[i], z)
  {
    seq(|vs|, i requires 0 <= i < |vs| => InstantCell(vs[i], z))
  }

  function LocalTexts(vs: seq<Value>, z: Zones): (r: seq<Value>)
    ensures |r| == |vs| && forall i | 0 <= i < |r| :: r[i] == LocalCell(vs[i], z)
  {
    seq(|vs|, i requires 0 <= i < |vs| => LocalCell(vs[i], z))
  }

  function KeptOriginals(converted: seq<Value>, original: seq<Value>): (r: seq<Value>)
    requires |converted| == |original|
    ensures |r| == |converted| && forall i | 0 <= i < |r| :: r[i] == KeepOriginal(converted[i], original[i])
  {
    seq(|converted|, i requires 0 <= i < |converted| => KeepOriginal(converted[i], original[i]))
  }
}
