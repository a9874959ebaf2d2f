/**
 * The slice of a pandas DataFrame the export scripts use: labelled columns
 * of equal length, assigned, deleted and re-projected in place.
 */
module Frames {
  import opened Calendar
  import opened Sanitizer

  /** One cell: NULL/NaN/NaT, an integer, a string, or a timestamp. */
  datatype Value = Null | Int(n: int) | Text(s: string) | Moment(t: DateTime)

  /**
   * The column labels that occur: the ten columns of the joined query, then
   * the ones the export derives.
   */
  datatype Column =
    | Id | SessionId | Timestamp | ItemCode | ItemDescription | CountedQty
    | CountedLocation | BinLocationSystem | Username | InventoryStage
    | SystemQty | SystemQtyNumeric | Difference | TimestampDt

  /** The label pandas shows for a column. */
  function Label(c: Column): string {
    match c
    case Id => "id"
    case SessionId => "session_id"
    case Timestamp => "timestamp"
    case ItemCode => "item_code"
    case ItemDescription => "item_description"
    case CountedQty => "counted_qty"
    case CountedLocation => "counted_location"
    case BinLocationSystem => "bin_location_system"
    case Username => "username"
    case InventoryStage => "inventory_stage"
    case SystemQty => "system_qty"
    case SystemQtyNumeric => "system_qty_numeric"
    case Difference => "difference"
    case TimestampDt => "timestamp_dt"
  }

  predicate Distinct<T(==)>(s: seq<T>) {
    forall i, j | 0 <= i < j < |s| :: s[i] != s[j]
  }

  /** `s` without the element `x`, the others in their order. */
  function Without(s: seq<Column>, x: Column): (r: seq<Column>)
  {
    if s == [] then []
    else if s[0] == x then Without(s[1..], x)
    else [s[0]] + Without(s[1..], x)
  }

  /** Exactly the elements other than `x` remain. */
  lemma {:induction false} WithoutMembers(s: seq<Column>, x: Column)
    ensures forall y :: y in Without(s, x) <==> y in s && y != x
  {
    if s != [] {
      WithoutMembers(s[1..], x);
      assert forall y :: y in s <==> y == s[0] || y in s[1..];
    }
  }

  /** Dropping a label keeps the others distinct. */
  lemma {:induction false} WithoutDistinct(s: seq<Column>, x: Column)
    requires Distinct(s)
    ensures Distinct(Without(s, x))
  {
    if s != [] {
      WithoutDistinct(s[1..], x);
      WithoutMembers(s[1..], x);
      if s[0] != x {
        var rest := Without(s[1..], x);
        forall j | 0 <= j < |rest|
          ensures rest[j] != s[0]
        {
          assert rest[j] in rest;
          assert s[0] !in s[1..];
        }
      }
    }
  }

  /**
   * The labels after `df[c] = ...` on a frame holding `data`: a label the
   * frame does not hold yet goes after the others.
   */
  function WithColumn(cs: seq<Column>, data: map<Column, seq<Value>>, c: Column): (r: seq<Column>)
  {
    if c in data then cs else cs + [c]
  }

  /** Dropping `x` from a list with one more label at its end. */
  lemma {:induction false} WithoutAppend(s: seq<Column>, y: Column, x: Column)
    ensures Without(s + [y], x) == Without(s, x) + (if y == x then [] else [y])
  {
    if s == [] {
      assert s + [y] == [y];
    } else {
      assert (s + [y])[1..] == s[1..] + [y];
      WithoutAppend(s[1..], y, x);
    }
  }

  /** A column of `n` missing values, as `df[col] = None` makes. */
  function Nulls(n: nat): (r: seq<Value>)
    ensures |r| == n && forall i | 0 <= i < n :: r[i] == Null
  {
    seq(n, _ => Null)
  }

  /** The scrub on one cell: text is scrubbed, other cells are not text and stay. */
  function SanitizeCell(v: Value): (r: Value)
    ensures v.Text? <==> r.Text?
    ensures v.Text? ==> r.s == Sanitize(v.s) && IsClean(r.s)
    ensures !v.Text? ==> r == v
  {
    SanitizeIsClean(if v.Text? then v.s else "");
    if v.Text? then Text(Sanitize(v.s)) else v
  }

  /** The scrub on a column. */
  function SanitizeColumn(vs: seq<Value>): (r: seq<Value>)
    ensures |r| == |vs| && forall i | 0 <= i < |vs| :: r[i] == SanitizeCell(vs[i])
  {
    seq(|vs|, i requires 0 <= i < |vs| => SanitizeCell(vs[i]))
  }

  /** The labels list exactly the columns the frame holds. */
  ghost predicate Labels(columns: seq<Column>, data: map<Column, seq<Value>>) {
    forall c :: c in data <==> c in columns
  }

  /** Assigning a column keeps the labels in step with the columns, and distinct. */
  lemma AssignKeepsLabels(columns: seq<Column>, data: map<Column, seq<Value>>, c: Column, values: seq<Value>)
    requires Labels(columns, data)
    ensures Labels(WithColumn(columns, data, c), data[c := values])
    ensures Distinct(columns) ==> Distinct(WithColumn(columns, data, c))
  {
  }

  /** Deleting a column keeps the labels in step with the columns. */
  lemma DeleteKeepsLabels(columns: seq<Column>, data: map<Column, seq<Value>>, c: Column)
    requires Labels(columns, data)
    ensures Labels(Without(columns, c), data - {c})
    ensures Distinct(columns) ==> Distinct(Without(columns, c))
  {
    WithoutMembers(columns, c);
    if Distinct(columns) {
      WithoutDistinct(columns, c);
    }
  }

  class Frame {
    var columns: seq<Column>
    var data: map<Column, seq<Value>>
    var height: nat

    /** Every column is `height` cells long. */
    ghost predicate Valid()
      reads this
    {
      forall c | c in data :: |data[c]| == height
    }

    /** `columns` lists exactly the labels of `data`, each once. */
    ghost predicate Labelled()
      reads this
    {
      Labels(columns, data) && Distinct(columns)
    }

    /** `pd.DataFrame(...)` / `read_sql_query`: the given columns, in the given order. */
    constructor (columns: seq<Column>, data: map<Column, seq<Value>>, height: nat)
      requires Labels(columns, data) && Distinct(columns) && forall c | c in data :: |data[c]| == height
      ensures Valid() && Labelled()
      ensures this.columns == columns && this.data == data && this.height == height
    {
      this.columns := columns;
      this.data := data;
      this.height := height;
    }

    /** `df[c] = values`: replaces column `c`, or appends it after the others when it is new. */
    method Assign(c: Column, values: seq<Value>)
      requires Valid() && |values| == height
      modifies this
      ensures Valid() && height == old(height)
      ensures data == old(data)[c := values]
      ensures columns == WithColumn(old(columns), old(data), c)
      ensures old(Labelled()) ==> Labelled()
    {
      if Labelled() {
        AssignKeepsLabels(columns, data, c, values);
      }
      columns := WithColumn(columns, data, c);
      data := data[c := values];
    }

    /** `del df[c]`. */
    method Delete(c: Column)
      requires Valid() && c in data
      modifies this
      ensures Valid() && height == old(height)
      ensures data == old(data) - {c}
      ensures columns == Without(old(columns), c)
      ensures old(Labelled()) ==> Labelled()
    {
      if Labelled() {
        DeleteKeepsLabels(columns, data, c);
      }
      columns := Without(columns, c);
      data := data - {c};
    }

    /**
     * `df[str_cols] = df[str_cols].replace(r'[\x00-\x08\x0B\x0C\x0E-\x1F]', ' ', regex=True)`
     * over the object columns: every text cell scrubbed, every other cell as it was.
     */
    method SanitizeText()
      requires Valid()
      modifies this
      ensures Valid() && height == old(height) && columns == old(columns)
      ensures data == map c | c in old(data) :: SanitizeColumn(old(data)[c])
      ensures old(Labelled()) ==> Labelled()
    {
      data := map c | c in data :: SanitizeColumn(data[c]);
    }

    /**
     * Every label of `order` that is missing becomes a column of missing
     * values, then the frame is cut down to `order`, in that order.
     */
    method Reorder(order: seq<Column>)
      requires Valid()
      modifies this
      ensures Valid() && Labels(columns, data) && height == old(height) && columns == order
      ensures Distinct(order) ==> Labelled()
      ensures forall c | c in order :: data[c] == if c in old(data) then old(data)[c] else Nulls(height)
    {
      var i := 0;
      while i < |order|
        invariant 0 <= i <= |order|
        invariant Valid() && height == old(height)
        invariant forall c | c in old(data) :: c in data && data[c] == old(data)[c]
        invariant forall j | 0 <= j < i :: order[j] in data
        invariant forall c | c in data && c !in old(data) :: data[c] == Nulls(height)
      {
        if order[i] !in data {
          Assign(order[i], Nulls(height));
        }
        i := i + 1;
      }
      data := map c | c in order :: data[c];
      columns := order;
    }
  }
}
