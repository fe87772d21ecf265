/**
 * Just enough of a pandas DataFrame to state what `prepare_for_export` builds:
 * a header of column labels and rows of cells, one cell per label.
 */
module Tables {
  import opened Wrappers
  import opened Geo

  /** A cell: text, a number, or a geometry (the active geometry column). */
  datatype Value = Str(s: string) | Num(x: real) | Geom(g: Geometry)

  datatype Table = Table(columns: seq<string>, rows: seq<seq<Value>>)

  /** Every row has one cell per column. */
  predicate WellFormed(t: Table)
  {
    forall i :: 0 <= i < |t.rows| ==> |t.rows[i]| == |t.columns|
  }

  /** The position of the first column labelled c. */
  function IndexOf(cols: seq<string>, c: string): (r: Option<nat>)
    ensures r.None? <==> c !in cols
    ensures r.Some? ==> r.value < |cols| && cols[r.value] == c && c !in cols[..r.value]
  {
    if cols == [] then None
    else if cols[0] == c then Some(0)
    else match IndexOf(cols[1..], c)
      case None => None
      case Some(k) =>
        assert cols[..k + 1] == [cols[0]] + cols[1..][..k];
        Some(k + 1)
  }

  function RemoveAt<T>(s: seq<T>, k: nat): (r: seq<T>)
    requires k < |s|
    ensures |r| == |s| - 1
    ensures forall j :: 0 <= j < |r| ==> r[j] == if j < k then s[j] else s[j + 1]
  {
    s[..k] + s[k + 1..]
  }

  /** `df.drop(columns=c)` for a label the frame has: the column leaves the header and every row. */
  function DropColumn(t: Table, c: string): (r: Table)
    requires WellFormed(t) && c in t.columns
    ensures WellFormed(r) && |r.rows| == |t.rows|
    ensures r.columns == RemoveAt(t.columns, IndexOf(t.columns, c).value)
    ensures forall i :: 0 <= i < |t.rows| ==> r.rows[i] == RemoveAt(t.rows[i], IndexOf(t.columns, c).value)
  {
    var k := IndexOf(t.columns, c).value;
    Table(RemoveAt(t.columns, k), seq(|t.rows|, i requires 0 <= i < |t.rows| => RemoveAt(t.rows[i], k)))
  }

  /** `df[c] = values`: overwrites column c when the frame has it, appends it otherwise. */
  function SetColumn(t: Table, c: string, values: seq<Value>): (r: Table)
    requires WellFormed(t) && |values| == |t.rows|
    ensures WellFormed(r) && |r.rows| == |t.rows|
    ensures c !in t.columns ==> r.columns == t.columns + [c]
    ensures c !in t.columns ==> forall i :: 0 <= i < |t.rows| ==> r.rows[i] == t.rows[i] + [values[i]]
    ensures c in t.columns ==> r.columns == t.columns
    ensures c in t.columns ==> forall i :: 0 <= i < |t.rows| ==> r.rows[i] == t.rows[i][IndexOf(t.columns, c).value := values[i]]
  {
    match IndexOf(t.columns, c)
    case Some(k) => Table(t.columns, seq(|t.rows|, i requires 0 <= i < |t.rows| => t.rows[i][k := values[i]]))
    case None => Table(t.columns + [c], seq(|t.rows|, i requires 0 <= i < |t.rows| => t.rows[i] + [values[i]]))
  }

  /** `df.rename(columns=m)`: relabels the listed columns; cells do not move. */
  function RenameColumns(t: Table, m: map<string, string>): (r: Table)
    ensures r.rows == t.rows && |r.columns| == |t.columns|
    ensures forall j :: 0 <= j < |t.columns| ==> r.columns[j] == if t.columns[j] in m then m[t.columns[j]] else t.columns[j]
  {
    Table(seq(|t.columns|, j requires 0 <= j < |t.columns| => if t.columns[j] in m then m[t.columns[j]] else t.columns[j]), t.rows)
  }

  /** Applies f to the cells of column k and leaves every other cell alone. */
  function MapColumn(t: Table, k: nat, f: Value -> Value): (r: Table)
    requires WellFormed(t) && k < |t.columns|
    ensures WellFormed(r) && r.columns == t.columns && |r.rows| == |t.rows|
    ensures forall i :: 0 <= i < |t.rows| ==> r.rows[i] == t.rows[i][k := f(t.rows[i][k])]
  {
    Table(t.columns, seq(|t.rows|, i requires 0 <= i < |t.rows| => t.rows[i][k := f(t.rows[i][k])]))
  }
}
