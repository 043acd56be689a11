/**
 The uploaded customer table, modelled column by column as a data frame is:
 an ordered list of column names, one sequence of cells per column, and a
 common number of rows.
 */
module Tables {

  /** One cell. `Null` is the frame's missing value (NaN or None). */
  datatype Value = Num(x: real) | Text(s: string) | Null

  type Column = seq<Value>

  datatype Table = Table(columns: seq<string>, data: map<string, Column>, height: nat)

  predicate Distinct<T(==)>(s: seq<T>) {
    forall i, j :: 0 <= i < j < |s| ==> s[i] != s[j]
  }

  /** Column names are unique, every named column has data, and all columns have `height` cells. */
  predicate Valid(t: Table) {
    && Distinct(t.columns)
    && (forall k :: 0 <= k < |t.columns| ==> t.columns[k] in t.data)
    && (forall c :: c in t.data ==> c in t.columns && |t.data[c]| == t.height)
  }

  /** True iff some cell anywhere in the table is missing (`isnull().sum().sum() > 0`). */
  predicate HasNull(t: Table) {
    exists c, i :: c in t.data && 0 <= i < |t.data[c]| && t.data[c][i] == Null
  }

  /** Some cell outside the columns in `exempt` is missing. */
  ghost predicate NullOutside(t: Table, exempt: set<string>) {
    exists c, i :: c in t.data && c !in exempt && 0 <= i < |t.data[c]| && t.data[c][i] == Null
  }

  /**
   u is t with the columns in `names` assigned: same rows, the old columns
   first and in their old order, and every column outside `names` untouched.
   */
  ghost predicate Extends(t: Table, u: Table, names: set<string>) {
    && Valid(u)
    && u.height == t.height
    && IsPrefix(t.columns, u.columns)
    && (forall c :: c in u.data <==> c in t.data || c in names)
    && (forall c :: c in t.data && c !in names ==> c in u.data && u.data[c] == t.data[c])
  }

  /** b starts with a: every element of a is kept, in a's order, at the front of b. */
  predicate IsPrefix<T(==)>(a: seq<T>, b: seq<T>) {
    |a| <= |b| && forall k :: 0 <= k < |a| ==> b[k] == a[k]
  }

  lemma PrefixTransitive<T>(a: seq<T>, b: seq<T>, c: seq<T>)
    requires IsPrefix(a, b) && IsPrefix(b, c)
    ensures IsPrefix(a, c)
  {
  }

  /** The column list after assigning `name`: unchanged if present, else `name` appended. */
  function Assigned(cols: seq<string>, name: string): seq<string> {
    if name in cols then cols else cols + [name]
  }

  /**
   Assign a whole column, as `df[name] = col` does: an existing column keeps its
   position and gets the new cells, a new column is appended at the end.
   */
  function SetColumn(t: Table, name: string, col: Column): (r: Table)
    requires Valid(t)
    requires |col| == t.height
    ensures Valid(r) && r.height == t.height
    ensures r.data == t.data[name := col]
    ensures IsPrefix(t.columns, r.columns)
    ensures name in t.columns ==> r.columns == t.columns
    ensures r.columns == Assigned(t.columns, name)
  {
    var cols := Assigned(t.columns, name);
    assert forall c :: c in cols <==> c in t.columns || c == name;
    Table(cols, t.data[name := col], t.height)
  }

  /** Replace every cell of an existing column by its image under `f`. */
  function MapColumn(t: Table, name: string, f: Value -> Value): (r: Table)
    requires Valid(t)
    requires name in t.columns
    ensures Valid(r)
    ensures r.height == t.height && r.columns == t.columns && r.data.Keys == t.data.Keys
    ensures |r.data[name]| == t.height
    ensures forall i :: 0 <= i < t.height ==> r.data[name][i] == f(t.data[name][i])
    ensures forall c :: c != name && c in t.data ==> c in r.data && r.data[c] == t.data[c]
  {
    var col := t.data[name];
    SetColumn(t, name, seq(|col|, i requires 0 <= i < |col| => f(col[i])))
  }

  /** The cells of the named columns, row by row and in the order the names are given. */
  function Rows(t: Table, names: seq<string>): (r: seq<seq<Value>>)
    requires Valid(t)
    requires forall k :: 0 <= k < |names| ==> names[k] in t.columns
    ensures |r| == t.height
    ensures forall i :: 0 <= i < |r| ==> |r[i]| == |names|
    ensures forall i, k :: 0 <= i < |r| && 0 <= k < |names| ==> r[i][k] == t.data[names[k]][i]
  {
    seq(t.height, i requires 0 <= i < t.height =>
      seq(|names|, k requires 0 <= k < |names| => t.data[names[k]][i]))
  }
}
