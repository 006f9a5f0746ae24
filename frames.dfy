/** The slice of a pandas DataFrame the clustering step relies on: named
    columns of one dtype each, `select_dtypes`, `empty`, selecting a list of
    columns, and assigning a whole column. */
module Frames {

  /** A column's values, tagged with the dtype pandas inferred for it. Only
      int64 and float64 are numeric to `select_dtypes(include=["float64",
      "int64"])`; any other dtype (object, bool, datetime, ...) is kept as the
      text of its cells, which nothing here looks into. */
  datatype ColumnData =
    | Int64s(ints: seq<int>)
    | Float64s(floats: seq<real>)
    | Other(dtype: string, cells: seq<string>)
  {
    function Length(): nat {
      match this
      case Int64s(xs) => |xs|
      case Float64s(xs) => |xs|
      case Other(_, xs) => |xs|
    }

    predicate IsNumeric() {
      Int64s? || Float64s?
    }

    /** The values of a numeric column as reals (int64 values converted exactly). */
    function AsReals(): (r: seq<real>)
      requires IsNumeric()
      ensures |r| == Length()
      ensures Int64s? ==> forall i :: 0 <= i < |r| ==> r[i] == ints[i] as real
      ensures Float64s? ==> r == floats
    {
      match this
      case Int64s(xs) => seq(|xs|, i requires 0 <= i < |xs| => xs[i] as real)
      case Float64s(xs) => xs
    }
  }

  datatype Column = Column(name: string, data: ColumnData)

  /** A DataFrame: a row count (the length of its index) and its columns in order. */
  datatype Table = Table(rows: nat, columns: seq<Column>)

  predicate NoDup<T(==)>(xs: seq<T>) {
    forall i, j :: 0 <= i < j < |xs| ==> xs[i] != xs[j]
  }

  /** `xs` is `ys` with some entries dropped and the rest kept in order. */
  predicate IsSubsequence<T(==)>(xs: seq<T>, ys: seq<T>)
    decreases |ys|
  {
    |xs| == 0 || (|ys| > 0 && if xs[0] == ys[0] then IsSubsequence(xs[1..], ys[1..]) else IsSubsequence(xs, ys[1..]))
  }

  /** One step of a list comprehension with a filter: keeping or dropping the
      head of `xs` in front of an order-keeping filter `rest` of its tail keeps
      the order, and keeps the entries distinct when `xs` has no repeats. */
  lemma FilterStep<T>(xs: seq<T>, rest: seq<T>, keep: bool)
    requires |xs| > 0
    requires IsSubsequence(rest, xs[1..])
    requires forall x :: x in rest ==> x in xs[1..]
    requires !keep ==> xs[0] !in rest
    requires NoDup(xs[1..]) ==> NoDup(rest)
    ensures IsSubsequence((if keep then [xs[0]] else []) + rest, xs)
    ensures NoDup(xs) ==> NoDup((if keep then [xs[0]] else []) + rest)
  {
    var tail := xs[1..];
    var r := (if keep then [xs[0]] else []) + rest;
    if keep {
      assert r[0] == xs[0] && r[1..] == rest;
    } else {
      assert r == rest;
      if |rest| > 0 {
        assert rest[0] in rest;
      }
    }
    if NoDup(xs) {
      forall i, j | 0 <= i < j < |tail| ensures tail[i] != tail[j] {
        assert tail[i] == xs[i + 1] && tail[j] == xs[j + 1];
      }
      if keep {
        forall x | x in rest ensures x != xs[0] {
          var k :| 0 <= k < |tail| && tail[k] == x;
          assert xs[k + 1] == x;
        }
        forall i, j | 0 <= i < j < |r| ensures r[i] != r[j] {
          assert r[j] == rest[j - 1] && r[j] in rest;
          if i > 0 {
            assert r[i] == rest[i - 1];
          }
        }
      }
    }
  }

  function Names(cols: seq<Column>): (ns: seq<string>)
    ensures |ns| == |cols|
    ensures forall i :: 0 <= i < |cols| ==> ns[i] == cols[i].name
  {
    seq(|cols|, i requires 0 <= i < |cols| => cols[i].name)
  }

  /** What every parsed table satisfies: column names are unique (the CSV
      reader renames repeated headers) and every column has one value per row. */
  predicate Valid(t: Table) {
    && NoDup(Names(t.columns))
    && forall c :: c in t.columns ==> c.data.Length() == t.rows
  }

  predicate HasColumn(t: Table, name: string) {
    name in Names(t.columns)
  }

  /** `df.empty`: true when either axis has length zero; in a valid table,
      exactly when no column holds a value. */
  predicate IsEmpty(t: Table)
    ensures Valid(t) ==> (IsEmpty(t) <==> forall c :: c in t.columns ==> c.data.Length() == 0)
  {
    assert |t.columns| > 0 ==> t.columns[0] in t.columns;
    |t.columns| == 0 || t.rows == 0
  }

  function IndexOf<T(==)>(xs: seq<T>, x: T): (i: nat)
    requires x in xs
    ensures i < |xs| && xs[i] == x
    ensures forall j :: 0 <= j < i ==> xs[j] != x
  {
    if xs[0] == x then 0 else 1 + IndexOf(xs[1..], x)
  }

  /** `df[name]`: the column with that name; in a valid table it is the only one. */
  function Get(t: Table, name: string): (c: Column)
    requires HasColumn(t, name)
    ensures c in t.columns && c.name == name
    ensures NoDup(Names(t.columns)) ==> forall d :: d in t.columns && d.name == name ==> d == c
  {
    var i := IndexOf(Names(t.columns), name);
    assert forall d :: d in t.columns && d.name == name ==> NoDup(Names(t.columns)) ==> d == t.columns[i] by {
      forall d | d in t.columns && d.name == name && NoDup(Names(t.columns))
        ensures d == t.columns[i]
      {
        var k :| 0 <= k < |t.columns| && t.columns[k] == d;
        assert Names(t.columns)[k] == Names(t.columns)[i];
      }
    }
    t.columns[i]
  }

  function NumericColumns(cols: seq<Column>): (r: seq<Column>)
    ensures forall c :: c in r <==> c in cols && c.data.IsNumeric()
  {
    if |cols| == 0 then []
    else (if cols[0].data.IsNumeric() then [cols[0]] else []) + NumericColumns(cols[1..])
  }

  lemma NamesTail(cols: seq<Column>)
    requires |cols| > 0 && NoDup(Names(cols))
    ensures NoDup(Names(cols[1..]))
    ensures forall d :: d in cols[1..] ==> d.name != cols[0].name
  {
    var tail := cols[1..];
    forall i, j | 0 <= i < j < |tail| ensures Names(tail)[i] != Names(tail)[j] {
      assert Names(cols)[i + 1] != Names(cols)[j + 1];
    }
    forall d | d in tail ensures d.name != cols[0].name {
      var m :| 0 <= m < |tail| && tail[m] == d;
      assert Names(cols)[m + 1] != Names(cols)[0];
    }
  }

  lemma NamesCons(c: Column, rest: seq<Column>)
    requires NoDup(Names(rest))
    requires forall d :: d in rest ==> d.name != c.name
    ensures NoDup(Names([c] + rest))
  {
    var r := [c] + rest;
    forall i, j | 0 <= i < j < |r| ensures Names(r)[i] != Names(r)[j] {
      assert r[j] == rest[j - 1] && r[j] in rest;
      if i > 0 {
        assert r[i] == rest[i - 1] && Names(rest)[i - 1] != Names(rest)[j - 1];
      }
    }
  }

  /** Dropping columns keeps the remaining names distinct. */
  lemma {:induction false} NumericColumnsKeepNamesDistinct(cols: seq<Column>)
    requires NoDup(Names(cols))
    ensures NoDup(Names(NumericColumns(cols)))
  {
    if |cols| > 0 {
      NamesTail(cols);
      NumericColumnsKeepNamesDistinct(cols[1..]);
      var rest := NumericColumns(cols[1..]);
      if cols[0].data.IsNumeric() {
        assert NumericColumns(cols) == [cols[0]] + rest;
        NamesCons(cols[0], rest);
      } else {
        assert NumericColumns(cols) == rest;
      }
    }
  }

  /** `df.select_dtypes(include=["float64", "int64"])`: the int64 and float64
      columns, under the same index. */
  function SelectNumeric(t: Table): (r: Table)
    requires Valid(t)
    ensures Valid(r) && r.rows == t.rows
    ensures forall c :: c in r.columns <==> c in t.columns && c.data.IsNumeric()
    ensures forall name :: HasColumn(r, name) <==> HasColumn(t, name) && Get(t, name).data.IsNumeric()
    ensures forall name :: HasColumn(r, name) ==> Get(r, name) == Get(t, name)
  {
    NumericColumnsKeepNamesDistinct(t.columns);
    var r := Table(t.rows, NumericColumns(t.columns));
    assert forall name :: HasColumn(t, name) && Get(t, name).data.IsNumeric() ==> HasColumn(r, name) by {
      forall name | HasColumn(t, name) && Get(t, name).data.IsNumeric() ensures HasColumn(r, name) {
        var c := Get(t, name);
        var k :| 0 <= k < |r.columns| && r.columns[k] == c;
        assert Names(r.columns)[k] == name;
      }
    }
    r
  }

  /** `df[names]` with every name present: exactly those columns, in the order
      of `names`; any other column is dropped. */
  function Project(t: Table, names: seq<string>): (r: Table)
    requires Valid(t)
    requires forall n :: n in names ==> HasColumn(t, n)
    ensures r.rows == t.rows
    ensures Names(r.columns) == names
    ensures forall i :: 0 <= i < |names| ==> r.columns[i] == Get(t, names[i])
    ensures forall name :: HasColumn(r, name) <==> name in names
    ensures NoDup(names) ==> Valid(r)
  {
    Table(t.rows, seq(|names|, i requires 0 <= i < |names| => Get(t, names[i])))
  }

  /** `df[name] = data` with one value per row: a column already named `name`
      is replaced where it stands, otherwise the column is appended; every other
      column and the index are kept. */
  function SetColumn(t: Table, name: string, data: ColumnData): (r: Table)
    requires Valid(t) && data.Length() == t.rows
    ensures Valid(r) && r.rows == t.rows
    ensures HasColumn(r, name) && Get(r, name) == Column(name, data)
    ensures HasColumn(t, name) ==>
      && |r.columns| == |t.columns|
      && forall i :: 0 <= i < |t.columns| ==>
           r.columns[i] == if t.columns[i].name == name then Column(name, data) else t.columns[i]
    ensures !HasColumn(t, name) ==> r.columns == t.columns + [Column(name, data)]
  {
    if HasColumn(t, name) then
      var i := IndexOf(Names(t.columns), name);
      var r := Table(t.rows, t.columns[i := Column(name, data)]);
      assert Names(r.columns) == Names(t.columns);
      r
    else
      var r := Table(t.rows, t.columns + [Column(name, data)]);
      assert Names(r.columns) == Names(t.columns) + [name];
      r
  }

  /** Assigning a column erases what it held: two tables that differ only in
      that column become equal. */
  lemma SetColumnOverwrites(t1: Table, t2: Table, name: string, data: ColumnData)
    requires Valid(t1) && Valid(t2) && t1.rows == t2.rows && data.Length() == t1.rows
    requires Names(t1.columns) == Names(t2.columns)
    requires forall i :: 0 <= i < |t1.columns| && t1.columns[i].name != name ==> t1.columns[i] == t2.columns[i]
    ensures SetColumn(t1, name, data) == SetColumn(t2, name, data)
  {
    assert |t1.columns| == |Names(t1.columns)| == |t2.columns|;
    var r1 := SetColumn(t1, name, data);
    var r2 := SetColumn(t2, name, data);
    if HasColumn(t1, name) {
      forall i | 0 <= i < |t1.columns| ensures r1.columns[i] == r2.columns[i] {
        assert Names(t1.columns)[i] == Names(t2.columns)[i];
      }
    } else {
      forall i | 0 <= i < |t1.columns| ensures t1.columns[i] == t2.columns[i] {
        assert Names(t1.columns)[i] != name;
      }
    }
  }

  /** Assigning one column leaves every other column where it was. */
  lemma SetColumnKeepsOthers(t: Table, name: string, data: ColumnData, other: string)
    requires Valid(t) && data.Length() == t.rows && other != name
    ensures HasColumn(SetColumn(t, name, data), other) <==> HasColumn(t, other)
    ensures HasColumn(t, other) ==> Get(SetColumn(t, name, data), other) == Get(t, other)
  {
    if HasColumn(t, other) {
      SetColumnKeepsColumn(t, name, data, other);
    }
    if HasColumn(SetColumn(t, name, data), other) {
      SetColumnAddsOnlyName(t, name, data, other);
    }
  }

  /** A column other than `name` survives the assignment unchanged. */
  lemma SetColumnKeepsColumn(t: Table, name: string, data: ColumnData, other: string)
    requires Valid(t) && data.Length() == t.rows && other != name && HasColumn(t, other)
    ensures HasColumn(SetColumn(t, name, data), other)
    ensures Get(SetColumn(t, name, data), other) == Get(t, other)
  {
    var r := SetColumn(t, name, data);
    var c := Get(t, other);
    var i :| 0 <= i < |t.columns| && t.columns[i] == c;
    assert r.columns[i] == c;
    assert Names(r.columns)[i] == other;
  }

  /** The assignment adds no column other than `name`. */
  lemma SetColumnAddsOnlyName(t: Table, name: string, data: ColumnData, other: string)
    requires Valid(t) && data.Length() == t.rows && other != name
    requires HasColumn(SetColumn(t, name, data), other)
    ensures HasColumn(t, other)
  {
    var r := SetColumn(t, name, data);
    var c := Get(r, other);
    var i :| 0 <= i < |r.columns| && r.columns[i] == c;
    assert i < |t.columns| && t.columns[i] == c;
    assert Names(t.columns)[i] == other;
  }

  /** Assigning a column the values it already holds changes nothing. */
  lemma SetColumnSameData(t: Table, name: string)
    requires Valid(t) && HasColumn(t, name)
    ensures Get(t, name).data.Length() == t.rows
    ensures SetColumn(t, name, Get(t, name).data) == t
  {
    var c := Get(t, name);
    var r := SetColumn(t, name, c.data);
    forall i | 0 <= i < |t.columns| ensures r.columns[i] == t.columns[i] {
      assert t.columns[i] in t.columns;
    }
  }
}
