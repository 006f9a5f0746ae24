/** `df.groupby(key).mean()` for an integer key column and numeric value
    columns: one row per distinct key in ascending order, each entry the mean of
    a value column over exactly the rows carrying that key. */
module GroupBy {
  import opened Frames

  predicate StrictlyIncreasing(ks: seq<int>) {
    forall i, j :: 0 <= i < j < |ks| ==> ks[i] < ks[j]
  }

  function Insert(ks: seq<int>, x: int): (r: seq<int>)
    requires StrictlyIncreasing(ks)
    ensures StrictlyIncreasing(r)
    ensures forall k :: k in r <==> k in ks || k == x
  {
    if |ks| == 0 then [x]
    else if x < ks[0] then [x] + ks
    else if x == ks[0] then ks
    else
      var rest := Insert(ks[1..], x);
      forall k | k in rest ensures ks[0] < k {
        if k != x {
          var i :| 0 <= i < |ks[1..]| && ks[1..][i] == k;
          assert ks[i + 1] == k;
        }
      }
      var r := [ks[0]] + rest;
      forall i, j | 0 <= i < j < |r| ensures r[i] < r[j] {
        assert r[j] == rest[j - 1] && rest[j - 1] in rest;
        if i > 0 {
          assert r[i] == rest[i - 1];
        }
      }
      r
  }

  /** The group keys: each label once, ascending. */
  function DistinctLabels(labels: seq<int>): (ks: seq<int>)
    ensures StrictlyIncreasing(ks)
    ensures forall k :: k in ks <==> k in labels
  {
    if |labels| == 0 then []
    else
      var init := labels[..|labels| - 1];
      assert labels == init + [labels[|labels| - 1]];
      Insert(DistinctLabels(init), labels[|labels| - 1])
  }

  /** The positions of the rows labelled `k`, in row order. */
  function RowsWith(labels: seq<int>, k: int): (idx: seq<int>)
    ensures StrictlyIncreasing(idx)
    ensures forall i :: i in idx <==> 0 <= i < |labels| && labels[i] == k
  {
    if |labels| == 0 then []
    else
      var last := |labels| - 1;
      var init := RowsWith(labels[..last], k);
      forall j | 0 <= j < |init| ensures init[j] < last {
        assert init[j] in init;
      }
      init + (if labels[last] == k then [last] else [])
  }

  /** The values of the rows labelled `k`, in row order. */
  function GroupValues(xs: seq<real>, labels: seq<int>, k: int): (g: seq<real>)
    requires |xs| == |labels|
    ensures |g| == |RowsWith(labels, k)|
  {
    var idx := RowsWith(labels, k);
    assert forall j :: 0 <= j < |idx| ==> idx[j] in idx;
    seq(|idx|, j requires 0 <= j < |idx| => xs[idx[j]])
  }

  /** A group's values are the values of its rows, in row order. */
  lemma GroupValuesAreRowValues(xs: seq<real>, labels: seq<int>, k: int)
    requires |xs| == |labels|
    ensures forall j :: 0 <= j < |GroupValues(xs, labels, k)| ==>
      0 <= RowsWith(labels, k)[j] < |xs| && GroupValues(xs, labels, k)[j] == xs[RowsWith(labels, k)[j]]
  {
    var idx := RowsWith(labels, k);
    assert forall j :: 0 <= j < |idx| ==> idx[j] in idx;
  }

  function Sum(xs: seq<real>): real {
    if |xs| == 0 then 0.0 else Sum(xs[..|xs| - 1]) + xs[|xs| - 1]
  }

  function Mean(xs: seq<real>): real
    requires |xs| > 0
  {
    Sum(xs) / (|xs| as real)
  }

  /** `m` is the arithmetic mean of the non-empty `xs`: `m` times their count is their sum. */
  predicate IsMeanOf(m: real, xs: seq<real>) {
    |xs| > 0 && m * (|xs| as real) == Sum(xs)
  }

  lemma MeanTimesCount(xs: seq<real>)
    requires |xs| > 0
    ensures IsMeanOf(Mean(xs), xs)
  {
    var n := |xs| as real;
    assert n != 0.0;
    assert (Sum(xs) / n) * n == Sum(xs);
  }

  lemma LabelHasRows(labels: seq<int>, k: int)
    requires k in labels
    ensures |RowsWith(labels, k)| > 0
  {
    var i :| 0 <= i < |labels| && labels[i] == k;
    assert i in RowsWith(labels, k);
  }

  /** The mean of `xs` over the rows labelled `k`; a label that occurs has at
      least one row, so the mean is defined. */
  function GroupMean(xs: seq<real>, labels: seq<int>, k: int): (m: real)
    requires |xs| == |labels| && k in labels
    ensures IsMeanOf(m, GroupValues(xs, labels, k))
  {
    LabelHasRows(labels, k);
    var g := GroupValues(xs, labels, k);
    MeanTimesCount(g);
    Mean(g)
  }

  /** The rows of the result of `groupby(...).mean()`: a group label and the
      mean of each value column. */
  datatype GroupRow = GroupRow(cluster: int, means: seq<real>)

  datatype Summary = Summary(columns: seq<string>, groups: seq<GroupRow>)

  function Without(names: seq<string>, key: string): (r: seq<string>)
    ensures forall n :: n in r <==> n in names && n != key
  {
    if |names| == 0 then []
    else (if names[0] == key then [] else [names[0]]) + Without(names[1..], key)
  }

  /** Dropping the key keeps the other names in their order, and keeps them
      distinct when they were. */
  lemma {:induction false} WithoutKeepsOrder(names: seq<string>, key: string)
    ensures IsSubsequence(Without(names, key), names)
    ensures NoDup(names) ==> NoDup(Without(names, key))
  {
    if |names| > 0 {
      WithoutKeepsOrder(names[1..], key);
      FilterStep(names, Without(names[1..], key), names[0] != key);
    }
  }

  /** The tables `groupby(key).mean()` applies to here: the key column holds
      integer labels and every other column is numeric. */
  predicate Groupable(t: Table, key: string) {
    && Valid(t)
    && HasColumn(t, key)
    && Get(t, key).data.Int64s?
    && forall c :: c in t.columns && c.name != key ==> c.data.IsNumeric()
  }

  function Values(t: Table, name: string): (xs: seq<real>)
    requires Valid(t) && HasColumn(t, name) && Get(t, name).data.IsNumeric()
    ensures |xs| == t.rows
  {
    Get(t, name).data.AsReals()
  }

  function KeyLabels(t: Table, key: string): (labels: seq<int>)
    requires Groupable(t, key)
    ensures |labels| == t.rows
  {
    Get(t, key).data.ints
  }

  /** The means of the named columns over the rows labelled `k`. */
  function ColumnMeans(t: Table, key: string, names: seq<string>, k: int): (ms: seq<real>)
    requires Groupable(t, key) && k in KeyLabels(t, key)
    requires forall n :: n in names ==> HasColumn(t, n) && Get(t, n).data.IsNumeric()
    ensures |ms| == |names|
    ensures forall j :: 0 <= j < |names| ==> ms[j] == GroupMean(Values(t, names[j]), KeyLabels(t, key), k)
  {
    seq(|names|, j requires 0 <= j < |names| => GroupMean(Values(t, names[j]), KeyLabels(t, key), k))
  }

  /** Every column other than the key of a groupable table is numeric. */
  lemma AveragedColumnsAreNumeric(t: Table, key: string)
    requires Groupable(t, key)
    ensures forall n :: n in Without(Names(t.columns), key) ==> HasColumn(t, n) && Get(t, n).data.IsNumeric()
  {
    forall n | n in Without(Names(t.columns), key) ensures HasColumn(t, n) && Get(t, n).data.IsNumeric() {
      var c := Get(t, n);
      assert c in t.columns && c.name != key;
    }
  }

  /** One summary row per key in `ks`, holding the means of the named columns. */
  function GroupRows(t: Table, key: string, names: seq<string>, ks: seq<int>): (groups: seq<GroupRow>)
    requires Groupable(t, key) && forall k :: k in ks ==> k in KeyLabels(t, key)
    requires forall n :: n in names ==> HasColumn(t, n) && Get(t, n).data.IsNumeric()
    ensures |groups| == |ks|
    ensures forall g :: 0 <= g < |ks| ==> groups[g] == GroupRow(ks[g], ColumnMeans(t, key, names, ks[g]))
    ensures forall g :: 0 <= g < |ks| ==>
      && groups[g].cluster == ks[g]
      && |groups[g].means| == |names|
      && forall j :: 0 <= j < |names| ==>
           groups[g].means[j] == GroupMean(Values(t, names[j]), KeyLabels(t, key), ks[g])
  {
    seq(|ks|, g requires 0 <= g < |ks| => GroupRow(ks[g], ColumnMeans(t, key, names, ks[g])))
  }

  /** `t.groupby(key).mean()`. The key column becomes the row index and is not
      averaged; the other columns keep their order. There is one row per label
      that occurs, ascending, and no row for a label that does not occur. */
  function GroupByMean(t: Table, key: string): (s: Summary)
    requires Groupable(t, key)
    ensures s.columns == Without(Names(t.columns), key)
    ensures forall g, h :: 0 <= g < h < |s.groups| ==> s.groups[g].cluster < s.groups[h].cluster
    ensures forall k :: k in KeyLabels(t, key) <==> exists g :: 0 <= g < |s.groups| && s.groups[g].cluster == k
    ensures forall g :: 0 <= g < |s.groups| ==>
      && s.groups[g].cluster in KeyLabels(t, key)
      && |s.groups[g].means| == |s.columns|
      && forall j :: 0 <= j < |s.columns| ==>
           && HasColumn(t, s.columns[j])
           && Get(t, s.columns[j]).data.IsNumeric()
           && s.groups[g].means[j] == GroupMean(Values(t, s.columns[j]), KeyLabels(t, key), s.groups[g].cluster)
  {
    var labels := KeyLabels(t, key);
    var names := Without(Names(t.columns), key);
    var ks := DistinctLabels(labels);
    AveragedColumnsAreNumeric(t, key);
    var groups := GroupRows(t, key, names, ks);
    assert forall k :: k in labels ==> exists g :: 0 <= g < |groups| && groups[g].cluster == k by {
      forall k | k in labels ensures exists g :: 0 <= g < |groups| && groups[g].cluster == k {
        var g :| 0 <= g < |ks| && ks[g] == k;
        assert groups[g].cluster == k;
      }
    }
    Summary(names, groups)
  }
}
