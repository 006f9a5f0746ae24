/** `modules/clustering.py`: loading the fitted pipeline and `process_data`,
    which aligns an uploaded table with the features the pipeline was fitted
    on, predicts one cluster label per row, attaches the labels and summarises
    each cluster by its feature means. */
module Clustering {
  import opened Results
  import opened Frames
  import opened GroupBy
  import opened PyFormat

  /** The column the labels are written to, in the uploaded table and in the aligned one. */
  const LabelColumn: string := "Cluster"

  const OutputPath: string := "./data/output_with_clusters.csv"

  const PipelineNotFoundText: string := "Clustering pipeline not found. Please check the models directory."

  const ProcessErrorPrefix: string := "Error processing file: "

  /** A fitted pipeline, seen from outside: the feature names its scaler was
      fitted on, in order, and its `predict`, which maps an aligned table to
      labels. */
  datatype Pipeline = Pipeline(features: seq<string>, predict: Table -> seq<int>)

  /** A fitted scaler names each training column once. */
  predicate Fitted(p: Pipeline) {
    NoDup(p.features)
  }

  /** Why processing stops, in the order the code checks. */
  datatype Failure =
    | ParseFailure(detail: string)           // the CSV reader raised; `detail` is its message
    | NoNumericData                          // no int64/float64 column, or no row
    | PipelineMissing                        // no pipeline was loaded
    | MissingFeatures(names: seq<string>)    // required features without a numeric column
    | LengthMismatch(values: nat, index: nat) // `predict` gave a label count other than the row count

  /** The outcome of a successful run: the aligned feature table, the labels,
      the uploaded table with its `Cluster` column, and the per-cluster means. */
  datatype Clustered = Clustered(aligned: Table, labels: seq<int>, labeled: Table, summary: Summary)

  /** Where `load_pipeline` looks when it is given no path. */
  const DefaultPipelinePath: string := "./models/clustering_pipeline.pkl"

  /** `load_pipeline`: a path that does not exist fails with FileNotFoundError
      before `joblib.load` (the parameter `load`) is tried. The path is always
      passed; a caller that relies on the default passes `DefaultPipelinePath`. */
  function LoadPipeline(path: string, fileExists: bool, load: string -> Result<Pipeline, string>): (r: Result<Pipeline, string>)
    ensures !fileExists ==> r == Err(PipelineNotFoundText)
    ensures fileExists ==> r == load(path)
  {
    if fileExists then load(path) else Err(PipelineNotFoundText)
  }

  /** Whether the table has a numeric column of that name. */
  predicate IsNumericColumn(t: Table, name: string) {
    HasColumn(t, name) && Get(t, name).data.IsNumeric()
  }

  /** The required features that have no column in the numeric selection,
      in the order they are required. */
  function Missing(numeric: Table, features: seq<string>): (m: seq<string>)
    ensures forall f :: f in m <==> f in features && !HasColumn(numeric, f)
    ensures |m| <= |features|
  {
    if |features| == 0 then []
    else (if HasColumn(numeric, features[0]) then [] else [features[0]]) + Missing(numeric, features[1..])
  }

  /** The missing list keeps the required order and names each feature once. */
  lemma {:induction false} MissingKeepsOrder(numeric: Table, features: seq<string>)
    requires NoDup(features)
    ensures IsSubsequence(Missing(numeric, features), features)
    ensures NoDup(Missing(numeric, features))
  {
    if |features| > 0 {
      assert NoDup(features[1..]);
      MissingKeepsOrder(numeric, features[1..]);
      FilterStep(features, Missing(numeric, features[1..]), !HasColumn(numeric, features[0]));
    }
  }

  /** Alignment: every required feature must have a numeric column; the
      aligned table is `numeric_data[required_features]`. */
  function Align(numeric: Table, features: seq<string>): (r: Result<Table, Failure>)
    requires Valid(numeric) && NoDup(features)
    ensures r.Ok? <==> forall f :: f in features ==> HasColumn(numeric, f)
    ensures r.Err? ==> r.error == MissingFeatures(Missing(numeric, features)) && r.error.names != []
    ensures r.Ok? ==>
      && Valid(r.value) && r.value.rows == numeric.rows
      && Names(r.value.columns) == features
      && forall i :: 0 <= i < |features| ==> r.value.columns[i] == Get(numeric, features[i])
  {
    var missing := Missing(numeric, features);
    if missing != [] then
      assert missing[0] in missing;
      Err(MissingFeatures(missing))
    else Ok(Project(numeric, features))
  }

  /** Every column of an aligned table is numeric, so once the labels are
      written to its `Cluster` column it can be grouped by them. */
  lemma LabelledIsGroupable(aligned: Table, labels: seq<int>)
    requires Valid(aligned) && |labels| == aligned.rows
    requires forall c :: c in aligned.columns ==> c.data.IsNumeric()
    ensures Groupable(SetColumn(aligned, LabelColumn, Int64s(labels)), LabelColumn)
  {
    var grouped := SetColumn(aligned, LabelColumn, Int64s(labels));
    forall c | c in grouped.columns && c.name != LabelColumn ensures c.data.IsNumeric() {
      var i :| 0 <= i < |grouped.columns| && grouped.columns[i] == c;
      assert i < |aligned.columns| && c == aligned.columns[i];
    }
  }

  /** Attaching the labels: `data["Cluster"] = cluster_labels` raises unless
      there is one label per row; on success the aligned table gets the same
      column and is grouped by it. */
  function Attach(data: Table, aligned: Table, labels: seq<int>): (r: Result<Clustered, Failure>)
    requires Valid(data) && Valid(aligned) && aligned.rows == data.rows
    requires forall c :: c in aligned.columns ==> c.data.IsNumeric()
    ensures r.Err? <==> |labels| != data.rows
    ensures r.Err? ==> r.error == LengthMismatch(|labels|, data.rows)
    ensures r.Ok? ==>
      && r.value.aligned == aligned && r.value.labels == labels
      && r.value.labeled == SetColumn(data, LabelColumn, Int64s(labels))
      && r.value.summary == GroupByMean(SetColumn(aligned, LabelColumn, Int64s(labels)), LabelColumn)
  {
    if |labels| != data.rows then Err(LengthMismatch(|labels|, data.rows))
    else
      LabelledIsGroupable(aligned, labels);
      var grouped := SetColumn(aligned, LabelColumn, Int64s(labels));
      Ok(Clustered(aligned, labels, SetColumn(data, LabelColumn, Int64s(labels)), GroupByMean(grouped, LabelColumn)))
  }

  /** The shared decision sequence of `process_data` and of the upload
      handler: parse, select numeric columns, stop on an empty selection, stop
      without a pipeline, stop on missing features, align, predict, attach. */
  function Cluster(upload: Result<Table, string>, pipeline: Option<Pipeline>): (r: Result<Clustered, Failure>)
    requires upload.Ok? ==> Valid(upload.value)
    requires pipeline.Some? ==> Fitted(pipeline.value)
    ensures upload.Err? ==> r == Err(ParseFailure(upload.error))
    // An empty numeric selection is reported whatever the pipeline is.
    ensures upload.Ok? && IsEmpty(SelectNumeric(upload.value)) ==> r == Err(NoNumericData)
    ensures upload.Ok? && !IsEmpty(SelectNumeric(upload.value)) && pipeline.None? ==> r == Err(PipelineMissing)
    ensures (upload.Ok? && !IsEmpty(SelectNumeric(upload.value)) && pipeline.Some?
             && Missing(SelectNumeric(upload.value), pipeline.value.features) != []) ==>
      r == Err(MissingFeatures(Missing(SelectNumeric(upload.value), pipeline.value.features)))
    ensures (upload.Ok? && !IsEmpty(SelectNumeric(upload.value)) && pipeline.Some?
             && Missing(SelectNumeric(upload.value), pipeline.value.features) == []) ==>
      var aligned := Project(SelectNumeric(upload.value), pipeline.value.features);
      r == Attach(upload.value, aligned, pipeline.value.predict(aligned))
    ensures r.Err? && r.error.MissingFeatures? ==>
      && upload.Ok? && pipeline.Some? && !IsEmpty(SelectNumeric(upload.value))
      && r.error == MissingFeatures(Missing(SelectNumeric(upload.value), pipeline.value.features))
    ensures r.Ok? ==>
      && upload.Ok? && pipeline.Some? && !IsEmpty(SelectNumeric(upload.value))
      && Missing(SelectNumeric(upload.value), pipeline.value.features) == []
      && var aligned := Project(SelectNumeric(upload.value), pipeline.value.features);
         r == Attach(upload.value, aligned, pipeline.value.predict(aligned))
  {
    match upload
    case Err(detail) => Err(ParseFailure(detail))
    case Ok(data) =>
      var numeric := SelectNumeric(data);
      if IsEmpty(numeric) then Err(NoNumericData)
      else if pipeline.None? then Err(PipelineMissing)
      else
        match Align(numeric, pipeline.value.features)
        case Err(e) => Err(e)
        case Ok(aligned) => Attach(data, aligned, pipeline.value.predict(aligned))
  }

  const NoNumericColumnsText: string := "No numeric columns found in the uploaded file for clustering."
  /** The AttributeError of `None.named_steps`, when no pipeline was loaded. */
  const NoPipelineAttributeText: string := "'NoneType' object has no attribute 'named_steps'"
  const MissingRequiredText: string := "Missing required features: "

  // The length message is built from shorter literals: the verifier reads the
  // characters of a short literal, and reading the counts back needs them.
  const LengthValuesText: string := "Length of values ("
  const LengthIndexText: string := ")" + " does not match length of index ("

  /** Reads the two counts back from pandas' length message: the number after
      "Length of values (", then the number after the middle text, which must
      be followed by the closing parenthesis alone. */
  function ReadCounts(s: string): Option<(nat, nat)> {
    match ReadNumberAfter(s, LengthValuesText)
    case None => None
    case Some((values, rest)) =>
      match ReadNumberAfter(rest, LengthIndexText)
      case None => None
      case Some((index, tail)) => if tail == ")" then Some((values, index)) else None
  }

  /** The length message is read as its two numbers when each is found after
      its text and only the closing parenthesis follows. */
  lemma ReadCountsStep(s: string, values: nat, rest: string, index: nat)
    requires ReadNumberAfter(s, LengthValuesText) == Some((values, rest))
    requires ReadNumberAfter(rest, LengthIndexText) == Some((index, ")"))
    ensures ReadCounts(s) == Some((values, index))
  {
  }

  /** The text after the first count starts with a closing parenthesis, so
      the first count's digits end there. */
  lemma IndexTextStopsDigits(d2: string)
    ensures |LengthIndexText + (d2 + ")")| > 0 && !IsDigit((LengthIndexText + (d2 + ")"))[0])
  {
    assert (LengthIndexText + (d2 + ")"))[0] == LengthIndexText[0] == ')';
  }

  /** Two digit strings placed in the length message are read back. */
  lemma ReadCountsOfDigits(d1: string, d2: string)
    requires |d1| > 0 && forall i :: 0 <= i < |d1| ==> IsDigit(d1[i])
    requires |d2| > 0 && forall i :: 0 <= i < |d2| ==> IsDigit(d2[i])
    ensures ReadCounts(LengthValuesText + (d1 + (LengthIndexText + (d2 + ")"))))
            == Some((DigitsValue(d1), DigitsValue(d2)))
  {
    var more := LengthIndexText + (d2 + ")");
    IndexTextStopsDigits(d2);
    ReadNumberAfterDigits(LengthValuesText, d1, more);
    ReadNumberAfterDigits(LengthIndexText, d2, ")");
    ReadCountsStep(LengthValuesText + (d1 + more), DigitsValue(d1), more, DigitsValue(d2));
  }

  /** The counts in the length message read back as the counts it was made from. */
  lemma LengthMismatchReadBack(values: nat, index: nat)
    ensures ReadCounts(LengthValuesText + (NatToString(values) + (LengthIndexText + (NatToString(index) + ")"))))
            == Some((values, index))
  {
    ReadCountsOfDigits(NatToString(values), NatToString(index));
    NatToStringRoundTrip(values);
    NatToStringRoundTrip(index);
  }

  /** `str(e)` of the ValueError pandas raises when a column is assigned a
      label list whose length is not the row count; both counts can be read
      back from it. */
  function LengthMismatchText(values: nat, index: nat): (s: string)
    ensures ReadCounts(s) == Some((values, index))
  {
    LengthMismatchReadBack(values, index);
    LengthValuesText + (NatToString(values) + (LengthIndexText + (NatToString(index) + ")")))
  }

  /** `str(e)` of the exception each failure raises inside `process_data`: the
      reader's own message, the two ValueError texts, the AttributeError of a
      missing pipeline, and pandas' length error. The missing list and the
      counts can be read back from the text. */
  function ExceptionText(f: Failure): (s: string)
    ensures f.ParseFailure? ==> s == f.detail
    ensures f.NoNumericData? ==> s == NoNumericColumnsText
    ensures f.PipelineMissing? ==> s == NoPipelineAttributeText
    ensures f.MissingFeatures? ==>
      HasPrefix(s, MissingRequiredText) && ParseList(s[|MissingRequiredText|..]) == Some(f.names)
    ensures f.LengthMismatch? ==> ReadCounts(s) == Some((f.values, f.index))
  {
    match f
    case ParseFailure(detail) => detail
    case NoNumericData => NoNumericColumnsText
    case PipelineMissing => NoPipelineAttributeText
    case MissingFeatures(names) =>
      ListReprRoundTrip(names);
      var s := MissingRequiredText + ListRepr(names);
      assert s[..|MissingRequiredText|] == MissingRequiredText && s[|MissingRequiredText|..] == ListRepr(names);
      s
    case LengthMismatch(values, index) => LengthMismatchText(values, index)
  }

  /** What `process_data` returns: the labels, the summary, the output path,
      and the labelled table it writes there. */
  datatype Processed = Processed(labels: seq<int>, summary: Summary, outputPath: string, written: Table)

  /** `process_data`: every failure, the two validation errors included,
      leaves as one ValueError whose message starts "Error processing file: ". */
  function ProcessData(upload: Result<Table, string>, pipeline: Option<Pipeline>): (r: Result<Processed, string>)
    requires upload.Ok? ==> Valid(upload.value)
    requires pipeline.Some? ==> Fitted(pipeline.value)
    ensures r.Ok? <==> Cluster(upload, pipeline).Ok?
    ensures r.Err? ==>
      && HasPrefix(r.error, ProcessErrorPrefix)
      && r.error[|ProcessErrorPrefix|..] == ExceptionText(Cluster(upload, pipeline).error)
    ensures r.Ok? ==>
      && r.value.labels == Cluster(upload, pipeline).value.labels
      && r.value.summary == Cluster(upload, pipeline).value.summary
      && r.value.written == Cluster(upload, pipeline).value.labeled
      && r.value.outputPath == OutputPath
  {
    match Cluster(upload, pipeline)
    case Err(f) => Err(ProcessErrorPrefix + ExceptionText(f))
    case Ok(c) => Ok(Processed(c.labels, c.summary, OutputPath, c.labeled))
  }
}

module ClusteringProperties {
  import opened PyFormat
  import opened Results
  import opened Frames
  import opened GroupBy
  import opened Clustering

  /** Dropping the key from a list that ends with it drops the last entry too. */
  lemma {:induction false} WithoutAppendedKey(names: seq<string>, key: string)
    ensures Without(names + [key], key) == Without(names, key)
  {
    if |names| > 0 {
      assert (names + [key])[1..] == names[1..] + [key];
      WithoutAppendedKey(names[1..], key);
    } else {
      assert Without([key][1..], key) == [];
    }
  }

  /** In a labelled aligned table, every feature column other than `Cluster`
      is the aligned column of that name. */
  lemma GroupedFeature(aligned: Table, labels: seq<int>, n: string)
    requires Valid(aligned) && |labels| == aligned.rows
    requires HasColumn(aligned, n) && n != LabelColumn
    ensures HasColumn(SetColumn(aligned, LabelColumn, Int64s(labels)), n)
    ensures Get(SetColumn(aligned, LabelColumn, Int64s(labels)), n) == Get(aligned, n)
  {
    var grouped := SetColumn(aligned, LabelColumn, Int64s(labels));
    var c := Get(aligned, n);
    var i :| 0 <= i < |aligned.columns| && aligned.columns[i] == c;
    assert grouped.columns[i] == c;
    assert Names(grouped.columns)[i] == n;
  }

  /** The reported missing features are exactly the required features that have
      no numeric column in the upload: absent, or present with a non-numeric
      dtype. Every one is named, not just the first. */
  lemma MissingMeansNoNumericColumn(upload: Result<Table, string>, pipeline: Option<Pipeline>)
    requires upload.Ok? ==> Valid(upload.value)
    requires pipeline.Some? ==> Fitted(pipeline.value)
    requires Cluster(upload, pipeline).Err? && Cluster(upload, pipeline).error.MissingFeatures?
    ensures upload.Ok? && pipeline.Some?
    ensures Cluster(upload, pipeline).error.names != []
    ensures forall f :: f in Cluster(upload, pipeline).error.names <==>
      f in pipeline.value.features && !IsNumericColumn(upload.value, f)
  {
    var names := Cluster(upload, pipeline).error.names;
    assert names == Missing(SelectNumeric(upload.value), pipeline.value.features);
    assert names[0] in names;
  }

  /** On success the aligned table holds exactly the required features, in
      the pipeline's order, each the uploaded column of that name; extra
      columns are gone, and the labels are `predict` of that table. */
  lemma AlignedIsRequiredFeatures(upload: Result<Table, string>, pipeline: Option<Pipeline>)
    requires upload.Ok? ==> Valid(upload.value)
    requires pipeline.Some? ==> Fitted(pipeline.value)
    requires Cluster(upload, pipeline).Ok?
    ensures upload.Ok? && pipeline.Some?
    ensures var c := Cluster(upload, pipeline).value;
      && Valid(c.aligned) && c.aligned.rows == upload.value.rows
      && Names(c.aligned.columns) == pipeline.value.features
      && (forall i :: 0 <= i < |c.aligned.columns| ==>
            IsNumericColumn(upload.value, c.aligned.columns[i].name)
            && c.aligned.columns[i] == Get(upload.value, pipeline.value.features[i]))
      && c.labels == pipeline.value.predict(c.aligned)
      && |c.labels| == upload.value.rows
  {
    var data := upload.value;
    var features := pipeline.value.features;
    var numeric := SelectNumeric(data);
    var c := Cluster(upload, pipeline).value;
    assert c.aligned == Project(numeric, features);
    forall i | 0 <= i < |c.aligned.columns|
      ensures IsNumericColumn(data, c.aligned.columns[i].name)
      ensures c.aligned.columns[i] == Get(data, features[i])
    {
      assert features[i] in features;
      assert c.aligned.columns[i].name == Names(c.aligned.columns)[i];
    }
  }

  /** The labelled upload keeps every column and row of the upload in place
      and carries one `Cluster` value per row: an existing `Cluster` column is
      overwritten where it stands, otherwise the column is appended last. */
  lemma LabeledKeepsUpload(upload: Result<Table, string>, pipeline: Option<Pipeline>)
    requires upload.Ok? ==> Valid(upload.value)
    requires pipeline.Some? ==> Fitted(pipeline.value)
    requires Cluster(upload, pipeline).Ok?
    ensures upload.Ok?
    ensures var c := Cluster(upload, pipeline).value;
      && Valid(c.labeled) && c.labeled.rows == upload.value.rows
      && Get(c.labeled, LabelColumn) == Column(LabelColumn, Int64s(c.labels))
      && (HasColumn(upload.value, LabelColumn) ==>
            |c.labeled.columns| == |upload.value.columns|)
      && (!HasColumn(upload.value, LabelColumn) ==>
            |c.labeled.columns| == |upload.value.columns| + 1)
      && forall i :: 0 <= i < |upload.value.columns| && upload.value.columns[i].name != LabelColumn ==>
           c.labeled.columns[i] == upload.value.columns[i]
  {
  }

  lemma GroupedNames(aligned: Table, features: seq<string>, labels: seq<int>)
    requires Valid(aligned) && |labels| == aligned.rows
    requires Names(aligned.columns) == features
    ensures Without(Names(SetColumn(aligned, LabelColumn, Int64s(labels)).columns), LabelColumn)
         == Without(features, LabelColumn)
  {
    var grouped := SetColumn(aligned, LabelColumn, Int64s(labels));
    if HasColumn(aligned, LabelColumn) {
      assert Names(grouped.columns) == Names(aligned.columns);
    } else {
      assert Names(grouped.columns) == Names(aligned.columns) + [LabelColumn];
      WithoutAppendedKey(features, LabelColumn);
    }
  }

  lemma GroupedValue(data: Table, aligned: Table, features: seq<string>, labels: seq<int>, n: string)
    requires Valid(data) && Valid(aligned) && |labels| == aligned.rows
    requires Names(aligned.columns) == features
    requires forall i :: 0 <= i < |aligned.columns| ==>
      IsNumericColumn(data, aligned.columns[i].name) && aligned.columns[i] == Get(data, features[i])
    requires n in features && n != LabelColumn
    ensures IsNumericColumn(data, n)
    ensures HasColumn(SetColumn(aligned, LabelColumn, Int64s(labels)), n)
    ensures Get(SetColumn(aligned, LabelColumn, Int64s(labels)), n) == Get(data, n)
  {
    var i := IndexOf(features, n);
    assert Names(aligned.columns)[i] == n;
    assert HasColumn(aligned, n) && Get(aligned, n) == aligned.columns[i];
    GroupedFeature(aligned, labels, n);
  }

  /** Grouping a labelled aligned table: its columns are the features other
      than `Cluster`, and each one holds the uploaded column of that name. */
  lemma GroupedAligned(data: Table, aligned: Table, features: seq<string>, labels: seq<int>)
    requires Valid(data) && Valid(aligned) && |labels| == aligned.rows
    requires Names(aligned.columns) == features
    requires forall i :: 0 <= i < |aligned.columns| ==>
      IsNumericColumn(data, aligned.columns[i].name) && aligned.columns[i] == Get(data, features[i])
    ensures var grouped := SetColumn(aligned, LabelColumn, Int64s(labels));
      && Groupable(grouped, LabelColumn)
      && KeyLabels(grouped, LabelColumn) == labels
      && Without(Names(grouped.columns), LabelColumn) == Without(features, LabelColumn)
      && forall n :: n in Without(features, LabelColumn) ==>
           IsNumericColumn(data, n) && Values(grouped, n) == Get(data, n).data.AsReals()
  {
    forall c | c in aligned.columns ensures c.data.IsNumeric() {
      var i :| 0 <= i < |aligned.columns| && aligned.columns[i] == c;
    }
    LabelledIsGroupable(aligned, labels);
    GroupedNames(aligned, features, labels);
    forall n | n in Without(features, LabelColumn)
      ensures IsNumericColumn(data, n)
      ensures Values(SetColumn(aligned, LabelColumn, Int64s(labels)), n) == Get(data, n).data.AsReals()
    {
      GroupedValue(data, aligned, features, labels, n);
    }
  }

  /** The rows and columns of the summary of a labelled aligned table. */
  lemma GroupedSummaryShape(data: Table, aligned: Table, features: seq<string>, labels: seq<int>)
    requires Valid(data) && Valid(aligned) && aligned.rows == data.rows && |labels| == aligned.rows
    requires Names(aligned.columns) == features
    requires forall i :: 0 <= i < |aligned.columns| ==>
      IsNumericColumn(data, aligned.columns[i].name) && aligned.columns[i] == Get(data, features[i])
    ensures Groupable(SetColumn(aligned, LabelColumn, Int64s(labels)), LabelColumn)
    ensures var s := GroupByMean(SetColumn(aligned, LabelColumn, Int64s(labels)), LabelColumn);
      && s.columns == Without(features, LabelColumn)
      && (forall g, h :: 0 <= g < h < |s.groups| ==> s.groups[g].cluster < s.groups[h].cluster)
      && (forall k :: k in labels <==> exists g :: 0 <= g < |s.groups| && s.groups[g].cluster == k)
  {
    GroupedAligned(data, aligned, features, labels);
  }

  /** An entry of the summary of a labelled aligned table, in terms of the
      uploaded column. */
  lemma GroupedSummaryEntry(data: Table, aligned: Table, features: seq<string>, labels: seq<int>, g: int, j: int)
    requires Valid(data) && Valid(aligned) && aligned.rows == data.rows && |labels| == aligned.rows
    requires Names(aligned.columns) == features
    requires forall i :: 0 <= i < |aligned.columns| ==>
      IsNumericColumn(data, aligned.columns[i].name) && aligned.columns[i] == Get(data, features[i])
    requires Groupable(SetColumn(aligned, LabelColumn, Int64s(labels)), LabelColumn)
    requires 0 <= g < |GroupByMean(SetColumn(aligned, LabelColumn, Int64s(labels)), LabelColumn).groups|
    requires 0 <= j < |GroupByMean(SetColumn(aligned, LabelColumn, Int64s(labels)), LabelColumn).columns|
    ensures var s := GroupByMean(SetColumn(aligned, LabelColumn, Int64s(labels)), LabelColumn);
      && s.groups[g].cluster in labels
      && |s.groups[g].means| == |s.columns|
      && IsNumericColumn(data, s.columns[j])
      && s.groups[g].means[j] == GroupMean(Get(data, s.columns[j]).data.AsReals(), labels, s.groups[g].cluster)
  {
    GroupedAligned(data, aligned, features, labels);
    var grouped := SetColumn(aligned, LabelColumn, Int64s(labels));
    var s := GroupByMean(grouped, LabelColumn);
    var n := s.columns[j];
    assert n in Without(features, LabelColumn);
    assert Values(grouped, n) == Get(data, n).data.AsReals();
    assert s.groups[g].means[j] == GroupMean(Values(grouped, n), KeyLabels(grouped, LabelColumn), s.groups[g].cluster);
  }

  /** The summary has one row per label that `predict` produced, in ascending
      order and none for an absent label; its columns are the required features
      other than `Cluster`, since a required `Cluster` feature is overwritten by
      the labels before grouping. */
  lemma SummaryRowsAreClusters(upload: Result<Table, string>, pipeline: Option<Pipeline>)
    requires upload.Ok? ==> Valid(upload.value)
    requires pipeline.Some? ==> Fitted(pipeline.value)
    requires Cluster(upload, pipeline).Ok?
    ensures upload.Ok? && pipeline.Some?
    ensures var c := Cluster(upload, pipeline).value;
      && |c.labels| == upload.value.rows
      && c.summary.columns == Without(pipeline.value.features, LabelColumn)
      && (forall g, h :: 0 <= g < h < |c.summary.groups| ==> c.summary.groups[g].cluster < c.summary.groups[h].cluster)
      && (forall k :: k in c.labels <==> exists g :: 0 <= g < |c.summary.groups| && c.summary.groups[g].cluster == k)
  {
    AlignedIsRequiredFeatures(upload, pipeline);
    var c := Cluster(upload, pipeline).value;
    GroupedSummaryShape(upload.value, c.aligned, pipeline.value.features, c.labels);
    assert c.summary == GroupByMean(SetColumn(c.aligned, LabelColumn, Int64s(c.labels)), LabelColumn);
  }

  /** Each entry of the summary is the mean of that uploaded column over
      exactly the rows given that row's label. */
  lemma SummaryIsClusterMeans(upload: Result<Table, string>, pipeline: Option<Pipeline>, g: int, j: int)
    requires upload.Ok? ==> Valid(upload.value)
    requires pipeline.Some? ==> Fitted(pipeline.value)
    requires Cluster(upload, pipeline).Ok?
    requires 0 <= g < |Cluster(upload, pipeline).value.summary.groups|
    requires 0 <= j < |Cluster(upload, pipeline).value.summary.columns|
    ensures upload.Ok? && pipeline.Some?
    ensures var c := Cluster(upload, pipeline).value;
      && c.summary.groups[g].cluster in c.labels
      && |c.summary.groups[g].means| == |c.summary.columns|
      && IsNumericColumn(upload.value, c.summary.columns[j])
      && c.summary.groups[g].means[j] ==
         GroupMean(Get(upload.value, c.summary.columns[j]).data.AsReals(), c.labels, c.summary.groups[g].cluster)
  {
    var c := Cluster(upload, pipeline).value;
    AlignedIsRequiredFeatures(upload, pipeline);
    GroupedAligned(upload.value, c.aligned, pipeline.value.features, c.labels);
    assert c.summary == GroupByMean(SetColumn(c.aligned, LabelColumn, Int64s(c.labels)), LabelColumn);
    GroupedSummaryEntry(upload.value, c.aligned, pipeline.value.features, c.labels, g, j);
  }

  /** A required feature of a successful run is still a numeric column after
      the labels are attached; a feature other than `Cluster` is unchanged. */
  lemma LabeledFeature(data: Table, labels: seq<int>, f: string)
    requires Valid(data) && |labels| == data.rows
    requires HasColumn(SelectNumeric(data), f)
    ensures var numeric2 := SelectNumeric(SetColumn(data, LabelColumn, Int64s(labels)));
      && HasColumn(numeric2, f)
      && (f != LabelColumn ==> Get(numeric2, f) == Get(SelectNumeric(data), f))
  {
    var labeled := SetColumn(data, LabelColumn, Int64s(labels));
    if f != LabelColumn {
      SetColumnKeepsOthers(data, LabelColumn, Int64s(labels), f);
      assert Get(labeled, f) == Get(data, f);
    } else {
      assert Get(labeled, f).data.IsNumeric();
    }
  }

  /** Nothing is missing when every required feature has a column. */
  lemma {:induction false} NothingMissing(numeric: Table, features: seq<string>)
    requires forall f :: f in features ==> HasColumn(numeric, f)
    ensures Missing(numeric, features) == []
  {
    if |features| > 0 {
      assert features[0] in features;
      assert forall f :: f in features[1..] ==> f in features;
      NothingMissing(numeric, features[1..]);
    }
  }

  /** The labelled upload still holds every required feature as a numeric
      column, so it passes the checks again. */
  lemma LabeledPassesChecks(data: Table, features: seq<string>, labels: seq<int>)
    requires Valid(data) && |labels| == data.rows
    requires !IsEmpty(SelectNumeric(data)) && Missing(SelectNumeric(data), features) == []
    ensures var numeric2 := SelectNumeric(SetColumn(data, LabelColumn, Int64s(labels)));
      && !IsEmpty(numeric2)
      && Missing(numeric2, features) == []
  {
    var labeled := SetColumn(data, LabelColumn, Int64s(labels));
    var numeric2 := SelectNumeric(labeled);
    forall f | f in features ensures HasColumn(numeric2, f) {
      assert HasColumn(SelectNumeric(data), f);
      LabeledFeature(data, labels, f);
    }
    NothingMissing(numeric2, features);
    assert Get(labeled, LabelColumn).data.IsNumeric();
    assert HasColumn(numeric2, LabelColumn);
  }

  /** Aligning the labelled upload gives the first alignment except in the
      `Cluster` column, which the labels then overwrite in both. */
  lemma RealignLabeled(data: Table, features: seq<string>, labels: seq<int>)
    requires Valid(data) && NoDup(features) && |labels| == data.rows
    requires forall f :: f in features ==> HasColumn(SelectNumeric(data), f)
    requires forall f :: f in features ==> HasColumn(SelectNumeric(SetColumn(data, LabelColumn, Int64s(labels))), f)
    ensures var again := Project(SelectNumeric(SetColumn(data, LabelColumn, Int64s(labels))), features);
      var aligned := Project(SelectNumeric(data), features);
      SetColumn(again, LabelColumn, Int64s(labels)) == SetColumn(aligned, LabelColumn, Int64s(labels))
  {
    var numeric := SelectNumeric(data);
    var numeric2 := SelectNumeric(SetColumn(data, LabelColumn, Int64s(labels)));
    var again := Project(numeric2, features);
    var aligned := Project(numeric, features);
    forall i | 0 <= i < |again.columns| && again.columns[i].name != LabelColumn
      ensures again.columns[i] == aligned.columns[i]
    {
      assert Names(again.columns)[i] == features[i];
      assert features[i] in features;
      LabeledFeature(data, labels, features[i]);
    }
    SetColumnOverwrites(again, aligned, LabelColumn, Int64s(labels));
  }

  /** Processing the labelled table again with a pipeline that predicts the
      same labels gives back that table and the summary: the old `Cluster`
      column is overwritten, never averaged. */
  lemma ReprocessingLabeledUpload(data: Table, p: Pipeline, q: Pipeline)
    requires Valid(data) && Fitted(p) && q.features == p.features
    requires Cluster(Ok(data), Some(p)).Ok?
    ensures var c := Cluster(Ok(data), Some(p)).value;
      && Valid(c.labeled)
      && !IsEmpty(SelectNumeric(c.labeled))
      && Missing(SelectNumeric(c.labeled), p.features) == []
    ensures var c := Cluster(Ok(data), Some(p)).value;
      var again := Project(SelectNumeric(c.labeled), p.features);
      q.predict(again) == c.labels ==>
        Cluster(Ok(c.labeled), Some(q)) == Ok(Clustered(again, c.labels, c.labeled, c.summary))
  {
    var c := Cluster(Ok(data), Some(p)).value;
    var labels := c.labels;
    assert |labels| == data.rows;
    LabeledPassesChecks(data, p.features, labels);
    RealignLabeled(data, p.features, labels);
    var labeled := c.labeled;
    var again := Project(SelectNumeric(labeled), p.features);
    if q.predict(again) == labels {
      SetColumnSameData(labeled, LabelColumn);
    }
  }

  /** `predict` is consulted only once alignment has succeeded: two pipelines
      with the same features fail alike on every validation error. */
  lemma ValidationIgnoresPredict(upload: Result<Table, string>, p: Pipeline, q: Pipeline)
    requires upload.Ok? ==> Valid(upload.value)
    requires Fitted(p) && q.features == p.features
    requires Cluster(upload, Some(p)).Err? && !Cluster(upload, Some(p)).error.LengthMismatch?
    ensures Cluster(upload, Some(q)) == Cluster(upload, Some(p))
  {
  }

  lemma ExampleDistinct()
    ensures DistinctLabels([0, 0, 1]) == [0, 1]
  {
    assert [0, 0, 1][..2] == [0, 0] && [0, 0][..1] == [0] && [0][..0] == [];
    assert DistinctLabels([0]) == [0];
    assert DistinctLabels([0, 0]) == [0];
  }

  lemma ExampleRows()
    ensures RowsWith([0, 0, 1], 0) == [0, 1]
    ensures RowsWith([0, 0, 1], 1) == [2]
  {
    assert [0, 0, 1][..2] == [0, 0] && [0, 0][..1] == [0] && [0][..0] == [];
    assert RowsWith([0], 0) == [0];
    assert RowsWith([0, 0], 0) == [0, 1];
    assert RowsWith([0], 1) == [];
    assert RowsWith([0, 0], 1) == [];
  }

  lemma ExampleSums()
    ensures Sum([1.0, 2.0]) == 3.0 && Sum([10.0]) == 10.0
  {
    assert [1.0, 2.0][..1] == [1.0];
  }

  lemma ExampleGroupZero(xs: seq<real>)
    requires xs == [1.0, 2.0, 10.0]
    ensures GroupValues(xs, [0, 0, 1], 0) == [1.0, 2.0]
  {
    ExampleRows();
    var idx := RowsWith([0, 0, 1], 0);
    GroupValuesAreRowValues(xs, [0, 0, 1], 0);
    var g := GroupValues(xs, [0, 0, 1], 0);
    assert |g| == 2;
    assert g[0] == xs[idx[0]] && idx[0] == 0;
    assert g[1] == xs[idx[1]] && idx[1] == 1;
  }

  lemma ExampleGroupOne(xs: seq<real>)
    requires xs == [1.0, 2.0, 10.0]
    ensures GroupValues(xs, [0, 0, 1], 1) == [10.0]
  {
    ExampleRows();
    var idx := RowsWith([0, 0, 1], 1);
    GroupValuesAreRowValues(xs, [0, 0, 1], 1);
    var g := GroupValues(xs, [0, 0, 1], 1);
    assert |g| == 1;
    assert g[0] == xs[idx[0]] && idx[0] == 2;
  }

  lemma ExampleMeans(xs: seq<real>)
    requires xs == [1.0, 2.0, 10.0]
    ensures GroupMean(xs, [0, 0, 1], 0) == 1.5
    ensures GroupMean(xs, [0, 0, 1], 1) == 10.0
  {
    ExampleGroupZero(xs);
    ExampleGroupOne(xs);
    ExampleSums();
  }

  lemma ExampleGroupedTable(a: Column, b: Column, labels: seq<int>)
    requires a == Column("A", Int64s([1, 2, 10])) && b == Column("B", Int64s([1, 2, 10]))
    requires labels == [0, 0, 1]
    ensures SetColumn(Table(3, [a, b]), LabelColumn, Int64s(labels))
         == Table(3, [a, b, Column(LabelColumn, Int64s(labels))])
  {
    assert Names([a, b]) == ["A", "B"];
  }

  lemma ExampleGroupedNames(grouped: Table, a: Column, b: Column, labels: seq<int>)
    requires a == Column("A", Int64s([1, 2, 10])) && b == Column("B", Int64s([1, 2, 10]))
    requires grouped == Table(3, [a, b, Column(LabelColumn, Int64s(labels))])
    ensures Names(grouped.columns) == ["A", "B", LabelColumn]
    ensures Without(Names(grouped.columns), LabelColumn) == ["A", "B"]
  {
    assert Names(grouped.columns) == ["A", "B", LabelColumn];
    WithoutAppendedKey(["A", "B"], LabelColumn);
    assert ["A", "B"] + [LabelColumn] == ["A", "B", LabelColumn];
    assert ["A", "B"][1..] == ["B"] && ["B"][1..] == [];
  }

  lemma ExampleGroupedGet(grouped: Table, a: Column, b: Column, labels: seq<int>)
    requires a == Column("A", Int64s([1, 2, 10])) && b == Column("B", Int64s([1, 2, 10]))
    requires labels == [0, 0, 1]
    requires grouped == Table(3, [a, b, Column(LabelColumn, Int64s(labels))])
    ensures Valid(grouped)
    ensures HasColumn(grouped, "A") && Get(grouped, "A") == a
    ensures HasColumn(grouped, "B") && Get(grouped, "B") == b
    ensures HasColumn(grouped, LabelColumn) && Get(grouped, LabelColumn) == Column(LabelColumn, Int64s(labels))
  {
    ExampleGroupedNames(grouped, a, b, labels);
  }

  lemma ExampleGroupedColumns(grouped: Table, a: Column, b: Column, labels: seq<int>)
    requires a == Column("A", Int64s([1, 2, 10])) && b == Column("B", Int64s([1, 2, 10]))
    requires labels == [0, 0, 1]
    requires grouped == Table(3, [a, b, Column(LabelColumn, Int64s(labels))])
    ensures Groupable(grouped, LabelColumn)
    ensures Without(Names(grouped.columns), LabelColumn) == ["A", "B"]
    ensures KeyLabels(grouped, LabelColumn) == labels
    ensures Values(grouped, "A") == [1.0, 2.0, 10.0] && Values(grouped, "B") == [1.0, 2.0, 10.0]
  {
    ExampleGroupedNames(grouped, a, b, labels);
    ExampleGroupedGet(grouped, a, b, labels);
  }

  lemma ExampleColumnMeans(grouped: Table, a: Column, b: Column, labels: seq<int>)
    requires a == Column("A", Int64s([1, 2, 10])) && b == Column("B", Int64s([1, 2, 10]))
    requires labels == [0, 0, 1]
    requires grouped == Table(3, [a, b, Column(LabelColumn, Int64s(labels))])
    ensures Groupable(grouped, LabelColumn) && 0 in labels && 1 in labels
    ensures HasColumn(grouped, "A") && Get(grouped, "A").data.IsNumeric()
    ensures HasColumn(grouped, "B") && Get(grouped, "B").data.IsNumeric()
    ensures ColumnMeans(grouped, LabelColumn, ["A", "B"], 0) == [1.5, 1.5]
    ensures ColumnMeans(grouped, LabelColumn, ["A", "B"], 1) == [10.0, 10.0]
  {
    ExampleGroupedColumns(grouped, a, b, labels);
    ExampleGroupedGet(grouped, a, b, labels);
    ExampleMeans(Values(grouped, "A"));
  }

  lemma ExampleSummary(grouped: Table, a: Column, b: Column, labels: seq<int>)
    requires a == Column("A", Int64s([1, 2, 10])) && b == Column("B", Int64s([1, 2, 10]))
    requires labels == [0, 0, 1]
    requires grouped == Table(3, [a, b, Column(LabelColumn, Int64s(labels))])
    ensures Groupable(grouped, LabelColumn)
    ensures GroupByMean(grouped, LabelColumn) == Summary(["A", "B"], [GroupRow(0, [1.5, 1.5]), GroupRow(1, [10.0, 10.0])])
  {
    ExampleGroupedColumns(grouped, a, b, labels);
    ExampleDistinct();
    ExampleColumnMeans(grouped, a, b, labels);
  }

  lemma ExampleSelected(data: Table, a: Column, b: Column)
    requires a == Column("A", Int64s([1, 2, 10])) && b == Column("B", Int64s([1, 2, 10]))
    requires data == Table(3, [a, b])
    ensures Valid(data) && SelectNumeric(data) == data
  {
    assert Names(data.columns) == ["A", "B"];
    assert NumericColumns(data.columns[1..]) == [b];
  }

  lemma ExampleAligned(data: Table, a: Column, b: Column)
    requires a == Column("A", Int64s([1, 2, 10])) && b == Column("B", Int64s([1, 2, 10]))
    requires data == Table(3, [a, b])
    ensures Valid(data) && SelectNumeric(data) == data
    ensures Align(data, ["A", "B"]) == Ok(data)
  {
    ExampleSelected(data, a, b);
    assert Names(data.columns) == ["A", "B"];
    assert Missing(data, ["A", "B"]) == [];
    assert Get(data, "A") == a && Get(data, "B") == b;
    assert Project(data, ["A", "B"]) == data;
  }

  lemma ExampleClusterIsAttach(predict: Table -> seq<int>, data: Table, a: Column, b: Column)
    requires a == Column("A", Int64s([1, 2, 10])) && b == Column("B", Int64s([1, 2, 10]))
    requires data == Table(3, [a, b])
    requires predict(data) == [0, 0, 1]
    ensures Valid(data)
    ensures Cluster(Ok(data), Some(Pipeline(["A", "B"], predict))) == Attach(data, data, [0, 0, 1])
  {
    ExampleAligned(data, a, b);
    assert !IsEmpty(SelectNumeric(data));
  }

  lemma ExampleAttach(data: Table, a: Column, b: Column)
    requires a == Column("A", Int64s([1, 2, 10])) && b == Column("B", Int64s([1, 2, 10]))
    requires data == Table(3, [a, b])
    ensures Valid(data)
    ensures Attach(data, data, [0, 0, 1]).Ok?
    ensures Attach(data, data, [0, 0, 1]).value.summary
         == Summary(["A", "B"], [GroupRow(0, [1.5, 1.5]), GroupRow(1, [10.0, 10.0])])
  {
    var labels := [0, 0, 1];
    ExampleAligned(data, a, b);
    ExampleGroupedTable(a, b, labels);
    var grouped := SetColumn(data, LabelColumn, Int64s(labels));
    ExampleSummary(grouped, a, b, labels);
    assert Attach(data, data, labels).value.summary == GroupByMean(grouped, LabelColumn);
  }

  /** Columns `A = [1, 2, 10]` and `B = [1, 2, 10]` labelled `[0, 0, 1]` by
      any pipeline over `A` and `B`: cluster 0 has means (1.5, 1.5) and
      cluster 1 has means (10, 10). */
  lemma TwoClusterExample(predict: Table -> seq<int>)
    requires predict(Table(3, [Column("A", Int64s([1, 2, 10])), Column("B", Int64s([1, 2, 10]))])) == [0, 0, 1]
    ensures
      var data := Table(3, [Column("A", Int64s([1, 2, 10])), Column("B", Int64s([1, 2, 10]))]);
      && Cluster(Ok(data), Some(Pipeline(["A", "B"], predict))).Ok?
      && Cluster(Ok(data), Some(Pipeline(["A", "B"], predict))).value.summary
         == Summary(["A", "B"], [GroupRow(0, [1.5, 1.5]), GroupRow(1, [10.0, 10.0])])
  {
    var a := Column("A", Int64s([1, 2, 10]));
    var b := Column("B", Int64s([1, 2, 10]));
    var data := Table(3, [a, b]);
    ExampleClusterIsAttach(predict, data, a, b);
    ExampleAttach(data, a, b);
  }

  lemma TextExampleMissing(data: Table, a: Column)
    requires a == Column("A", Int64s([1, 2]))
    requires data == Table(2, [Column("name", Other("object", ["x", "y"])), a])
    ensures Valid(data) && SelectNumeric(data) == Table(2, [a])
    ensures Align(Table(2, [a]), ["B"]) == Err(MissingFeatures(["B"]))
  {
    assert Names(data.columns) == ["name", "A"];
    assert NumericColumns(data.columns[1..]) == [a];
    assert Names([a]) == ["A"];
    assert !HasColumn(Table(2, [a]), "B");
    assert Missing(Table(2, [a]), ["B"]) == ["B"];
  }

  lemma ReprOfB()
    ensures Repr("B") == "'B'"
  {
    assert "B"[1..] == [];
    assert Escape("B", '\'') == "B";
  }

  /** The expected message is written in three literals, as the program
      assembles it, so that the verifier can compare it piece by piece. */
  lemma TextExampleMessage()
    ensures ProcessErrorPrefix + ExceptionText(MissingFeatures(["B"]))
         == "Error processing file: " + "Missing required features: " + "['B']"
  {
    ReprOfB();
    assert ListRepr(["B"]) == "['B']";
  }

  /** A text column `name` and a numeric column `A` against any pipeline that
      requires `B`: the upload has numeric data, so the failure is the missing
      `B`, not the absence of numeric data. */
  lemma TextColumnExample(predict: Table -> seq<int>)
    ensures
      var data := Table(2, [Column("name", Other("object", ["x", "y"])), Column("A", Int64s([1, 2]))]);
      && Cluster(Ok(data), Some(Pipeline(["B"], predict))) == Err(MissingFeatures(["B"]))
      && ProcessData(Ok(data), Some(Pipeline(["B"], predict)))
         == Err("Error processing file: " + "Missing required features: " + "['B']")
  {
    var a := Column("A", Int64s([1, 2]));
    TextExampleMissing(Table(2, [Column("name", Other("object", ["x", "y"])), a]), a);
    TextExampleMessage();
  }
}
