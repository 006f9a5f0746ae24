# Clustering web app: feature alignment and cluster summary

This project models the core of a small Flask service. A user uploads a
CSV file. The service keeps the int64 and float64 columns and checks them
against the features a fitted clustering pipeline was trained on. It
aligns the columns to that order, predicts one cluster label per row and
writes the labelled table to a shared output file. It then answers with
the mean of every feature per cluster. A second route sends the output
file back.

The model has these parts:

- `results.dfy`: `Option` and `Result`.
- `pyformat.dfy`: the parts of Python's `str()` and `repr()` that appear in
  error messages. These are decimal integers and a list of strings such as
  `['B']`.
- `frames.dfy`: the DataFrame operations the code uses. They are
  `select_dtypes(include=["float64", "int64"])`, `df.empty`, `df[names]`
  and `df[name] = values`. A table is a row count plus named, typed columns.
- `groupby.dfy`: `groupby(key).mean()`, with exact `real` arithmetic.
- `clustering.dfy`: `load_pipeline` and `process_data` from
  `modules/clustering.py`. Both files share one decision function,
  `Cluster`. Module `ClusteringProperties` holds the end-to-end
  properties and two worked scenarios.
- `app.dfy`: `app.py`. It covers the start-up path resolution and
  pipeline load, and the `upload` and `download` routes. The routes are
  methods of a `Server` class whose state is the pipeline and the shared
  output file.

The fitted pipeline is seen from outside only. It is the ordered list of
feature names its scaler was fitted on, plus an uninterpreted `predict`
from a table to labels.

Points where pandas and Python behave in ways that are easy to miss; the
model follows the code:

- `df.empty` is also true for a table with columns but no rows. Such an
  upload is reported as "no numeric data".
- `data["Cluster"] = labels` overwrites an upload's existing `Cluster`
  column where it stands. It appends a new column only when there is none.
- A required feature named `Cluster` is overwritten by the labels before
  grouping. So it never appears among the summary's columns.
- `predict` may return a label count other than the row count. Pandas then
  raises "Length of values (n) does not match length of index (m)", and
  the model carries that as an error of its own.
- Path resolution does not check that the fallback path exists. A missing
  model shows up only as a failed load, which leaves the pipeline unset.
- Without a pipeline, `process_data` fails on the attribute access
  `pipeline.named_steps`, and its message is that `AttributeError`. `app.py`
  checks for the missing pipeline itself instead.

## Model

| member | source | states |
|---|---|---|
| PyFormat.NatToString | modules/clustering.py:49 | `str(n)` of a count is a non-empty string of digits with no leading zero |
| PyFormat.NatToStringRoundTrip | modules/clustering.py:49 | reading the decimal digits of `str(n)` back gives `n` |
| PyFormat.Repr | modules/clustering.py:29 | `repr` of a string is quoted at both ends, with double quotes exactly when the text holds `'` and no `"` |
| PyFormat.ListRepr | modules/clustering.py:29 | `repr` of a list is bracketed, and is `[]` exactly for the empty list |
| PyFormat.UnescapeEscape | modules/clustering.py:29 | an escaped string body followed by its closing quote reads back as the string, whatever text follows |
| PyFormat.ReprRoundTrip | modules/clustering.py:29 | `repr` of a string reads back as that string, whatever text follows it, so the quoted names in a message are unambiguous |
| PyFormat.ListReprRoundTrip | modules/clustering.py:29 | `repr` of a list of strings reads back as that list |
| PyFormat.ListReprInjective | app.py:66-68 | two different missing lists never give the same message text |
| Frames.ColumnData.AsReals | modules/clustering.py:45 | an int64 or float64 column gives one real per row, with int64 values converted unchanged |
| Frames.Get | modules/clustering.py:32 | `df[name]` is a column of that name, and in a valid table the only one |
| Frames.IsEmpty | modules/clustering.py:22 | `df.empty` holds exactly when the table has no column or no row; for a well-formed table, exactly when no column holds a value |
| Frames.NumericColumns | modules/clustering.py:21 | the kept columns are exactly the int64/float64 ones |
| Frames.NumericColumnsKeepNamesDistinct | modules/clustering.py:21 | the kept columns' names stay distinct |
| Frames.SelectNumeric | modules/clustering.py:21 | `select_dtypes` keeps the index and exactly the numeric columns, unchanged; a name survives iff its column is numeric |
| Frames.Project | modules/clustering.py:32 | `df[names]` has exactly `names` as its columns, in that order, each the column of that name; other columns are gone |
| Frames.SetColumn | modules/clustering.py:36 | `df[name] = values` replaces an existing column where it stands and keeps the others, or else appends it last; the index is kept |
| Frames.SetColumnSameData | modules/clustering.py:44 | writing a column's own values back leaves the table unchanged |
| Frames.SetColumnOverwrites | modules/clustering.py:44 | assigning a column erases what it held: tables that differ only in that column become equal |
| Frames.SetColumnKeepsOthers | modules/clustering.py:36 | assigning one column leaves every other column present, absent and unchanged as before |
| GroupBy.DistinctLabels | modules/clustering.py:45 | the group keys are strictly ascending and are exactly the labels that occur |
| GroupBy.RowsWith | modules/clustering.py:45 | a group's rows are exactly the row positions carrying its label, in row order |
| GroupBy.GroupValues | modules/clustering.py:45 | a group's values are one per row carrying its label |
| GroupBy.GroupValuesAreRowValues | modules/clustering.py:45 | the j-th value of a group is the value of the group's j-th row |
| GroupBy.MeanTimesCount | modules/clustering.py:45 | the mean of a non-empty list, times its length, is its sum |
| GroupBy.LabelHasRows | modules/clustering.py:45 | every label that occurs has at least one row |
| GroupBy.GroupMean | modules/clustering.py:45 | a cluster's value is the mean of the column over exactly the rows with that label: times their count it gives their sum |
| GroupBy.Without | modules/clustering.py:45 | the averaged columns are the table's columns other than the key |
| GroupBy.WithoutKeepsOrder | modules/clustering.py:45 | the averaged columns keep the table's column order and stay distinct |
| GroupBy.AveragedColumnsAreNumeric | modules/clustering.py:45 | every column other than the key of a groupable table is numeric, so it can be averaged |
| GroupBy.GroupRows | modules/clustering.py:45 | one summary row per given label, holding the group mean of each averaged column |
| GroupBy.ColumnMeans | modules/clustering.py:45 | one mean per averaged column, each over the rows with that label |
| GroupBy.GroupByMean | modules/clustering.py:44-45 | one summary row per label that occurs, ascending, none for an absent label; the columns are all but the key; each entry is the group mean of that column |
| Clustering.LoadPipeline | modules/clustering.py:6-11 | a path that does not exist fails with the "pipeline not found" message before the load is tried; otherwise the load's outcome is returned |
| Clustering.Missing | modules/clustering.py:27 | a feature is listed iff it is required and has no numeric column |
| Clustering.MissingKeepsOrder | modules/clustering.py:27 | the missing list is a subsequence of the required features, so it keeps their order, and names each feature once |
| Clustering.Align | modules/clustering.py:26-32 | alignment succeeds iff every required feature has a numeric column; a failure carries the full, non-empty missing list; success gives the required columns in the pipeline's order |
| Clustering.LabelledIsGroupable | modules/clustering.py:44 | the aligned table with the labels in `Cluster` can be grouped by `Cluster` |
| Clustering.Attach | modules/clustering.py:33-45 | attaching fails iff the label count differs from the row count; success labels the upload and groups the labelled aligned table |
| Clustering.Cluster | modules/clustering.py:18-45 | the checks run in order: parse error, then no numeric data whatever the pipeline, then no pipeline, then missing features; only then is `predict` called on the aligned table; each condition leads to its outcome and each outcome arises only from its condition |
| Clustering.LengthMismatchText | modules/clustering.py:36 | pandas' message for a label list of the wrong length names both counts, and both read back from it |
| Clustering.LengthMismatchReadBack | modules/clustering.py:36 | the value count and the index count are read back from the message exactly |
| Clustering.ExceptionText | modules/clustering.py:23-36 | the text of each failure: the reader's own message, the no-numeric-columns text, the `AttributeError` of a missing pipeline, "Missing required features: " with the list readable back, and pandas' length message with both counts readable back |
| Clustering.ProcessData | modules/clustering.py:14-49 | it succeeds iff the decision sequence does, with its labels, summary, written table and output path; every failure is one error whose message is "Error processing file: " and then the inner exception's text |
| ClusteringProperties.WithoutAppendedKey | modules/clustering.py:44 | an appended `Cluster` column never shows among the averaged columns |
| ClusteringProperties.GroupedFeature | modules/clustering.py:44 | writing `Cluster` into the aligned table leaves its other columns as they were |
| ClusteringProperties.MissingMeansNoNumericColumn | modules/clustering.py:21-29 | the reported list is non-empty and is exactly the required features that are absent or not numeric in the upload |
| ClusteringProperties.AlignedIsRequiredFeatures | modules/clustering.py:32-33 | on success the aligned columns are exactly the required features in order, each the uploaded numeric column, and the labels are `predict` of that table, one per row |
| ClusteringProperties.LabeledKeepsUpload | modules/clustering.py:36 | the labelled upload keeps every row and every other column in place; `Cluster` holds the labels, overwritten where it was or appended |
| ClusteringProperties.GroupedNames | modules/clustering.py:44-45 | the grouped columns are the required features other than `Cluster` |
| ClusteringProperties.GroupedValue | modules/clustering.py:44 | each grouped feature other than `Cluster` is the uploaded numeric column of that name |
| ClusteringProperties.GroupedAligned | modules/clustering.py:44-45 | the labelled aligned table is groupable; its keys are the labels, and its averaged columns hold the uploaded values |
| ClusteringProperties.GroupedSummaryShape | modules/clustering.py:44-45 | grouping the labelled aligned table gives the features other than `Cluster` as columns and one ascending row per label that occurs |
| ClusteringProperties.GroupedSummaryEntry | modules/clustering.py:44-45 | each entry of that summary is the group mean of the uploaded column of that name |
| ClusteringProperties.SummaryRowsAreClusters | modules/clustering.py:44-45 | on success the summary has one ascending row per predicted label and none other, and its columns are the required features except `Cluster` |
| ClusteringProperties.SummaryIsClusterMeans | modules/clustering.py:44-45 | on success each summary entry is the mean of the uploaded column over exactly the rows given that row's label |
| ClusteringProperties.NothingMissing | modules/clustering.py:27-28 | when every required feature has a column, the missing list is empty |
| ClusteringProperties.LabeledPassesChecks | modules/clustering.py:21-29 | the labelled upload of a successful run still has numeric data and every required feature as a numeric column |
| ClusteringProperties.RealignLabeled | modules/clustering.py:32-44 | aligning the labelled upload differs from the first alignment only in `Cluster`, which the labels overwrite in both |
| ClusteringProperties.ReprocessingLabeledUpload | modules/clustering.py:21-45 | processing the labelled table again with a pipeline that predicts the same labels gives back that table, the same labels and the same summary: the old `Cluster` column is overwritten, never averaged |
| ClusteringProperties.ValidationIgnoresPredict | modules/clustering.py:28-33 | every validation failure is reached without `predict`: pipelines with the same features fail alike |
| ClusteringProperties.TwoClusterExample | modules/clustering.py:44-45 | A=[1,2,10], B=[1,2,10] with labels [0,0,1] summarise to cluster 0 → (1.5, 1.5) and cluster 1 → (10, 10) |
| ClusteringProperties.TextColumnExample | modules/clustering.py:21-29 | a text column `name` with a numeric `A`, against a pipeline that requires `B`, fails with the missing list `['B']` and not with "no numeric data"; the message is "Error processing file: Missing required features: ['B']" |
| App.ResolvePipelinePath | app.py:13-26 | a set, non-empty MODEL_PATH wins; otherwise the Azure path when it exists; otherwise `./models/clustering_pipeline.pkl` |
| App.IsUnset | app.py:14 | an absent or empty `MODEL_PATH` is unset; a set one is a non-empty string |
| App.NoFile | app.py:42 | an upload counts as missing unless a file field with a non-empty file name was sent |
| App.UploadMessage | app.py:55-98 | the handler's own checks answer with an "Error: " message and caught exceptions with "An error occurred while processing the file: " plus their text, never both; the missing list is rendered as a Python list |
| App.Server.constructor | app.py:13-34 | start-up resolves the path by the rule above; a failed load leaves the pipeline unset instead of stopping |
| App.Server.Upload | app.py:40-100 | a GET shows the form; a POST without a file answers "Error: Please upload a CSV file." and changes nothing; otherwise it answers by the decision sequence, and only a success replaces the output file |
| App.Server.Download | app.py:103-111 | the output file is sent when it exists; otherwise the not-found message is returned |
| App.DownloadBeforeUpload | app.py:103-111 | on a server with no output file yet, a download returns the not-found message, not an empty file |
| App.UploadThenDownload | app.py:76-111 | after a successful upload the download sends the labelled table; after a failed one it sends what it sent before |

## Left out

- Flask routing, `render_template`, `send_file` and the HTML rendering of
  the summary are not modelled. The result page is a value holding the
  summary and the download link.
- `pd.read_csv` is not modelled: latin1 decoding, skipping bad lines and
  dtype inference. The parsed table, or the reader's error message, is an
  input.
- Uploaded tables are required to be well formed: distinct column names,
  because the reader renames repeated headers, and one value per row in
  every column.
- `joblib.load`, the scaler and `predict` are foreign code. The load is a
  function parameter, and `predict` is an uninterpreted function.
- Foreign calls are assumed not to raise. `KMeans.predict` raises on a NaN
  in a float64 column, and a scaler fitted without feature names raises
  `AttributeError` on `feature_names_in_`. Both would be caught and
  reported through the generic exception paths at
  `modules/clustering.py:48-49` and `app.py:96-98`, which the model
  exercises only for read and length errors.
- `Clustering.Fitted`: a loaded pipeline is assumed to list each feature
  once, as a fitted scaler does. A pipeline without a `scaler` step, which
  raises `KeyError` on lookup, is not modelled.
- The labels are modelled as an int64 column. Their actual integer width
  is whatever `predict` returns.
- Filesystem existence is a boolean input: the model file,
  `glob.glob` of the Azure path, and the output file.
- Writing the CSV and `os.makedirs` are not modelled, and neither are
  their failures. In `process_data` the written table is part of the
  result. In `app.py` it is the server's output field.
- `mean()` is computed with exact `real` arithmetic. NaN skipping, IEEE
  rounding and int64 overflow are not modelled.
- `PyFormat.Repr` escapes only backslash, the quote character, newline,
  carriage return and tab. Python also escapes other non-printable
  characters.
- `modules/plotting.py` is not part of this model. It only renders
  charts.
- Concurrent requests overwriting the shared output file are not
  modelled. Each `Upload` runs alone.
- Logging is not modelled.
