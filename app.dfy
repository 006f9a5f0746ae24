/** `app.py`: resolving and loading the pipeline once at start-up, the upload
    handler's decision sequence, and the download of the shared output file. */
module App {
  import opened Results
  import opened Frames
  import opened GroupBy
  import opened PyFormat
  import opened Clustering

  const AzureModelPath: string := "/home/site/wwwroot/models/clustering_pipeline.pkl"
  const FallbackModelPath: string := "./models/clustering_pipeline.pkl"
  const SharedOutputPath: string := "/home/site/wwwroot/data/output_with_clusters.csv"
  const DownloadRoute: string := "/download"

  // The messages below are built from shorter literals: the verifier reads
  // the characters of a short literal, which the prefix proofs need.

  /** Every message of a check the handler makes itself starts with this tag. */
  const ErrorTag: string := "Error: "
  const NoFileText: string := ErrorTag + "Please upload a CSV file."
  const NoNumericText: string := ErrorTag + "No numeric data found in the uploaded file."
  const PipelineNotLoadedText: string := ErrorTag + "Clustering pipeline not loaded."
  const MissingFeaturesPrefix: string := ErrorTag + "The following required features are missing: "
  const ExceptionPrefix: string := "An error occurred" + " while processing the file: "
  const NotFoundText: string := ErrorTag + "Clustered file not found. Please upload and process a dataset first."

  /** `not pipeline_path`: an absent or empty MODEL_PATH counts as unset. */
  predicate IsUnset(modelPathEnv: Option<string>)
    ensures !IsUnset(modelPathEnv) <==> modelPathEnv.Some? && |modelPathEnv.value| > 0
  {
    modelPathEnv.None? || modelPathEnv.value == ""
  }

  /** The path rule: a set MODEL_PATH wins; otherwise the Azure location when
      it exists; otherwise the fallback path. */
  predicate ResolvedFrom(path: string, modelPathEnv: Option<string>, azureModelExists: bool) {
    && (!IsUnset(modelPathEnv) ==> path == modelPathEnv.value)
    && (IsUnset(modelPathEnv) && azureModelExists ==> path == AzureModelPath)
    && (IsUnset(modelPathEnv) && !azureModelExists ==> path == FallbackModelPath)
  }

  /** The start-up path search: an unset MODEL_PATH falls back to a search for
      the Azure model file, and a failed search to the local path. `glob.glob`
      of a pattern without wildcards lists the path exactly when it exists, so
      the search is given as that fact. */
  method ResolvePipelinePath(modelPathEnv: Option<string>, azureModelExists: bool) returns (path: string)
    ensures ResolvedFrom(path, modelPathEnv, azureModelExists)
    ensures path != ""
  {
    var pipelinePath := modelPathEnv;
    if pipelinePath.None? || pipelinePath.value == "" {
      var found: seq<string> := if azureModelExists then [AzureModelPath] else [];
      if |found| > 0 {
        pipelinePath := Some(found[0]);
      } else {
        // the FileNotFoundError handler
        pipelinePath := Some(FallbackModelPath);
      }
    }
    path := pipelinePath.value;
  }

  /** The text the upload handler returns for each failure: the checks it
      makes itself return their own message, while exceptions are caught and
      reported with the "An error occurred ..." prefix. */
  function UploadMessage(f: Failure): (m: string)
    ensures HasPrefix(m, ExceptionPrefix) <==> f.ParseFailure? || f.LengthMismatch?
    ensures HasPrefix(m, ErrorTag) <==> !(f.ParseFailure? || f.LengthMismatch?)
    ensures f.ParseFailure? || f.LengthMismatch? ==> m[|ExceptionPrefix|..] == ExceptionText(f)
    ensures f.NoNumericData? ==> m == NoNumericText
    ensures f.PipelineMissing? ==> m == PipelineNotLoadedText
    ensures f.MissingFeatures? ==> HasPrefix(m, MissingFeaturesPrefix) && m[|MissingFeaturesPrefix|..] == ListRepr(f.names)
  {
    match f
    case NoNumericData =>
      FirstCharRulesOutPrefix(NoNumericText, ExceptionPrefix);
      NoNumericText
    case PipelineMissing =>
      FirstCharRulesOutPrefix(PipelineNotLoadedText, ExceptionPrefix);
      PipelineNotLoadedText
    case MissingFeatures(names) =>
      FirstCharRulesOutPrefix(MissingFeaturesPrefix + ListRepr(names), ExceptionPrefix);
      MissingFeaturesPrefix + ListRepr(names)
    case ParseFailure(_) =>
      FirstCharRulesOutPrefix(ExceptionPrefix + ExceptionText(f), ErrorTag);
      ExceptionPrefix + ExceptionText(f)
    case LengthMismatch(_, _) =>
      FirstCharRulesOutPrefix(ExceptionPrefix + ExceptionText(f), ErrorTag);
      ExceptionPrefix + ExceptionText(f)
  }

  /** An uploaded form field: the client's file name and what the CSV reader
      makes of its bytes (a table, or the message of the exception it raised). */
  datatype UploadedFile = UploadedFile(filename: string, parsed: Result<Table, string>)

  /** A file field is falsy when no field was sent or its file name is empty;
      a field with a non-empty file name is the only one the handler reads. */
  predicate NoFile(file: Option<UploadedFile>)
    ensures !NoFile(file) <==> file.Some? && |file.value.filename| > 0
  {
    file.None? || file.value.filename == ""
  }

  /** What the index route answers: the upload form, a text message, or the
      results page with the summary table and the download link. */
  datatype Page = UploadForm | Message(text: string) | ResultsPage(summary: Summary, downloadPath: string)

  datatype Download = Attachment(path: string, contents: Table) | NotFound(text: string)

  /** The process-wide state: the resolved pipeline path, the pipeline (None
      when loading failed), and the shared output file (None while it does not
      exist). */
  class Server {
    var pipelinePath: string
    var pipeline: Option<Pipeline>
    var output: Option<Table>

    predicate Valid()
      reads this
    {
      pipeline.Some? ==> Fitted(pipeline.value)
    }

    /** Start-up: resolve the path and try `joblib.load` (the parameter `load`);
        a failed load leaves the pipeline unset instead of stopping the server. */
    constructor (modelPathEnv: Option<string>, azureModelExists: bool,
                 load: string -> Result<Pipeline, string>, existingOutput: Option<Table>)
      requires forall path :: load(path).Ok? ==> Fitted(load(path).value)
      ensures Valid()
      ensures ResolvedFrom(pipelinePath, modelPathEnv, azureModelExists)
      ensures load(pipelinePath).Ok? ==> pipeline == Some(load(pipelinePath).value)
      ensures load(pipelinePath).Err? ==> pipeline == None
      ensures output == existingOutput
    {
      var path := ResolvePipelinePath(modelPathEnv, azureModelExists);
      pipelinePath := path;
      match load(path) {
        case Ok(p) => pipeline := Some(p);
        case Err(_) => pipeline := None;
      }
      output := existingOutput;
    }

    /** The index route. A POST without a file stops first; otherwise the
        checks run in the order of `Cluster` and each failure becomes its
        message. Only a successful run writes the output file, before the
        summary is computed. */
    method Upload(isPost: bool, file: Option<UploadedFile>) returns (page: Page)
      requires Valid()
      requires file.Some? && file.value.parsed.Ok? ==> Frames.Valid(file.value.parsed.value)
      modifies this`output
      ensures Valid()
      ensures !isPost ==> page == UploadForm && output == old(output)
      ensures isPost && NoFile(file) ==> page == Message(NoFileText) && output == old(output)
      ensures isPost && !NoFile(file) ==>
        var r := Cluster(file.value.parsed, pipeline);
        && page == (if r.Ok? then ResultsPage(r.value.summary, DownloadRoute) else Message(UploadMessage(r.error)))
        && output == (if r.Ok? then Some(r.value.labeled) else old(output))
    {
      if !isPost {
        return UploadForm;
      }
      if file.None? || file.value.filename == "" {
        return Message(NoFileText);
      }
      var parsed := file.value.parsed;
      if parsed.Err? {
        return Message(UploadMessage(ParseFailure(parsed.error)));
      }
      var data := parsed.value;
      var numericData := SelectNumeric(data);
      if IsEmpty(numericData) {
        return Message(UploadMessage(NoNumericData));
      }
      if pipeline.None? {
        return Message(UploadMessage(PipelineMissing));
      }
      var requiredFeatures := pipeline.value.features;
      var missingFeatures := Missing(numericData, requiredFeatures);
      if missingFeatures != [] {
        return Message(UploadMessage(MissingFeatures(missingFeatures)));
      }
      numericData := Project(numericData, requiredFeatures);
      var clusterLabels := pipeline.value.predict(numericData);
      if |clusterLabels| != data.rows {
        return Message(UploadMessage(LengthMismatch(|clusterLabels|, data.rows)));
      }
      data := SetColumn(data, LabelColumn, Int64s(clusterLabels));
      output := Some(data);
      LabelledIsGroupable(numericData, clusterLabels);
      numericData := SetColumn(numericData, LabelColumn, Int64s(clusterLabels));
      var clusterSummary := GroupByMean(numericData, LabelColumn);
      page := ResultsPage(clusterSummary, DownloadRoute);
    }

    /** The download route: the shared output file if it exists, otherwise the
        not-found message. */
    method Download() returns (d: Download)
      ensures output.None? ==> d == NotFound(NotFoundText)
      ensures output.Some? ==> d == Attachment(SharedOutputPath, output.value)
    {
      if output.Some? {
        d := Attachment(SharedOutputPath, output.value);
      } else {
        d := NotFound(NotFoundText);
      }
    }
  }

  /** Asking for the result on a server whose output file does not exist yet
      gives the not-found message, not an empty file. */
  method DownloadBeforeUpload(modelPathEnv: Option<string>, azureModelExists: bool,
                              load: string -> Result<Pipeline, string>) returns (d: Download)
    requires forall path :: load(path).Ok? ==> Fitted(load(path).value)
    ensures d == NotFound(NotFoundText)
  {
    var server := new Server(modelPathEnv, azureModelExists, load, None);
    d := server.Download();
  }

  /** An upload followed by a download: a successful upload makes the next
      download send the labelled table; a failed one leaves what a download
      sends as it was. */
  method UploadThenDownload(server: Server, file: UploadedFile) returns (page: Page, d: Download)
    requires server.Valid()
    requires file.filename != ""
    requires file.parsed.Ok? ==> Frames.Valid(file.parsed.value)
    modifies server`output
    ensures var r := Cluster(file.parsed, server.pipeline);
      && (r.Ok? ==> page.ResultsPage? && d == Attachment(SharedOutputPath, r.value.labeled))
      && (r.Err? ==> page.Message? && server.output == old(server.output))
      && (r.Err? && old(server.output).None? ==> d == NotFound(NotFoundText))
      && (r.Err? && old(server.output).Some? ==> d == Attachment(SharedOutputPath, old(server.output).value))
  {
    page := server.Upload(true, Some(file));
    d := server.Download();
  }
}
