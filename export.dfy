/**
 * `export_table` and `get_signed_url` (backend/app/services/export_service.py):
 * checking that the table exists, submitting a BigQuery extract job to
 * sharded CSV objects under a timestamped path, waiting for it, and listing
 * what it wrote. The warehouse, the job and the bucket are gateways; the
 * export id and the timestamp are inputs.
 */
module Export {
  import opened Wrappers
  import opened Errors
  import opened Storage
  import opened JobWaiter

  /** The arguments of `export_table`. */
  datatype ExportRequest = ExportRequest(
    datasetId: string,
    tableId: string,
    destinationPrefix: Option<string>,
    compression: bool)

  /** The BigQuery side: the datasets and tables `get_dataset` and
      `get_table` find, and the error `extract_table` raises, if any. */
  datatype Warehouse = Warehouse(
    datasets: set<string>,
    tables: set<(string, string)>,
    submitFailure: Option<string>)

  /** Everything `export_table` talks to; the bucket's `listFault` is the
      error `list_blobs` raises, if any. */
  datatype ExportEnv = ExportEnv(
    bucketName: string,
    warehouse: Warehouse,
    job: JobFeed,
    store: Store)

  datatype DestinationFormat = Csv
  datatype Compression = GzipCodec

  /** The `ExtractJobConfig` the service builds. */
  datatype ExtractJobConfig = ExtractJobConfig(
    destinationFormat: DestinationFormat,
    compression: Option<Compression>,
    fieldDelimiter: string,
    printHeader: bool)

  /** An extract job as handed to `extract_table`. */
  datatype Submission = Submission(dataset: string, table: string, uris: seq<string>, config: ExtractJobConfig)

  /** The dictionary a successful export returns. */
  datatype ExportManifest = ExportManifest(
    exportId: string,
    status: string,
    files: seq<string>,
    totalFiles: nat,
    destinationPrefix: string,
    compression: bool)

  /** What an export does: its result and the job it submitted, if any. */
  datatype ExportRun = ExportRun(result: Result<ExportManifest, ApiError>, submitted: Option<Submission>)

  /** `f"{destination_prefix}/{timestamp}" if destination_prefix else timestamp`. */
  function BasePath(destinationPrefix: Option<string>, timestamp: string): string
  {
    if destinationPrefix.Some? && destinationPrefix.value != "" then destinationPrefix.value + "/" + timestamp
    else timestamp
  }

  /** The one wildcard destination URI, with ".gz" when compressing. */
  function DestinationUris(bucketName: string, basePath: string, compression: bool): seq<string>
  {
    var uri := "gs://" + bucketName + "/" + basePath + "/export-*.csv";
    [if compression then uri + ".gz" else uri]
  }

  function JobConfig(compression: bool): ExtractJobConfig
  {
    ExtractJobConfig(Csv, if compression then Some(GzipCodec) else None, ",", true)
  }

  /** The prefix the exported shards are listed under. */
  function ListingPrefix(basePath: string): string
  {
    basePath + "/export-"
  }

  /** Everything but a `ValidationError` leaves `export_table` re-wrapped. */
  function ExportFailed(reason: string): ApiError
  {
    ExportError("Export failed: " + reason)
  }

  /** `export_table(dataset_id, table_id, destination_prefix, compression)`. */
  function ExportTable(env: ExportEnv, exportId: string, timestamp: string, req: ExportRequest): ExportRun
    requires SleepAdvances(env.job.clock)
  {
    if req.datasetId !in env.warehouse.datasets then
      ExportRun(Failure(ValidationError("Dataset not found: " + req.datasetId)), None)
    else if (req.datasetId, req.tableId) !in env.warehouse.tables then
      ExportRun(Failure(ValidationError("Table not found: " + req.tableId + " in dataset " + req.datasetId)), None)
    else
      var base := BasePath(req.destinationPrefix, timestamp);
      var job := Submission(req.datasetId, req.tableId, DestinationUris(env.bucketName, base, req.compression),
                            JobConfig(req.compression));
      if env.warehouse.submitFailure.Some? then
        ExportRun(Failure(ExportFailed(env.warehouse.submitFailure.value)), Some(job))
      else
        var waited := Wait(env.job, DefaultTimeout, 0);
        if waited.raised.Some? then
          ExportRun(Failure(ExportFailed(waited.raised.value.message)), Some(job))
        else if env.store.listFault.Some? then
          ExportRun(Failure(ExportFailed(env.store.listFault.value)), Some(job))
        else
          var files := env.store.ListBlobs(ListingPrefix(base));
          ExportRun(Success(ExportManifest(exportId, "completed", files, |files|, base, req.compression)), Some(job))
  }

  /** The base path: the timestamp under a non-empty prefix, or on its own. */
  lemma BasePathRule(destinationPrefix: Option<string>, timestamp: string)
    ensures destinationPrefix.Some? && destinationPrefix.value != "" ==>
      BasePath(destinationPrefix, timestamp) == destinationPrefix.value + "/" + timestamp
    ensures destinationPrefix == None || destinationPrefix == Some("") ==>
      BasePath(destinationPrefix, timestamp) == timestamp
    ensures timestamp <= BasePath(destinationPrefix, timestamp)[|BasePath(destinationPrefix, timestamp)| - |timestamp|..]
  {
    var b := BasePath(destinationPrefix, timestamp);
    if destinationPrefix.Some? && destinationPrefix.value != "" {
      assert b[|b| - |timestamp|..] == timestamp;
    } else {
      assert b[|b| - |timestamp|..] == b;
    }
  }

  /** The checks run dataset first, then table; when either is missing
      nothing is submitted and the `ValidationError` (status 400) naming it
      is raised as it is. */
  lemma ExistenceChecks(env: ExportEnv, exportId: string, timestamp: string, req: ExportRequest)
    requires SleepAdvances(env.job.clock)
    ensures var run := ExportTable(env, exportId, timestamp, req);
      (run.submitted.None? <==>
         req.datasetId !in env.warehouse.datasets || (req.datasetId, req.tableId) !in env.warehouse.tables) &&
      (req.datasetId !in env.warehouse.datasets ==>
         run.result == Failure(ApiError(Validation, "Dataset not found: " + req.datasetId, 400, map[]))) &&
      (req.datasetId in env.warehouse.datasets && (req.datasetId, req.tableId) !in env.warehouse.tables ==>
         run.result == Failure(ApiError(Validation, "Table not found: " + req.tableId + " in dataset " + req.datasetId, 400, map[])))
  {
  }

  /** The job submitted: the table's own reference, one wildcard URI ending
      in "export-*.csv" (".gz" appended when compressing) under the base
      path, and a CSV configuration with header and comma delimiter, GZIP
      exactly when compressing. */
  lemma SubmittedJob(env: ExportEnv, exportId: string, timestamp: string, req: ExportRequest)
    requires SleepAdvances(env.job.clock)
    ensures var run := ExportTable(env, exportId, timestamp, req);
      var base := BasePath(req.destinationPrefix, timestamp);
      var uri := "gs://" + env.bucketName + "/" + base + "/export-*.csv";
      run.submitted.Some? ==>
        var job := run.submitted.value;
        job.dataset == req.datasetId && job.table == req.tableId &&
        job.uris == [if req.compression then uri + ".gz" else uri] &&
        job.config.destinationFormat == Csv && job.config.fieldDelimiter == "," && job.config.printHeader &&
        (job.config.compression == Some(GzipCodec) <==> req.compression) &&
        (!req.compression ==> job.config.compression.None?)
  {
  }

  /** A successful export lists the shards under "{base}/export-" and
      reports them with their count, the base path and the flag given. */
  lemma ExportManifestFields(env: ExportEnv, exportId: string, timestamp: string, req: ExportRequest)
    requires SleepAdvances(env.job.clock)
    ensures var run := ExportTable(env, exportId, timestamp, req);
      var base := BasePath(req.destinationPrefix, timestamp);
      run.result.Success? ==>
        var m := run.result.value;
        m.exportId == exportId && m.status == "completed" &&
        m.destinationPrefix == base && m.compression == req.compression &&
        m.totalFiles == |m.files| &&
        (forall n :: n in m.files <==> n in env.store.names && base + "/export-" <= n)
  {
  }

  /** The export succeeds exactly when the table exists, the job is
      submitted, the wait returns normally and the listing works. */
  lemma ExportSucceedsIff(env: ExportEnv, exportId: string, timestamp: string, req: ExportRequest)
    requires SleepAdvances(env.job.clock)
    ensures ExportTable(env, exportId, timestamp, req).result.Success? <==>
      req.datasetId in env.warehouse.datasets && (req.datasetId, req.tableId) in env.warehouse.tables &&
      env.warehouse.submitFailure.None? && Wait(env.job, DefaultTimeout, 0).raised.None? && env.store.listFault.None?
  {
  }

  /** Past the existence checks every failure is an `ExportError` (status
      500) whose message is "Export failed: " and the failure's own text; an
      error from the job waiter loses its details on the way. */
  lemma ExportFailuresWrapped(env: ExportEnv, exportId: string, timestamp: string, req: ExportRequest)
    requires SleepAdvances(env.job.clock)
    ensures var run := ExportTable(env, exportId, timestamp, req);
      run.result.Failure? && run.submitted.Some? ==>
        var e := run.result.error;
        e.cls == Export && e.statusCode == 500 && e.details == map[] && "Export failed: " <= e.message
    ensures var run := ExportTable(env, exportId, timestamp, req);
      var waited := Wait(env.job, DefaultTimeout, 0);
      run.submitted.Some? && env.warehouse.submitFailure.None? && waited.raised.Some? ==>
        run.result == Failure(ApiError(Export, "Export failed: " + waited.raised.value.message, 500, map[]))
  {
  }

  // ---------------------------------------------------------------------------
  // get_signed_url

  const ConsoleHost := "https://storage.cloud.google.com/"

  /** `get_signed_url(blob_name, expiration)`: a console URL; the expiration
      is not used. */
  function GetSignedUrl(bucketName: string, blobName: string, expiration: int := 3600): (url: string)
    ensures ConsoleHost + bucketName + "/" <= url
    ensures url[|ConsoleHost + bucketName + "/"|..] == blobName
  {
    var head := ConsoleHost + bucketName + "/";
    assert (head + blobName)[|head|..] == blobName;
    head + blobName
  }

  /** The object name back from a console URL of the bucket. */
  function BlobOfUrl(bucketName: string, url: string): Option<string>
  {
    var head := ConsoleHost + bucketName + "/";
    if head <= url then Some(url[|head|..]) else None
  }

  /** The URL names the object: reading the name back gives it, different
      objects get different URLs, and the expiration changes nothing. */
  lemma SignedUrlRoundTrip(bucketName: string, blobName: string, other: string, e1: int, e2: int)
    ensures BlobOfUrl(bucketName, GetSignedUrl(bucketName, blobName, e1)) == Some(blobName)
    ensures GetSignedUrl(bucketName, blobName, e1) == GetSignedUrl(bucketName, blobName, e2)
    ensures GetSignedUrl(bucketName, blobName) == GetSignedUrl(bucketName, other) ==> blobName == other
  {
    var head := ConsoleHost + bucketName + "/";
    assert GetSignedUrl(bucketName, other)[|head|..] == other;
  }
}
