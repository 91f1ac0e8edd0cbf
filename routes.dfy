/**
 * The web routes of backend/app/main.py: reading the JSON request bodies
 * with their defaults, the two catalogue listings (which build one record
 * per dataset or table), the download route, and the authentication hook in
 * front of all of them. The BigQuery catalogue is a gateway whose calls
 * either answer or raise.
 */
module Routes {
  import opened Wrappers
  import opened Errors
  import opened Storage
  import opened JobWaiter
  import opened Merge
  import opened Export
  import opened Auth

  // ---------------------------------------------------------------------------
  // The BigQuery catalogue

  /** What `get_dataset` returns: the dataset's id, `friendly_name` and
      `location` (either may be unset). */
  datatype DatasetMeta = DatasetMeta(datasetId: string, friendlyName: Option<string>, location: Option<string>)

  /** An entry of `list_tables`: the table's id and its full reference. */
  datatype TableItem = TableItem(tableId: string, reference: string)

  /** What `get_table` returns. `created` and `modified` are the ISO texts of
      the timestamps, unset for a table that has none. */
  datatype TableMeta = TableMeta(
    tableId: string,
    tableType: Option<string>,
    numRows: Option<nat>,
    numBytes: Option<nat>,
    created: Option<string>,
    modified: Option<string>)

  /** The client calls the routes make. `datasets` is what `list_datasets`
      yields; the other calls are keyed by what they are given. */
  datatype Catalog = Catalog(
    datasets: Result<seq<string>, Raised>,
    getDataset: string -> Result<DatasetMeta, Raised>,
    listTables: string -> Result<seq<TableItem>, Raised>,
    getTable: string -> Result<TableMeta, Raised>)

  // ---------------------------------------------------------------------------
  // GET /api/v1/datasets

  /** One entry of the `datasets` list. */
  datatype DatasetRecord = DatasetRecord(id: string, friendlyName: string, location: Option<string>)

  /** `dataset.friendly_name or dataset.dataset_id`. */
  function DatasetRecordOf(meta: DatasetMeta): DatasetRecord
  {
    var friendly := if meta.friendlyName.Some? && meta.friendlyName.value != "" then meta.friendlyName.value
                    else meta.datasetId;
    DatasetRecord(meta.datasetId, friendly, meta.location)
  }

  /** The records of the listed ids, fetched one by one; the first fetch that
      raises ends the listing with its exception. */
  function DatasetRecords(ids: seq<string>, get: string -> Result<DatasetMeta, Raised>): (r: Result<seq<DatasetRecord>, Raised>)
    ensures r.Success? ==> |r.value| == |ids|
    decreases |ids|
  {
    if ids == [] then Success([])
    else
      var init := ids[..|ids| - 1];
      match DatasetRecords(init, get)
      case Failure(e) => Failure(e)
      case Success(rs) =>
        var got := get(ids[|ids| - 1]);
        if got.Failure? then Failure(got.error) else Success(rs + [DatasetRecordOf(got.value)])
  }

  /** The listing succeeds exactly when every fetch does, with one record per
      id in order; otherwise it fails with the error of the first fetch that
      raises. */
  lemma {:induction false} DatasetRecordsMeaning(ids: seq<string>, get: string -> Result<DatasetMeta, Raised>)
    ensures var r := DatasetRecords(ids, get);
      (r.Success? <==> forall i :: 0 <= i < |ids| ==> get(ids[i]).Success?) &&
      (r.Success? ==> forall i :: 0 <= i < |ids| ==> r.value[i] == DatasetRecordOf(get(ids[i]).value)) &&
      (r.Failure? ==>
         exists k :: 0 <= k < |ids| && get(ids[k]).Failure? && r.error == get(ids[k]).error &&
                     (forall j :: 0 <= j < k ==> get(ids[j]).Success?))
    decreases |ids|
  {
    if ids != [] {
      var init := ids[..|ids| - 1];
      DatasetRecordsMeaning(init, get);
      assert forall i :: 0 <= i < |init| ==> init[i] == ids[i];
    }
  }

  /** Once a prefix of the ids fails, so does the whole listing, with the
      same exception. */
  lemma {:induction false} DatasetRecordsStuck(ids: seq<string>, n: nat, get: string -> Result<DatasetMeta, Raised>)
    requires n <= |ids|
    requires DatasetRecords(ids[..n], get).Failure?
    ensures DatasetRecords(ids, get) == DatasetRecords(ids[..n], get)
    decreases |ids| - n
  {
    if n < |ids| {
      assert ids[..n + 1][..n] == ids[..n];
      DatasetRecordsStuck(ids, n + 1, get);
    } else {
      assert ids[..n] == ids;
    }
  }

  /** `list_datasets()` as specified: the listing's exception, or the records. */
  function ListDatasetsSpec(catalog: Catalog): Result<seq<DatasetRecord>, Raised>
  {
    match catalog.datasets
    case Failure(e) => Failure(e)
    case Success(ids) => DatasetRecords(ids, catalog.getDataset)
  }

  /** The `list_datasets` route: fetch each listed dataset in turn and build
      its record. */
  method ListDatasets(catalog: Catalog) returns (r: Result<seq<DatasetRecord>, Raised>)
    ensures r == ListDatasetsSpec(catalog)
  {
    if catalog.datasets.Failure? {
      return Failure(catalog.datasets.error);
    }
    var ids := catalog.datasets.value;
    var records: seq<DatasetRecord> := [];
    var i := 0;
    while i < |ids|
      invariant 0 <= i <= |ids|
      invariant DatasetRecords(ids[..i], catalog.getDataset) == Success(records)
    {
      var got := catalog.getDataset(ids[i]);
      assert ids[..i + 1][..i] == ids[..i];
      if got.Failure? {
        DatasetRecordsStuck(ids, i + 1, catalog.getDataset);
        return Failure(got.error);
      }
      records := records + [DatasetRecordOf(got.value)];
      i := i + 1;
    }
    assert ids[..i] == ids;
    r := Success(records);
  }

  /** The friendly name falls back to the id: it is the dataset's own one
      when that is set and non-empty, the id otherwise, and so is never empty
      for a dataset with a non-empty id. */
  lemma FriendlyNameFallback(meta: DatasetMeta)
    ensures var rec := DatasetRecordOf(meta);
      rec.id == meta.datasetId && rec.location == meta.location &&
      (meta.friendlyName.Some? && meta.friendlyName.value != "" ==> rec.friendlyName == meta.friendlyName.value) &&
      (meta.friendlyName.None? || meta.friendlyName == Some("") ==> rec.friendlyName == meta.datasetId) &&
      (meta.datasetId != "" ==> rec.friendlyName != "")
  {
  }

  // ---------------------------------------------------------------------------
  // GET /api/v1/datasets/<dataset_id>/tables

  datatype Timestamps = Timestamps(created: string, modified: string)

  /** One entry of the `tables` list. The basic entry has no `created` and
      `modified` keys: `timestamps` is `None`. */
  datatype TableRecord = TableRecord(
    id: string,
    tableType: Option<string>,
    numRows: Option<nat>,
    sizeBytes: Option<nat>,
    timestamps: Option<Timestamps>)

  const UnknownType := "UNKNOWN"

  /** The basic entry used when the full metadata is unavailable. */
  function BasicRecord(item: TableItem): TableRecord
  {
    TableRecord(item.tableId, Some(UnknownType), None, None, None)
  }

  /** The entry for one listed table: the full record from `get_table`, or
      the basic one when `get_table` raises or a missing timestamp makes
      `isoformat` raise. */
  function TableRecordOf(item: TableItem, got: Result<TableMeta, Raised>): TableRecord
  {
    if got.Success? && got.value.created.Some? && got.value.modified.Some? then
      var t := got.value;
      TableRecord(t.tableId, t.tableType, t.numRows, t.numBytes, Some(Timestamps(t.created.value, t.modified.value)))
    else BasicRecord(item)
  }

  /** The entries for the listed tables, in listing order. */
  function TableRecords(items: seq<TableItem>, get: string -> Result<TableMeta, Raised>): (r: seq<TableRecord>)
    ensures |r| == |items|
    ensures forall i :: 0 <= i < |items| ==> r[i] == TableRecordOf(items[i], get(items[i].reference))
    decreases |items|
  {
    if items == [] then []
    else
      var init := items[..|items| - 1];
      var last := items[|items| - 1];
      TableRecords(init, get) + [TableRecordOf(last, get(last.reference))]
  }

  function DatasetNotFound(datasetId: string): ApiError
  {
    ValidationError("Dataset not found: " + datasetId)
  }

  /** `list_tables(dataset_id)` as specified. */
  function ListTablesSpec(catalog: Catalog, datasetId: string): Result<seq<TableRecord>, Raised>
  {
    if catalog.getDataset(datasetId).Failure? then Failure(Raise(DatasetNotFound(datasetId)))
    else
      match catalog.listTables(datasetId)
      case Failure(e) => Failure(e)
      case Success(items) => Success(TableRecords(items, catalog.getTable))
  }

  /** The `list_tables` route: check the dataset, then fetch each listed
      table's metadata in turn. */
  method ListTables(catalog: Catalog, datasetId: string) returns (r: Result<seq<TableRecord>, Raised>)
    ensures r == ListTablesSpec(catalog, datasetId)
  {
    if catalog.getDataset(datasetId).Failure? {
      return Failure(Raise(DatasetNotFound(datasetId)));
    }
    var listed := catalog.listTables(datasetId);
    if listed.Failure? {
      return Failure(listed.error);
    }
    var items := listed.value;
    var records: seq<TableRecord> := [];
    var i := 0;
    while i < |items|
      invariant 0 <= i <= |items|
      invariant records == TableRecords(items[..i], catalog.getTable)
    {
      var item := items[i];
      var got := catalog.getTable(item.reference);
      var record: TableRecord;
      if got.Success? && got.value.created.Some? && got.value.modified.Some? {
        var t := got.value;
        record := TableRecord(t.tableId, t.tableType, t.numRows, t.numBytes, Some(Timestamps(t.created.value, t.modified.value)));
      } else {
        record := TableRecord(item.tableId, Some(UnknownType), None, None, None);
      }
      assert items[..i + 1][..i] == items[..i];
      records := records + [record];
      i := i + 1;
    }
    assert items[..i] == items;
    r := Success(records);
  }

  /** Any failure to fetch the dataset, whatever its cause, is reported as
      the `ValidationError` "Dataset not found: <id>" (status 400); past
      that check only the listing itself can fail, and then with its own
      exception. A table whose metadata cannot be read never fails the
      route. */
  lemma ListTablesOutcome(catalog: Catalog, datasetId: string)
    ensures var r := ListTablesSpec(catalog, datasetId);
      (catalog.getDataset(datasetId).Failure? ==>
         r == Failure(Raise(ApiError(Validation, "Dataset not found: " + datasetId, 400, map[])))) &&
      (r.Success? <==> catalog.getDataset(datasetId).Success? && catalog.listTables(datasetId).Success?) &&
      (r.Success? ==> |r.value| == |catalog.listTables(datasetId).value|)
  {
  }

  /** The full record carries the table's own metadata and both timestamps;
      otherwise the basic record names the listed table, with type
      "UNKNOWN", no counts and no timestamps. */
  lemma TableRecordFields(item: TableItem, got: Result<TableMeta, Raised>)
    ensures var rec := TableRecordOf(item, got);
      (rec.timestamps.Some? <==> got.Success? && got.value.created.Some? && got.value.modified.Some?) &&
      (rec.timestamps.Some? ==>
         rec.id == got.value.tableId && rec.tableType == got.value.tableType &&
         rec.numRows == got.value.numRows && rec.sizeBytes == got.value.numBytes &&
         rec.timestamps.value == Timestamps(got.value.created.value, got.value.modified.value)) &&
      (rec.timestamps.None? ==> rec == TableRecord(item.tableId, Some("UNKNOWN"), None, None, None))
  {
  }

  // ---------------------------------------------------------------------------
  // POST /api/v1/export and POST /api/v1/merge

  /** The members of the export request's JSON object; an absent member is
      `None`. */
  datatype ExportBody = ExportBody(
    datasetId: Option<string>,
    tableId: Option<string>,
    destinationPrefix: Option<string>,
    compression: Option<bool>)

  datatype MergeBody = MergeBody(
    sourcePrefix: Option<string>,
    destinationFilename: Option<string>,
    deleteSourceFiles: Option<bool>,
    compressOutput: Option<bool>)

  /** `data['key']` on a missing key raises `KeyError`, whose text is the
      quoted key. */
  function MissingKey(key: string): Raised
  {
    Other("'" + key + "'")
  }

  /** The export route's arguments: the two required members (read in this
      order), the optional prefix, and `compression` defaulting to false. */
  function ExportRequestOf(body: ExportBody): (r: Result<ExportRequest, Raised>)
    ensures r.Success? <==> body.datasetId.Some? && body.tableId.Some?
    ensures body.datasetId.None? ==> r == Failure(Other("'dataset_id'"))
    ensures body.datasetId.Some? && body.tableId.None? ==> r == Failure(Other("'table_id'"))
    ensures r.Success? ==>
      r.value.datasetId == body.datasetId.value && r.value.tableId == body.tableId.value &&
      r.value.destinationPrefix == body.destinationPrefix &&
      (r.value.compression <==> body.compression == Some(true))
  {
    if body.datasetId.None? then assert "'" + "dataset_id" + "'" == "'dataset_id'"; Failure(MissingKey("dataset_id"))
    else if body.tableId.None? then assert "'" + "table_id" + "'" == "'table_id'"; Failure(MissingKey("table_id"))
    else
      var compression := if body.compression.Some? then body.compression.value else false;
      Success(ExportRequest(body.datasetId.value, body.tableId.value, body.destinationPrefix, compression))
  }

  /** The merge route's arguments: both flags default to true. */
  function MergeRequestOf(body: MergeBody): (r: Result<MergeRequest, Raised>)
    ensures r.Success? <==> body.sourcePrefix.Some? && body.destinationFilename.Some?
    ensures body.sourcePrefix.None? ==> r == Failure(Other("'source_prefix'"))
    ensures body.sourcePrefix.Some? && body.destinationFilename.None? ==> r == Failure(Other("'destination_filename'"))
    ensures r.Success? ==>
      r.value.sourcePrefix == body.sourcePrefix.value &&
      r.value.destinationFilename == body.destinationFilename.value &&
      (r.value.deleteSourceFiles <==> body.deleteSourceFiles != Some(false)) &&
      (r.value.compressOutput <==> body.compressOutput != Some(false))
  {
    if body.sourcePrefix.None? then assert "'" + "source_prefix" + "'" == "'source_prefix'"; Failure(MissingKey("source_prefix"))
    else if body.destinationFilename.None? then assert "'" + "destination_filename" + "'" == "'destination_filename'"; Failure(MissingKey("destination_filename"))
    else
      var delete := if body.deleteSourceFiles.Some? then body.deleteSourceFiles.value else true;
      var compress := if body.compressOutput.Some? then body.compressOutput.value else true;
      Success(MergeRequest(body.sourcePrefix.value, body.destinationFilename.value, delete, compress))
  }

  /** The export route: read the arguments, run the export. */
  function ExportRoute(env: ExportEnv, exportId: string, timestamp: string, body: ExportBody): Result<ExportManifest, Raised>
    requires SleepAdvances(env.job.clock)
  {
    match ExportRequestOf(body)
    case Failure(e) => Failure(e)
    case Success(req) =>
      match ExportTable(env, exportId, timestamp, req).result
      case Failure(e) => Failure(Raise(e))
      case Success(m) => Success(m)
  }

  /** A body without `dataset_id` never reaches the service: the `KeyError`
      is rendered as a 500 whose text shows only in debug mode. A body with
      both ids runs the export with the defaults filled in, and its errors
      are rendered with their own status. */
  lemma ExportRouteOutcome(env: ExportEnv, exportId: string, timestamp: string, body: ExportBody, debug: bool)
    requires SleepAdvances(env.job.clock)
    ensures body.datasetId.None? ==>
      ExportRoute(env, exportId, timestamp, body) == Failure(Other("'dataset_id'")) &&
      Render(Other("'dataset_id'"), debug).status == 500 &&
      (!debug ==> Render(Other("'dataset_id'"), debug).body == ErrorWithMessage(InternalErrorTitle, RedactedMessage))
    ensures body.datasetId.Some? && body.tableId.Some? ==>
      var req := ExportRequest(body.datasetId.value, body.tableId.value, body.destinationPrefix, body.compression == Some(true));
      var run := ExportTable(env, exportId, timestamp, req);
      (run.result.Success? ==> ExportRoute(env, exportId, timestamp, body) == Success(run.result.value)) &&
      (run.result.Failure? ==>
         ExportRoute(env, exportId, timestamp, body) == Failure(Raise(run.result.error)) &&
         Render(Raise(run.result.error), debug).status == run.result.error.statusCode)
  {
  }

  /** The merge route: read the arguments, run the merge on the bucket. */
  method MergeRoute(bucket: Bucket, body: MergeBody) returns (r: Result<MergeManifest, Raised>)
    requires bucket.Valid()
    modifies bucket
    ensures bucket.Valid()
    ensures var parsed := MergeRequestOf(body);
      if parsed.Failure? then
        r == Failure(parsed.error) && bucket.Snapshot() == old(bucket.Snapshot()) && bucket.trace == old(bucket.trace)
      else
        var run := MergeSpec(old(bucket.Snapshot()), parsed.value);
        (if run.result.Success? then r == Success(run.result.value) else r == Failure(Raise(run.result.error))) &&
        bucket.Snapshot() == run.store && bucket.trace == old(bucket.trace) + run.events
  {
    var parsed := MergeRequestOf(body);
    if parsed.Failure? {
      return Failure(parsed.error);
    }
    var result := MergeCsvFiles(bucket, parsed.value);
    if result.Success? {
      r := Success(result.value);
    } else {
      r := Failure(Raise(result.error));
    }
  }

  // ---------------------------------------------------------------------------
  // GET /api/v1/download/<blob_name>

  datatype DownloadReply = DownloadReply(signedUrl: string, expiresIn: int)

  /** The download route: the service's URL with a fixed `expires_in` of one
      hour. */
  function DownloadRoute(bucketName: string, blobName: string): (r: DownloadReply)
    ensures r.expiresIn == 3600
    ensures BlobOfUrl(bucketName, r.signedUrl) == Some(blobName)
  {
    SignedUrlRoundTrip(bucketName, blobName, blobName, 3600, 3600);
    DownloadReply(GetSignedUrl(bucketName, blobName), 3600)
  }

  // ---------------------------------------------------------------------------
  // The authentication hook in front of the routes

  datatype Endpoint =
    | ListDatasetsAt
    | ListTablesAt(datasetId: string)
    | ExportAt
    | MergeAt
    | DownloadAt(blobName: string)

  /** The path each route is registered under. */
  function EndpointPath(e: Endpoint): string
  {
    match e
    case ListDatasetsAt => "/api/v1/datasets"
    case ListTablesAt(id) => "/api/v1/datasets/" + id + "/tables"
    case ExportAt => "/api/v1/export"
    case MergeAt => "/api/v1/merge"
    case DownloadAt(blob) => "/api/v1/download/" + blob
  }

  /** Every route lies under "/api/", so the hook verifies the token before
      any of them runs: a request reaches a route exactly when its token
      verifies, and is refused with status 401 otherwise. */
  lemma EveryEndpointAuthenticated(e: Endpoint, header: Option<string>, tokenInfo: string -> TokenInfoReply)
    ensures ApiPrefix <= EndpointPath(e)
    ensures Authenticate(EndpointPath(e), header, tokenInfo).None? <==> VerifyAuthToken(header, tokenInfo).Success?
    ensures Authenticate(EndpointPath(e), header, tokenInfo).Some? ==>
      Render(Raise(Authenticate(EndpointPath(e), header, tokenInfo).value), false).status == 401
  {
    var p := EndpointPath(e);
    assert p[..5] == ApiPrefix by {
      match e
      case ListDatasetsAt =>
      case ListTablesAt(id) => assert p == "/api/v1/datasets/" + id + "/tables";
      case ExportAt =>
      case MergeAt =>
      case DownloadAt(blob) => assert p == "/api/v1/download/" + blob;
    }
  }
}
