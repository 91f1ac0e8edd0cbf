/**
 * `merge_csv_files` (backend/app/services/export_service.py): concatenating
 * the CSV shards under a prefix into one object, keeping the header line of
 * the first shard only, optionally gzip-compressed, and optionally deleting
 * the shards afterwards.
 */
module Merge {
  import opened Wrappers
  import opened Text
  import opened Errors
  import opened Storage

  /** The arguments of `merge_csv_files`. */
  datatype MergeRequest = MergeRequest(
    sourcePrefix: string,
    destinationFilename: string,
    deleteSourceFiles: bool,
    compressOutput: bool)

  /** The dictionary a successful merge returns (its `status` is always "completed"). */
  datatype MergeManifest = MergeManifest(
    status: string,
    mergedFile: string,
    totalSizeBytes: nat,
    sourceFilesDeleted: bool,
    compressed: bool)

  const Completed := "completed"

  /** `f"{destination_filename}.gz" if compress_output else destination_filename`. */
  function FinalName(req: MergeRequest): (name: string)
    ensures req.compressOutput ==> name == req.destinationFilename + ".gz"
    ensures !req.compressOutput ==> name == req.destinationFilename
  {
    if req.compressOutput then req.destinationFilename + ".gz" else req.destinationFilename
  }

  function NoFilesMessage(prefix: string): string
  {
    "No files found with prefix: " + prefix
  }

  /** Every exception inside the merge leaves it as an `ExportError`. */
  function MergeFailed(reason: string): ApiError
  {
    ExportError("Merge failed: " + reason)
  }

  // ---------------------------------------------------------------------------
  // Reading the shards

  /** `blob.download_as_bytes()` then `.decode('utf-8')`. */
  function ReadShard(st: Store, name: string): (r: Result<string, string>)
    ensures r.Success? <==> st.Download(name).Success? && st.Download(name).value.Utf8?
    ensures r.Success? ==> r.value == st.objects[name].text
  {
    match st.Download(name)
    case Failure(e) => Failure(e)
    case Success(p) => Decode(p)
  }

  /** The texts read before the first shard that could not be read, and that
      shard's error. */
  datatype Reads = Reads(texts: seq<string>, failure: Option<string>)

  /** Reading `names` in order, stopping at the first failure. */
  function ReadShards(st: Store, names: seq<string>): (r: Reads)
    ensures |r.texts| <= |names|
    ensures r.failure.None? ==> |r.texts| == |names|
    ensures r.failure.Some? ==> |r.texts| < |names|
  {
    if names == [] then Reads([], None)
    else
      var r := ReadShards(st, names[..|names| - 1]);
      if r.failure.Some? then r
      else match ReadShard(st, names[|names| - 1])
        case Failure(e) => Reads(r.texts, Some(e))
        case Success(t) => Reads(r.texts + [t], None)
  }

  /** Every text read is what its shard holds, and reading stops at the
      shard whose error is reported. */
  lemma {:induction false} ReadShardsTexts(st: Store, names: seq<string>)
    ensures var r := ReadShards(st, names);
      forall i :: 0 <= i < |r.texts| ==> ReadShard(st, names[i]) == Success(r.texts[i])
    ensures var r := ReadShards(st, names);
      r.failure.Some? ==> ReadShard(st, names[|r.texts|]) == Failure(r.failure.value)
  {
    if names != [] {
      var init := names[..|names| - 1];
      ReadShardsTexts(st, init);
      assert forall i :: 0 <= i < |init| ==> init[i] == names[i];
    }
  }

  /** Reading one more shard after successful reads adds its text, or
      records its failure. */
  lemma ReadShardsNext(st: Store, names: seq<string>, k: nat)
    requires k < |names| && ReadShards(st, names[..k]).failure.None?
    ensures var r := ReadShards(st, names[..k]);
      var one := ReadShard(st, names[k]);
      ReadShards(st, names[..k + 1]) ==
        if one.Failure? then Reads(r.texts, Some(one.error)) else Reads(r.texts + [one.value], None)
  {
    assert names[..k + 1][..k] == names[..k];
  }

  /** Once a read has failed, the remaining shards are not read. */
  lemma {:induction false} ReadShardsStuck(st: Store, names: seq<string>, i: nat)
    requires i <= |names|
    requires ReadShards(st, names[..i]).failure.Some?
    ensures ReadShards(st, names) == ReadShards(st, names[..i])
    decreases |names| - i
  {
    if i < |names| {
      assert names[..i + 1][..i] == names[..i];
      ReadShardsStuck(st, names, i + 1);
    } else {
      assert names[..i] == names;
    }
  }

  /** The first shard that cannot be read is where reading stops. */
  lemma {:induction false} ReadShardsFirstFailure(st: Store, names: seq<string>, i: nat)
    requires i < |names|
    requires forall j :: 0 <= j < i ==> ReadShard(st, names[j]).Success?
    requires ReadShard(st, names[i]).Failure?
    ensures |ReadShards(st, names).texts| == i
    ensures ReadShards(st, names).failure == Some(ReadShard(st, names[i]).error)
  {
    var init := names[..|names| - 1];
    assert forall j :: 0 <= j < |init| ==> init[j] == names[j];
    if i == |names| - 1 {
      ReadShardsTexts(st, init);
    } else {
      ReadShardsFirstFailure(st, init, i);
    }
  }

  // ---------------------------------------------------------------------------
  // The merged text

  /** Python's `lines[1:]`. */
  function Tail(lines: seq<string>): (r: seq<string>)
    ensures lines != [] ==> r == lines[1..]
    ensures lines == [] ==> r == []
  {
    if lines == [] then [] else lines[1..]
  }

  /** The lines of one shard that are written: all of them for the first
      shard, all but the header line for the others. */
  function ShardLines(text: string, first: bool): seq<string>
  {
    if first then SplitLines(text) else Tail(SplitLines(text))
  }

  /** What the loop writes for the shards `texts`, in order. */
  function Merged(texts: seq<string>): string
  {
    if texts == [] then ""
    else Merged(texts[..|texts| - 1]) + Concat(ShardLines(texts[|texts| - 1], |texts| == 1))
  }

  /** A shard's text after its first line (the whole line, terminator included). */
  function AfterFirstLine(text: string): (r: string)
    ensures |r| <= |text|
  {
    if text == "" then "" else text[FirstLineLength(text)..]
  }

  /** What a shard contributes, independently of `splitlines`: the whole
      text for the first shard, everything after its first line for the
      others. */
  lemma ShardContribution(text: string, first: bool)
    ensures Concat(ShardLines(text, first)) == if first then text else AfterFirstLine(text)
  {
    SplitLinesConcat(text);
    if !first && text != "" {
      SplitLinesHead(text);
    }
  }

  /** One more shard adds its lines, the header included only when it is
      the first. */
  lemma MergedNext(texts: seq<string>, t: string)
    ensures Merged(texts + [t]) == Merged(texts) + Concat(ShardLines(t, texts == []))
  {
    assert (texts + [t])[..|texts|] == texts;
  }

  /** The UTF-8 size of what the loop writes, shard by shard. */
  function MergedSize(texts: seq<string>): nat
  {
    if texts == [] then 0
    else MergedSize(texts[..|texts| - 1]) + Utf8Size(Concat(ShardLines(texts[|texts| - 1], |texts| == 1)))
  }

  lemma MergedSizeNext(texts: seq<string>, t: string)
    ensures MergedSize(texts + [t]) == MergedSize(texts) + Utf8Size(Concat(ShardLines(t, texts == [])))
  {
    assert (texts + [t])[..|texts|] == texts;
  }

  /** Summing the shards' sizes gives the size of the merged text. */
  lemma {:induction false} MergedSizeIs(texts: seq<string>)
    ensures MergedSize(texts) == Utf8Size(Merged(texts))
  {
    if texts != [] {
      var init := texts[..|texts| - 1];
      MergedSizeIs(init);
      Utf8SizeAppend(Merged(init), Concat(ShardLines(texts[|texts| - 1], |texts| == 1)));
    }
  }

  /** Every text without its first line. */
  function Headless(texts: seq<string>): (r: seq<string>)
    ensures |r| == |texts|
    ensures forall i :: 0 <= i < |texts| ==> r[i] == AfterFirstLine(texts[i])
  {
    if texts == [] then [] else Headless(texts[..|texts| - 1]) + [AfterFirstLine(texts[|texts| - 1])]
  }

  /** A later shard adds its text after the first line. */
  lemma MergedLast(texts: seq<string>)
    requires |texts| >= 2
    ensures Merged(texts) == Merged(texts[..|texts| - 1]) + AfterFirstLine(texts[|texts| - 1])
  {
    ShardContribution(texts[|texts| - 1], false);
  }

  lemma ConcatHeadlessLast(texts: seq<string>)
    requires |texts| >= 2
    ensures Concat(Headless(texts[1..])) ==
      Concat(Headless(texts[..|texts| - 1][1..])) + AfterFirstLine(texts[|texts| - 1])
  {
    var n := |texts|;
    var last := texts[n - 1];
    var initTail := texts[..n - 1][1..];
    assert texts[1..][..n - 2] == initTail;
    assert Headless(texts[1..]) == Headless(initTail) + [AfterFirstLine(last)];
    ConcatAppend(Headless(initTail), [AfterFirstLine(last)]);
    assert Concat([AfterFirstLine(last)]) == AfterFirstLine(last);
  }

  /** One induction step of `MergedShape`. */
  lemma MergedShapeStep(texts: seq<string>)
    requires |texts| >= 2
    requires Merged(texts[..|texts| - 1]) == texts[0] + Concat(Headless(texts[..|texts| - 1][1..]))
    ensures Merged(texts) == texts[0] + Concat(Headless(texts[1..]))
  {
    var init := texts[..|texts| - 1];
    var tail := AfterFirstLine(texts[|texts| - 1]);
    var rest := Concat(Headless(init[1..]));
    MergedLast(texts);
    ConcatHeadlessLast(texts);
    AppendAssoc(texts[0], rest, tail);
  }

  /** The merged text is the first shard followed by every later shard
      without its header line. */
  lemma {:induction false} MergedShape(texts: seq<string>)
    requires texts != []
    ensures Merged(texts) == texts[0] + Concat(Headless(texts[1..]))
  {
    if |texts| == 1 {
      ShardContribution(texts[0], true);
      assert Merged(texts[..0]) == "";
      assert texts[1..] == [];
    } else {
      var init := texts[..|texts| - 1];
      MergedShape(init);
      assert init[0] == texts[0];
      MergedShapeStep(texts);
    }
  }

  /** A first line ended by "\n" is exactly that much of the text. */
  lemma FirstLineThroughNewline(h: string, rest: string)
    requires forall k :: 0 <= k < |h| ==> !IsLineBoundary(h[k])
    ensures FirstLineLength(h + "\n" + rest) == |h| + 1
    ensures AfterFirstLine(h + "\n" + rest) == rest
  {
    var s := h + "\n" + rest;
    assert s[|h|] == '\n';
    assert forall k :: 0 <= k < |h| ==> s[k] == h[k];
    assert IsLineBoundary(s[|h|]);
    assert LineEnd(s, 0) == |h| + 1;
    assert s[|h| + 1..] == rest;
  }

  /** Two shards: the first whole, then the second after its first line. */
  lemma MergedPair(a: string, b: string)
    ensures Merged([a, b]) == a + AfterFirstLine(b)
  {
    assert [a, b][..1] == [a] && [a][..0] == [];
    ShardContribution(a, true);
    ShardContribution(b, false);
    assert Merged([a]) == Merged([]) + Concat(ShardLines(a, true));
    assert Merged([a]) == a;
    assert Merged([a, b]) == Merged([a]) + Concat(ShardLines(b, false));
  }

  /** Two shards with the same header line: the header appears once, and
      the data lines of both follow it in order. */
  lemma MergedSameHeader(header: string, rows1: string, rows2: string)
    requires forall k :: 0 <= k < |header| ==> !IsLineBoundary(header[k])
    ensures Merged([header + "\n" + rows1, header + "\n" + rows2]) == header + "\n" + rows1 + rows2
  {
    MergedPair(header + "\n" + rows1, header + "\n" + rows2);
    FirstLineThroughNewline(header, rows2);
  }

  /** A shard without a line terminator yields its whole text as one line,
      so a later header-only shard contributes nothing and a header-only
      first shard is kept. */
  lemma HeaderOnlyShards(h: string)
    requires h != "" && forall k :: 0 <= k < |h| ==> !IsLineBoundary(h[k])
    ensures AfterFirstLine(h) == ""
    ensures Merged([h, h]) == h
  {
    assert LineEnd(h, 0) == |h|;
    MergedPair(h, h);
  }

  // ---------------------------------------------------------------------------
  // Deleting the shards

  /** The store after deleting names in order, the deletions done, and the
      error of the first deletion that failed (after which none is tried). */
  datatype Deletion = Deletion(store: Store, events: seq<Event>, failure: Option<string>)

  lemma DistinctPrefix(names: seq<string>)
    requires Distinct(names) && names != []
    ensures Distinct(names[..|names| - 1])
  {
  }

  /** The effects are deletions of the first of `names`, in their order. */
  predicate DeletesInOrder(events: seq<Event>, names: seq<string>)
  {
    |events| <= |names| && forall i :: 0 <= i < |events| ==> events[i] == Deleted(names[i])
  }

  /** Deletions of the first of `init` stay so when a name is added; when
      all of `init` was deleted, deleting the new name extends them. */
  lemma DeletesInOrderNext(events: seq<Event>, init: seq<string>, x: string)
    requires DeletesInOrder(events, init)
    ensures DeletesInOrder(events, init + [x])
    ensures |events| == |init| ==> DeletesInOrder(events + [Deleted(x)], init + [x])
  {
  }

  /** One turn of the deletion loop: nothing more once a deletion has
      failed, otherwise an attempt to delete `name`. */
  function DeleteNext(d: Deletion, name: string): (e: Deletion)
    requires d.store.Valid()
    ensures e.store.Valid()
    ensures e.store.readFaults == d.store.readFaults && e.store.deleteFaults == d.store.deleteFaults
  {
    if d.failure.Some? then d
    else
      match d.store.Delete(name)
      case Failure(err) => Deletion(d.store, d.events, Some(err))
      case Success(s) => Deletion(s, d.events + [Deleted(name)], None)
  }

  /** `for blob in blobs: blob.delete()`. */
  function DeleteAll(st: Store, names: seq<string>): (d: Deletion)
    requires st.Valid()
    ensures d.store.Valid()
    ensures d.store.readFaults == st.readFaults && d.store.deleteFaults == st.deleteFaults
    ensures DeletesInOrder(d.events, names)
    ensures d.failure.None? ==> |d.events| == |names|
    ensures d.failure.Some? ==>
      |d.events| < |names| && d.store.Delete(names[|d.events|]) == Failure(d.failure.value)
  {
    if names == [] then Deletion(st, [], None)
    else
      var init := names[..|names| - 1];
      var d := DeleteAll(st, init);
      FrontLast(names);
      DeletesInOrderNext(d.events, init, names[|names| - 1]);
      DeleteNext(d, names[|names| - 1])
  }

  /** Deleting the first `k + 1` names is one more turn after the first `k`. */
  lemma DeleteAllNext(st: Store, names: seq<string>, k: nat)
    requires st.Valid() && k < |names|
    ensures DeleteAll(st, names[..k + 1]) == DeleteNext(DeleteAll(st, names[..k]), names[k])
  {
    assert names[..k + 1][..k] == names[..k];
  }

  /** A turn after successful deletions tries the name: a failure is
      reported with nothing changed, a success removes the object. */
  lemma DeleteNextAttempt(d: Deletion, name: string)
    requires d.store.Valid() && d.failure.None?
    ensures var r := d.store.Delete(name);
      DeleteNext(d, name) ==
        if r.Failure? then Deletion(d.store, d.events, Some(r.error))
        else Deletion(r.value, d.events + [Deleted(name)], None)
  {
  }

  /** Once a deletion has failed, no later one is tried. */
  lemma {:induction false} DeleteAllStuck(st: Store, names: seq<string>, i: nat)
    requires st.Valid()
    requires i <= |names|
    requires DeleteAll(st, names[..i]).failure.Some?
    ensures DeleteAll(st, names) == DeleteAll(st, names[..i])
    decreases |names| - i
  {
    if i < |names| {
      assert names[..i + 1][..i] == names[..i];
      DeleteAllStuck(st, names, i + 1);
    } else {
      assert names[..i] == names;
    }
  }

  /** Deleting distinct names that all exist and carry no delete fault
      succeeds and removes exactly them, leaving every other object as it was. */
  lemma {:induction false} DeleteAllRemoves(st: Store, names: seq<string>)
    requires st.Valid() && Distinct(names)
    requires forall n :: n in names ==> n in st.objects && n !in st.deleteFaults
    ensures DeleteAll(st, names).failure.None?
    ensures forall y :: y in DeleteAll(st, names).store.objects <==> y in st.objects && y !in names
    ensures forall y :: y in DeleteAll(st, names).store.objects ==> DeleteAll(st, names).store.objects[y] == st.objects[y]
  {
    if names != [] {
      var init := names[..|names| - 1];
      var x := names[|names| - 1];
      FrontLast(names);
      assert forall n :: n in names <==> n in init || n == x;
      assert x !in init by {
        forall i | 0 <= i < |init| ensures init[i] != x {
          assert init[i] == names[i];
        }
      }
      DistinctPrefix(names);
      DeleteAllRemoves(st, init);
      var d := DeleteAll(st, init);
      assert x in d.store.objects;
      var del := d.store.Delete(x);
      assert del.Success? && del.value.objects == d.store.objects - {x};
    }
  }

  /** The deletions done remove exactly the names deleted so far and leave
      every other object as it was. */
  lemma {:induction false} DeleteAllEffect(st: Store, names: seq<string>)
    requires st.Valid()
    ensures RemovesDeleted(st, names, DeleteAll(st, names))
  {
    if names != [] {
      var init := names[..|names| - 1];
      var x := names[|names| - 1];
      DeleteAllEffect(st, init);
      FrontLast(names);
      DeleteAllEffectStep(st, init, x, DeleteAll(st, init), DeleteAll(st, names));
    }
  }

  /** `d` removes from `st` exactly the names it reports deleted and leaves
      every other object as it was. */
  ghost predicate RemovesDeleted(st: Store, names: seq<string>, d: Deletion)
    requires |d.events| <= |names|
  {
    (forall y :: y in d.store.objects <==> y in st.objects && y !in names[..|d.events|]) &&
    (forall y :: y in d.store.objects ==> d.store.objects[y] == st.objects[y])
  }

  /** The induction step of `DeleteAllEffect`: `e` is `d` followed by an
      attempt to delete `x`, unless `d` had already failed. */
  lemma DeleteAllEffectStep(st: Store, init: seq<string>, x: string, d: Deletion, e: Deletion)
    requires |d.events| <= |init| && RemovesDeleted(st, init, d)
    requires d.failure.Some? ==> e == d
    requires d.failure.None? ==> |d.events| == |init|
    requires d.failure.None? ==>
      (e.store == d.store && e.events == d.events) ||
      (e.store.objects == d.store.objects - {x} && e.events == d.events + [Deleted(x)])
    ensures |e.events| <= |init + [x]| && RemovesDeleted(st, init + [x], e)
  {
    if d.failure.Some? || e.events == d.events {
      RemovesLonger(st, init, init + [x], d, e);
    } else {
      RemovesOneMore(st, init, x, d, e);
    }
  }

  /** The same deletions, reported against a longer list of names. */
  lemma RemovesLonger(st: Store, init: seq<string>, names: seq<string>, d: Deletion, e: Deletion)
    requires init <= names && |d.events| <= |init|
    requires e.store == d.store && e.events == d.events
    requires RemovesDeleted(st, init, d)
    ensures RemovesDeleted(st, names, e)
  {
    assert names[..|d.events|] == init[..|d.events|];
  }

  /** Deleting one more name after all the earlier ones. */
  lemma RemovesOneMore(st: Store, init: seq<string>, x: string, d: Deletion, e: Deletion)
    requires |d.events| == |init|
    requires RemovesDeleted(st, init, d)
    requires e.store.objects == d.store.objects - {x} && e.events == d.events + [Deleted(x)]
    ensures RemovesDeleted(st, init + [x], e)
  {
    var names := init + [x];
    assert names[..|init|] == init;
    assert names[..|names|] == names;
    assert forall y :: y in names <==> y in init || y == x;
  }

  /** A deletion that fails leaves a name that is missing or faulty. */
  lemma DeleteAllFailure(st: Store, names: seq<string>)
    requires st.Valid()
    requires DeleteAll(st, names).failure.Some?
    ensures var k := |DeleteAll(st, names).events|;
      k < |names| && (names[k] !in DeleteAll(st, names).store.objects || names[k] in st.deleteFaults)
  {
  }

  // ---------------------------------------------------------------------------
  // The whole merge

  /** What a merge does: its result, the bucket afterwards, and its effects. */
  datatype MergeRun = MergeRun(result: Result<MergeManifest, ApiError>, store: Store, events: seq<Event>)

  /** The object the merge writes. */
  function Output(req: MergeRequest, text: string): Payload
  {
    if req.compressOutput then Gzip(text) else Utf8(text)
  }

  /** Effects of leaving the `with` block: the gzip wrapper is closed (when
      there is one), then the upload stream commits the object. */
  function Closing(req: MergeRequest, text: string): seq<Event>
  {
    (if req.compressOutput then [GzipClosed] else []) + [Committed(FinalName(req), Output(req, text))]
  }

  /** How many effects precede the commit: the gzip close, when there is one. */
  function ClosingCount(req: MergeRequest): nat
  {
    if req.compressOutput then 1 else 0
  }

  /** The shards in the order they are merged. */
  function MergeOrder(st: Store, req: MergeRequest): seq<string>
  {
    SortByName(st.ListBlobs(req.sourcePrefix))
  }

  /** What follows the `with` block, on the bucket `written` that holds the
      merged object: the read failure is raised, or the shards are deleted
      when asked, and the manifest is returned. The events are the
      deletions. */
  function Finish(written: Store, req: MergeRequest, blobs: seq<string>, failure: Option<string>, size: nat): MergeRun
    requires written.Valid()
  {
    var manifest := MergeManifest(Completed, FinalName(req), size, req.deleteSourceFiles, req.compressOutput);
    if failure.Some? then MergeRun(Failure(MergeFailed(failure.value)), written, [])
    else if !req.deleteSourceFiles then MergeRun(Success(manifest), written, [])
    else
      var d := DeleteAll(written, blobs);
      MergeRun(if d.failure.Some? then Failure(MergeFailed(d.failure.value)) else Success(manifest), d.store, d.events)
  }

  /** `merge_csv_files(source_prefix, destination_filename,
      delete_source_files, compress_output)` on a bucket in state `st`. */
  function MergeSpec(st: Store, req: MergeRequest): MergeRun
    requires st.Valid()
  {
    var blobs := st.ListBlobs(req.sourcePrefix);
    if st.listFault.Some? then
      MergeRun(Failure(MergeFailed(st.listFault.value)), st, [])
    else if blobs == [] then
      MergeRun(Failure(MergeFailed(NoFilesMessage(req.sourcePrefix))), st, [])
    else
      var shards := ReadShards(st, SortByName(blobs));
      var text := Merged(shards.texts);
      var f := Finish(st.Put(FinalName(req), Output(req, text)), req, blobs, shards.failure, Utf8Size(text));
      MergeRun(f.result, f.store, Closing(req, text) + f.events)
  }

  /** The text the merge writes: the shards read in order of name. */
  function MergedText(st: Store, req: MergeRequest): string
  {
    Merged(ReadShards(st, MergeOrder(st, req)).texts)
  }

  /** An empty listing fails before the destination is opened: nothing is
      written or deleted, and the `ValidationError` comes out re-wrapped by
      the outer handler as an `ExportError`. */
  lemma MergeEmptyListing(st: Store, req: MergeRequest)
    requires st.Valid()
    ensures st.ListBlobs(req.sourcePrefix) == [] <==> forall n :: n in st.names ==> !(req.sourcePrefix <= n)
    ensures st.listFault.None? && st.ListBlobs(req.sourcePrefix) == [] ==>
      var run := MergeSpec(st, req);
      run.store == st && run.events == [] &&
      run.result == Failure(ApiError(Export, "Merge failed: " + "No files found with prefix: " + req.sourcePrefix, 500, map[]))
    ensures st.listFault.None? && st.ListBlobs(req.sourcePrefix) != [] ==> MergeSpec(st, req).events != []
  {
    var blobs := st.ListBlobs(req.sourcePrefix);
    if blobs != [] {
      assert blobs[0] in st.names && req.sourcePrefix <= blobs[0];
    } else {
      assert "Merge failed: " + "No files found with prefix: " + req.sourcePrefix
          == "Merge failed: " + NoFilesMessage(req.sourcePrefix);
    }
  }

  /** A listing that raises fails the merge before anything is opened:
      nothing is written or deleted, and the error comes out re-wrapped by
      the outer handler as an `ExportError` (500) "Merge failed: ...". */
  lemma MergeListFailure(st: Store, req: MergeRequest)
    requires st.Valid()
    ensures st.listFault.Some? ==>
      var run := MergeSpec(st, req);
      run.store == st && run.events == [] &&
      run.result == Failure(ApiError(Export, "Merge failed: " + st.listFault.value, 500, map[]))
    ensures MergeSpec(st, req).events != [] ==> st.listFault.None? && st.ListBlobs(req.sourcePrefix) != []
  {
  }

  /** The manifest of a successful merge reports the final name, "completed",
      the two flags as given, and the UTF-8 size of the uncompressed text
      written (not of the compressed object). */
  lemma MergeManifestFields(st: Store, req: MergeRequest)
    requires st.Valid()
    ensures var run := MergeSpec(st, req);
      run.result.Success? ==>
        var m := run.result.value;
        m.status == "completed" &&
        m.mergedFile == (if req.compressOutput then req.destinationFilename + ".gz" else req.destinationFilename) &&
        m.compressed == req.compressOutput && m.sourceFilesDeleted == req.deleteSourceFiles &&
        m.totalSizeBytes == Utf8Size(MergedText(st, req))
  {
  }

  /** Every failure is an `ExportError` (status 500) whose message starts
      with "Merge failed: ". */
  lemma MergeFailuresWrapped(st: Store, req: MergeRequest)
    requires st.Valid()
    ensures var run := MergeSpec(st, req);
      run.result.Failure? ==>
        var e := run.result.error;
        e.cls == Export && e.statusCode == 500 && "Merge failed: " <= e.message
  {
  }

  /** After a non-empty listing the gzip wrapper (when compressing) is closed
      exactly once, first, and then the upload stream commits the text
      written so far, on the success and the error path alike. */
  lemma MergeEventOrder(st: Store, req: MergeRequest)
    requires st.Valid()
    requires st.listFault.None? && st.ListBlobs(req.sourcePrefix) != []
    ensures var events := MergeSpec(st, req).events;
      var c := ClosingCount(req);
      |events| > c &&
      (req.compressOutput ==> events[0] == GzipClosed) &&
      events[c] == Committed(FinalName(req), Output(req, MergedText(st, req)))
  {
    var order := MergeOrder(st, req);
    var text := MergedText(st, req);
    MergeSpecNonEmpty(st, req, order, text);
    ClosingShape(req, text);
    var f := Finish(st.Put(FinalName(req), Output(req, text)), req, st.ListBlobs(req.sourcePrefix),
                    ReadShards(st, order).failure, Utf8Size(text));
    ClosingPrefix(MergeSpec(st, req).events, Closing(req, text), f.events);
  }

  /** Everything after the commit is a deletion of a listed shard, in
      listing order. */
  lemma MergeDeletionOrder(st: Store, req: MergeRequest)
    requires st.Valid()
    requires st.listFault.None? && st.ListBlobs(req.sourcePrefix) != []
    ensures var events := MergeSpec(st, req).events;
      |events| > ClosingCount(req) && DeletesInOrder(events[ClosingCount(req) + 1..], st.ListBlobs(req.sourcePrefix))
  {
    var deletions := MergeClosingThenFinish(st, req);
    ClosingShape(req, MergedText(st, req));
    ClosingThenDeletions(MergeSpec(st, req).events, Closing(req, MergedText(st, req)), deletions, ClosingCount(req));
  }

  /** The effects of a merge of a non-empty listing: the closing effects,
      then deletions of listed shards in listing order. */
  lemma MergeClosingThenFinish(st: Store, req: MergeRequest) returns (deletions: seq<Event>)
    requires st.Valid()
    requires st.listFault.None? && st.ListBlobs(req.sourcePrefix) != []
    ensures MergeSpec(st, req).events == Closing(req, MergedText(st, req)) + deletions
    ensures DeletesInOrder(deletions, st.ListBlobs(req.sourcePrefix))
  {
    var blobs := st.ListBlobs(req.sourcePrefix);
    var order := MergeOrder(st, req);
    var text := MergedText(st, req);
    var written := st.Put(FinalName(req), Output(req, text));
    var failure := ReadShards(st, order).failure;
    MergeSpecNonEmpty(st, req, order, text);
    FinishEvents(written, req, blobs, failure, Utf8Size(text));
    deletions := Finish(written, req, blobs, failure, Utf8Size(text)).events;
  }

  /** The closing effects: the gzip wrapper first when there is one, then the commit. */
  lemma ClosingShape(req: MergeRequest, text: string)
    ensures var c := ClosingCount(req);
      var closing := Closing(req, text);
      |closing| == c + 1 && closing[c] == Committed(FinalName(req), Output(req, text)) &&
      (req.compressOutput ==> closing[0] == GzipClosed)
  {
  }

  /** The closing effects open the sequence of effects. */
  lemma ClosingPrefix(all: seq<Event>, closing: seq<Event>, deletions: seq<Event>)
    requires all == closing + deletions
    ensures |all| >= |closing| && forall i :: 0 <= i < |closing| ==> all[i] == closing[i]
  {
  }

  /** What follows the closing effects. */
  lemma ClosingThenDeletions(all: seq<Event>, closing: seq<Event>, deletions: seq<Event>, c: nat)
    requires all == closing + deletions
    requires |closing| == c + 1
    ensures |all| > c && all[c + 1..] == deletions
  {
  }

  /** The merged text: the shards are read in ascending order of name; when
      all are readable, the text is the whole of the first (smallest) shard
      followed by each later shard without its first line. */
  lemma MergeContent(st: Store, req: MergeRequest)
    requires st.Valid()
    requires st.ListBlobs(req.sourcePrefix) != []
    ensures var order := MergeOrder(st, req);
      var shards := ReadShards(st, order);
      SortedByName(order) && multiset(order) == multiset(st.ListBlobs(req.sourcePrefix)) &&
      (shards.failure.None? ==>
        |shards.texts| == |order| &&
        (forall i :: 0 <= i < |order| ==> order[i] in st.objects && st.objects[order[i]] == Utf8(shards.texts[i])) &&
        MergedText(st, req) ==
          shards.texts[0] + Concat(Headless(shards.texts[1..])))
  {
    var order := MergeOrder(st, req);
    var shards := ReadShards(st, order);
    if shards.failure.None? {
      assert MergedText(st, req) == Merged(shards.texts);
      MergedShape(shards.texts);
      ReadShardsTexts(st, order);
      forall i | 0 <= i < |order|
        ensures order[i] in st.objects && st.objects[order[i]] == Utf8(shards.texts[i])
      {
        assert ReadShard(st, order[i]) == Success(shards.texts[i]);
      }
    }
  }

  /** Whether the shards are deleted: never after a read failure or when not
      asked; otherwise all of them, in listing order, unless a deletion
      fails, which stops the rest and fails the merge with the merged object
      already written. */
  lemma MergeDeletion(st: Store, req: MergeRequest)
    requires st.Valid()
    requires st.listFault.None? && st.ListBlobs(req.sourcePrefix) != []
    ensures var run := MergeSpec(st, req);
      var blobs := st.ListBlobs(req.sourcePrefix);
      var written := st.Put(FinalName(req), Output(req, MergedText(st, req)));
      var readFailed := ReadShards(st, MergeOrder(st, req)).failure.Some?;
      (readFailed || !req.deleteSourceFiles ==>
         run.store == written && run.events == Closing(req, MergedText(st, req))) &&
      (!readFailed && req.deleteSourceFiles ==>
         var k := |run.events| - |Closing(req, MergedText(st, req))|;
         0 <= k <= |blobs| &&
         (forall y :: y in run.store.objects <==> y in written.objects && y !in blobs[..k]) &&
         (forall y :: y in run.store.objects ==> run.store.objects[y] == written.objects[y]) &&
         (run.result.Success? <==> k == |blobs|) &&
         (run.result.Failure? ==> FinalName(req) in written.objects))
  {
    var blobs := st.ListBlobs(req.sourcePrefix);
    var text := MergedText(st, req);
    var written := st.Put(FinalName(req), Output(req, text));
    DeleteAllEffect(written, blobs);
  }

  /** Deleting removes every listed shard when none of them fails to delete;
      the object written survives only if its name was not in the listing.
      Deletion here is by name, not by the generation listed. */
  lemma MergeDeletesAllShards(st: Store, req: MergeRequest)
    requires st.Valid()
    requires st.listFault.None? && st.ListBlobs(req.sourcePrefix) != [] && req.deleteSourceFiles
    requires ReadShards(st, MergeOrder(st, req)).failure.None?
    requires forall n :: n in st.ListBlobs(req.sourcePrefix) ==> n !in st.deleteFaults
    ensures var run := MergeSpec(st, req);
      var blobs := st.ListBlobs(req.sourcePrefix);
      run.result.Success? &&
      (forall y :: y in run.store.objects <==> (y in st.objects || y == FinalName(req)) && y !in blobs) &&
      (FinalName(req) in run.store.objects <==> FinalName(req) !in blobs)
  {
    var blobs := st.ListBlobs(req.sourcePrefix);
    var order := MergeOrder(st, req);
    var text := MergedText(st, req);
    var written := st.Put(FinalName(req), Output(req, text));
    MergeSpecNonEmpty(st, req, order, text);
    assert forall n :: n in blobs ==> n in written.objects && n !in written.deleteFaults;
    DeleteAllRemoves(written, blobs);
    var d := DeleteAll(written, blobs);
    assert MergeSpec(st, req).store == d.store && MergeSpec(st, req).result.Success?;
  }

  /** A shard that cannot be read (download error or invalid UTF-8) stops
      the merge: the text of the shards before it is still committed, and
      the error is raised wrapped. */
  lemma MergeReadFailure(st: Store, req: MergeRequest, i: nat)
    requires st.Valid()
    requires st.listFault.None? && st.ListBlobs(req.sourcePrefix) != []
    requires i < |MergeOrder(st, req)|
    requires forall j :: 0 <= j < i ==> ReadShard(st, MergeOrder(st, req)[j]).Success?
    requires ReadShard(st, MergeOrder(st, req)[i]).Failure?
    ensures var run := MergeSpec(st, req);
      var order := MergeOrder(st, req);
      |ReadShards(st, order).texts| == i &&
      run.result == Failure(MergeFailed(ReadShard(st, order[i]).error)) &&
      run.store == st.Put(FinalName(req), Output(req, MergedText(st, req))) &&
      run.events == Closing(req, MergedText(st, req))
  {
    var order := MergeOrder(st, req);
    ReadShardsFirstFailure(st, order, i);
    var text := MergedText(st, req);
    MergeSpecNonEmpty(st, req, order, text);
  }

  /** The drop is positional: an empty first shard still clears the
      first-shard flag, so the next shard loses its first line. */
  lemma EmptyFirstShard(t: string)
    ensures Merged(["", t]) == AfterFirstLine(t)
  {
    MergedPair("", t);
  }

  /** Compression changes the object's encoding and name, not the text
      written: with and without it the committed object holds the same
      merged text, gzip-encoded under the ".gz" name or as UTF-8 under the
      name given. */
  lemma CompressionKeepsText(st: Store, req: MergeRequest)
    requires st.Valid()
    requires st.listFault.None? && st.ListBlobs(req.sourcePrefix) != []
    ensures var plain := req.(compressOutput := false);
      var gz := req.(compressOutput := true);
      var t := MergedText(st, plain);
      |MergeSpec(st, gz).events| > 1 && MergeSpec(st, plain).events != [] &&
      MergeSpec(st, gz).events[1] == Committed(req.destinationFilename + ".gz", Gzip(t)) &&
      MergeSpec(st, plain).events[0] == Committed(req.destinationFilename, Utf8(t))
  {
    var plain := req.(compressOutput := false);
    var gz := req.(compressOutput := true);
    assert MergeOrder(st, gz) == MergeOrder(st, plain);
    MergeEventOrder(st, plain);
    MergeEventOrder(st, gz);
  }

  /** Reading the merged object back: an uncompressed one decodes to the
      merged text, a compressed one does not decode as UTF-8 at all. */
  lemma OutputDecodes(req: MergeRequest, text: string)
    ensures !req.compressOutput ==> Decode(Output(req, text)) == Success(text)
    ensures req.compressOutput ==> Decode(Output(req, text)) == Failure(DecodeFailure)
  {
  }

  /** The uncompressed merged object, read back as a shard, gives the merged
      text: a merge of one merged object reproduces it. */
  lemma MergedObjectReadsBack(st: Store, req: MergeRequest, text: string)
    requires st.Valid() && !req.compressOutput
    requires FinalName(req) !in st.readFaults
    ensures ReadShard(st.Put(FinalName(req), Output(req, text)), FinalName(req)) == Success(text)
  {
  }

  /** Writes the lines of a shard one after another, counting their bytes. */
  method WriteLines(w: BlobWriter, lines: seq<string>, total: nat) returns (newTotal: nat)
    requires w.rawOpen && w.gzipOpen == w.compress
    modifies w`written
    ensures w.written == old(w.written) + Concat(lines)
    ensures newTotal == total + Utf8Size(Concat(lines))
  {
    newTotal := total;
    var j := 0;
    while j < |lines|
      invariant 0 <= j <= |lines|
      invariant w.written == old(w.written) + Concat(lines[..j])
      invariant newTotal == total + Utf8Size(Concat(lines[..j]))
    {
      ConcatAppend(lines[..j], [lines[j]]);
      assert lines[..j + 1] == lines[..j] + [lines[j]];
      assert Concat([lines[j]]) == lines[j];
      AppendAssoc(old(w.written), Concat(lines[..j]), lines[j]);
      Utf8SizeAppend(Concat(lines[..j]), lines[j]);
      w.Write(lines[j]);
      newTotal := newTotal + Utf8Size(lines[j]);
      j := j + 1;
    }
    assert lines[..j] == lines;
  }

  /** One turn of the read-and-write loop: `blob.download_as_bytes()`,
      `.decode('utf-8')`, `splitlines(keepends=True)`, the header dropped
      unless this is the first shard, and each line written. A shard that
      cannot be read leaves the destination untouched. */
  method CopyShard(bucket: Bucket, w: BlobWriter, name: string, ghost texts: seq<string>, isFirst: bool, total: nat)
    returns (one: Result<string, string>, newTotal: nat)
    requires w.rawOpen && w.gzipOpen == w.compress
    requires isFirst <==> texts == []
    requires w.written == Merged(texts) && total == MergedSize(texts)
    modifies w`written
    ensures one == ReadShard(bucket.Snapshot(), name)
    ensures one.Failure? ==> w.written == old(w.written) && newTotal == total
    ensures one.Success? ==> w.written == Merged(texts + [one.value]) && newTotal == MergedSize(texts + [one.value])
  {
    var content := bucket.Download(name);
    if content.Failure? {
      return Failure(content.error), total;
    }
    one := Decode(content.value);
    if one.Failure? {
      return one, total;
    }
    var lines := SplitLines(one.value);
    if !isFirst {
      lines := Tail(lines);
    }
    newTotal := WriteLines(w, lines, total);
    MergedNext(texts, one.value);
    MergedSizeNext(texts, one.value);
  }

  /** The read-and-write loop: every shard in merge order is downloaded,
      decoded, split into lines, and its lines written (the header only for
      the first shard), until a shard cannot be read. */
  method CopyShards(bucket: Bucket, w: BlobWriter, order: seq<string>) returns (failure: Option<string>, ghost texts: seq<string>, total: nat)
    requires w.rawOpen && w.gzipOpen == w.compress && w.written == []
    modifies w`written
    ensures Reads(texts, failure) == ReadShards(bucket.Snapshot(), order)
    ensures w.written == Merged(texts) && total == Utf8Size(w.written)
  {
    var st := bucket.Snapshot();
    texts := [];
    total := 0;
    var isFirst := true;
    var i := 0;
    while i < |order|
      invariant 0 <= i <= |order|
      invariant st == bucket.Snapshot()
      invariant ReadShards(st, order[..i]) == Reads(texts, None)
      invariant |texts| == i && (isFirst <==> i == 0)
      invariant w.written == Merged(texts) && total == MergedSize(texts)
    {
      ReadShardsNext(st, order, i);
      var one;
      one, total := CopyShard(bucket, w, order[i], texts, isFirst, total);
      if one.Failure? {
        ReadShardsStuck(st, order, i + 1);
        MergedSizeIs(texts);
        return Some(one.error), texts, total;
      }
      texts := texts + [one.value];
      isFirst := false;
      i := i + 1;
    }
    assert order[..i] == order;
    MergedSizeIs(texts);
    return None, texts, total;
  }

  /** The `with` block: open the destination, copy the shards into it, close
      the gzip wrapper (on the error path too) and then the upload stream,
      which commits the object whatever was written. */
  method WriteMerged(bucket: Bucket, req: MergeRequest, order: seq<string>) returns (failure: Option<string>, total: nat)
    requires bucket.Valid()
    modifies bucket
    ensures bucket.Valid()
    ensures var shards := ReadShards(old(bucket.Snapshot()), order);
      var text := Merged(shards.texts);
      failure == shards.failure && total == Utf8Size(text) &&
      bucket.Snapshot() == old(bucket.Snapshot()).Put(FinalName(req), Output(req, text)) &&
      bucket.trace == old(bucket.trace) + Closing(req, text)
  {
    ghost var st := bucket.Snapshot();
    ghost var trace0 := bucket.trace;
    var w := new BlobWriter.Open(FinalName(req), req.compressOutput);
    ghost var texts;
    failure, texts, total := CopyShards(bucket, w, order);
    ghost var text := w.written;
    assert text == Merged(ReadShards(st, order).texts);
    assert bucket.Snapshot() == st && bucket.trace == trace0;
    if req.compressOutput {
      w.CloseGzip(bucket);
    }
    assert bucket.Snapshot() == st;
    assert bucket.trace == trace0 + (if req.compressOutput then [GzipClosed] else []);
    w.Close(bucket);
    assert bucket.Snapshot() == st.Put(FinalName(req), Output(req, text));
    assert bucket.trace == trace0 + Closing(req, text);
  }

  /** The deletion loop: the shards in listing order, until one fails. */
  method DeleteShards(bucket: Bucket, names: seq<string>) returns (failure: Option<string>)
    requires bucket.Valid()
    modifies bucket
    ensures bucket.Valid()
    ensures var d := DeleteAll(old(bucket.Snapshot()), names);
      failure == d.failure && bucket.Snapshot() == d.store && bucket.trace == old(bucket.trace) + d.events
  {
    ghost var st := bucket.Snapshot();
    var k := 0;
    while k < |names|
      invariant 0 <= k <= |names|
      invariant bucket.Valid()
      invariant DeleteAll(st, names[..k]).failure.None?
      invariant bucket.Snapshot() == DeleteAll(st, names[..k]).store
      invariant bucket.trace == old(bucket.trace) + DeleteAll(st, names[..k]).events
    {
      ghost var d := DeleteAll(st, names[..k]);
      DeleteAllNext(st, names, k);
      DeleteNextAttempt(d, names[k]);
      var err := bucket.Delete(names[k]);
      if err.Some? {
        DeleteAllStuck(st, names, k + 1);
        return err;
      }
      AppendAssoc(old(bucket.trace), d.events, [Deleted(names[k])]);
      k := k + 1;
    }
    assert names[..k] == names;
    return None;
  }

  /** After the `with` block only listed shards are deleted, in listing order. */
  lemma FinishEvents(written: Store, req: MergeRequest, blobs: seq<string>, failure: Option<string>, size: nat)
    requires written.Valid()
    ensures var f := Finish(written, req, blobs, failure, size);
      |f.events| <= |blobs| && forall i :: 0 <= i < |f.events| ==> f.events[i] == Deleted(blobs[i])
  {
  }

  /** `MergeSpec` once the listing is known to be non-empty. */
  lemma MergeSpecNonEmpty(st: Store, req: MergeRequest, order: seq<string>, text: string)
    requires st.Valid()
    requires st.listFault.None? && st.ListBlobs(req.sourcePrefix) != []
    requires order == SortByName(st.ListBlobs(req.sourcePrefix))
    requires text == Merged(ReadShards(st, order).texts)
    ensures var f := Finish(st.Put(FinalName(req), Output(req, text)), req, st.ListBlobs(req.sourcePrefix),
                            ReadShards(st, order).failure, Utf8Size(text));
      MergeSpec(st, req) == MergeRun(f.result, f.store, Closing(req, text) + f.events)
  {
  }

  /** What follows the `with` block. */
  method FinishMerge(bucket: Bucket, req: MergeRequest, blobs: seq<string>, failure: Option<string>, total: nat)
    returns (r: Result<MergeManifest, ApiError>)
    requires bucket.Valid()
    modifies bucket
    ensures bucket.Valid()
    ensures var f := Finish(old(bucket.Snapshot()), req, blobs, failure, total);
      r == f.result && bucket.Snapshot() == f.store && bucket.trace == old(bucket.trace) + f.events
  {
    if failure.Some? {
      assert bucket.trace + [] == bucket.trace;
      return Failure(MergeFailed(failure.value));
    }
    var manifest := MergeManifest(Completed, FinalName(req), total, req.deleteSourceFiles, req.compressOutput);
    if req.deleteSourceFiles {
      var err := DeleteShards(bucket, blobs);
      if err.Some? {
        return Failure(MergeFailed(err.value));
      }
    } else {
      assert bucket.trace + [] == bucket.trace;
    }
    return Success(manifest);
  }

  /** `merge_csv_files` against the bucket gateway: the result, the bucket
      afterwards and the effects on it are those `MergeSpec` gives. */
  method MergeCsvFiles(bucket: Bucket, req: MergeRequest) returns (r: Result<MergeManifest, ApiError>)
    requires bucket.Valid()
    modifies bucket
    ensures bucket.Valid()
    ensures var run := MergeSpec(old(bucket.Snapshot()), req);
      r == run.result && bucket.Snapshot() == run.store && bucket.trace == old(bucket.trace) + run.events
  {
    ghost var st := bucket.Snapshot();
    ghost var trace0 := bucket.trace;
    var listed := bucket.ListBlobs(req.sourcePrefix);
    if listed.Failure? {
      assert trace0 + [] == trace0;
      return Failure(MergeFailed(listed.error));
    }
    var blobs := listed.value;
    if blobs == [] {
      assert trace0 + [] == trace0;
      return Failure(MergeFailed(NoFilesMessage(req.sourcePrefix)));
    }
    var order := SortByName(blobs);
    ghost var text := Merged(ReadShards(st, order).texts);
    MergeSpecNonEmpty(st, req, order, text);
    ghost var closing := Closing(req, text);
    ghost var written := st.Put(FinalName(req), Output(req, text));
    var failure, total := WriteMerged(bucket, req, order);
    ghost var closed := bucket.trace;
    assert closed == trace0 + closing;
    r := FinishMerge(bucket, req, blobs, failure, total);
    ghost var f := Finish(written, req, blobs, failure, total);
    assert bucket.trace == closed + f.events;
    AppendAssoc(trace0, closing, f.events);
  }
}
