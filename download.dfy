/** batch/download.ts: download a product's torrent, upload every large file
    under `KEY_PREFIX/code/`, and record the objects then listed there as the
    product's media. `DownloadRun` states what one run does; `RunMain` performs
    it step by step on the record store. */
module DownloadScript {
  import opened Strings
  import opened Libraries
  import opened Records
  import opened Acquisition

  /** The `--metadata` value of an upload: the probe result, formatted. */
  function MetadataOf(w: World, src: string): string {
    FormatForMeta(Scan(w.probe(src)))
  }

  /** `upload(src, bucket, key)` */
  function UploadStep(bucket: string, src: string, key: string, w: World): Step {
    Upload(src, bucket, key, Some(MetadataOf(w, src)))
  }

  /** The uploads of `Promise.all(fileNames.map(...))`: kept file i goes to
      key i, in file order. */
  function UploadSteps(bucket: string, kept: seq<string>, keys: seq<string>, w: World): (steps: seq<Step>)
    requires |keys| == |kept|
    ensures |steps| == |kept|
    ensures forall i :: 0 <= i < |kept| ==> steps[i] == UploadStep(bucket, kept[i], keys[i], w)
  {
    seq(|kept|, i requires 0 <= i < |kept| => UploadStep(bucket, kept[i], keys[i], w))
  }

  /** The uploads to the first `n` keys all exit with code 0. */
  predicate UploadedBelow(keys: seq<string>, w: World, n: nat)
    requires n <= |keys|
  {
    forall i :: 0 <= i < n ==> Succeeded(w.uploadExit(keys[i]))
  }

  lemma UploadedBelowNext(keys: seq<string>, w: World, n: nat)
    requires n < |keys|
    ensures UploadedBelow(keys, w, n + 1) <==> UploadedBelow(keys, w, n) && Succeeded(w.uploadExit(keys[n]))
  {
  }

  /** Every upload of the batch exits with code 0. */
  predicate AllUploaded(keys: seq<string>, w: World) {
    UploadedBelow(keys, w, |keys|)
  }

  /** The body of the `try` block: the steps it performs and, when none
      fails, the new `mediaUrls`. */
  function TryBlock(target: string, bucket: string, prefix: string, region: string, code: string,
                    minSize: real, w: World): (seq<Step>, Result<seq<string>, Failure>)
  {
    var fetched := [Download(target, DownloadDir)];
    match Gathered(minSize, w)
    case Err(e) => (fetched, Err(e))
    case Ok(kept) =>
      var keys := UploadKeys(prefix, code, kept);
      var uploaded := fetched + UploadSteps(bucket, kept, keys, w);
      if !AllUploaded(keys, w) then (uploaded, Err(UploadFailed))
      else
        var listed := uploaded + [ListObjects(bucket, prefix, code)];
        match FileListOnS3(w.listing)
        case None => (listed, Err(ListingFailed))
        case Some(names) => (listed, Ok(ListingUrls(bucket, region, prefix, code, names)))
  }

  /** What one run of `main` does, given the store it starts from, its
      arguments, its environment and the outcomes of the external steps. */
  function DownloadRun(records: map<string, Product>, args: seq<string>, env: Env, w: World): Run {
    var id := Arg(args, 0);
    var minSize := MinSizeArg(args, "400");
    if id == "" then Run([], Threw(MissingId))
    else if !Positive(minSize) then Run([], Threw(BadMinSize))
    else if id !in records then Run([FindRecord(id)], Threw(NoRecord(id)))
    else if !Ready(records[id]) then Run([FindRecord(id)], Threw(NotReady))
    else
      var p := records[id];
      var claimed := [FindRecord(id), WriteRecord(id, SetProcessing(true))];
      var (body, result) := TryBlock(p.downloadUrl.value, OrEmpty(env.bucket), OrEmpty(env.keyPrefix),
                                     Interpolated(env.region), p.code, minSize.value, w);
      match result
      case Ok(urls) => Run(claimed + body + [WriteRecord(id, Finished(urls))], Completed)
      case Err(e) => Run(claimed + body + [WriteRecord(id, SetProcessing(false))], Threw(e))
  }

  // ---------------------------------------------------------------------------
  // The run, step by step

  /** The uploads of one batch, started in file order; reports whether all
      of them exited with code 0. */
  method UploadAll(bucket: string, kept: seq<string>, keys: seq<string>, w: World)
    returns (steps: seq<Step>, ok: bool)
    requires |keys| == |kept|
    ensures steps == UploadSteps(bucket, kept, keys, w)
    ensures ok == AllUploaded(keys, w)
  {
    steps := [];
    ok := true;
    var i := 0;
    while i < |kept|
      invariant 0 <= i <= |kept|
      invariant steps == UploadSteps(bucket, kept[..i], keys[..i], w)
      invariant ok == UploadedBelow(keys, w, i)
    {
      UploadedBelowNext(keys, w, i);
      UploadStepsNext(bucket, kept, keys, w, i);
      ok := ok && Succeeded(w.uploadExit(keys[i]));
      steps := steps + [UploadStep(bucket, kept[i], keys[i], w)];
      i := i + 1;
    }
    assert kept[..i] == kept && keys[..i] == keys;
  }

  lemma UploadStepsNext(bucket: string, kept: seq<string>, keys: seq<string>, w: World, n: nat)
    requires |keys| == |kept| && n < |kept|
    ensures UploadSteps(bucket, kept[..n + 1], keys[..n + 1], w) ==
            UploadSteps(bucket, kept[..n], keys[..n], w) + [UploadStep(bucket, kept[n], keys[n], w)]
  {
    var a := UploadSteps(bucket, kept[..n + 1], keys[..n + 1], w);
    var b := UploadSteps(bucket, kept[..n], keys[..n], w) + [UploadStep(bucket, kept[n], keys[n], w)];
    assert |a| == |b|;
    forall j | 0 <= j < |a| ensures a[j] == b[j] {
      assert kept[..n + 1][j] == kept[j] && keys[..n + 1][j] == keys[j];
      if j < n { assert kept[..n][j] == kept[j] && keys[..n][j] == keys[j]; }
    }
  }

  /** The `try` block, performed step by step. */
  method Acquire(target: string, bucket: string, prefix: string, region: string, code: string,
                 minSize: real, w: World)
    returns (steps: seq<Step>, result: Result<seq<string>, Failure>)
    ensures (steps, result) == TryBlock(target, bucket, prefix, region, code, minSize, w)
  {
    steps := [Download(target, DownloadDir)];
    if !DownloadSettles(w.downloadExit) {
      return steps, Err(DownloadFailed);
    }
    if w.downloads.None? {
      return steps, Err(NoScratchDir);
    }
    var kept := KeepLarge(ListFiles(DownloadDir, w.downloads.value), w.sizes, minSize);
    if kept.Err? {
      return steps, Err(kept.error);
    }
    var uploads, ok := UploadAll(bucket, kept.value, UploadKeys(prefix, code, kept.value), w);
    steps := steps + uploads;
    if !ok {
      return steps, Err(UploadFailed);
    }
    steps := steps + [ListObjects(bucket, prefix, code)];
    var names := FileListOnS3(w.listing);
    if names.None? {
      return steps, Err(ListingFailed);
    }
    result := Ok(ListingUrls(bucket, region, prefix, code, names.value));
  }

  /** `main`, run against the record store. */
  method RunMain(store: ProductStore, args: seq<string>, env: Env, w: World) returns (run: Run)
    requires store.Valid()
    modifies store
    ensures store.Valid()
    ensures run == DownloadRun(old(store.records), args, env, w)
    ensures store.records == Replay(old(store.records), run.steps)
  {
    var id := Arg(args, 0);
    var minSize := MinSizeArg(args, "400");
    if id == "" {
      return Run([], Threw(MissingId));
    }
    if !Positive(minSize) {
      return Run([], Threw(BadMinSize));
    }
    var product := store.FindUnique(id);
    if product.None? {
      return Run([FindRecord(id)], Threw(NoRecord(id)));
    }
    var p := product.value;
    if !HasDownloadUrl(p) || p.isProcessing {
      return Run([FindRecord(id)], Threw(NotReady));
    }
    ghost var start := store.records;
    var _ := store.Update(id, SetProcessing(true));
    var claimed := [FindRecord(id), WriteRecord(id, SetProcessing(true))];
    assert store.records == Replay(start, claimed) by {
      ReplayAppend(start, [FindRecord(id)], [WriteRecord(id, SetProcessing(true))]);
      ReplayOneWrite(start, id, SetProcessing(true));
    }

    var bucket, prefix, code := OrEmpty(env.bucket), OrEmpty(env.keyPrefix), p.code;
    var body, result := Acquire(p.downloadUrl.value, bucket, prefix, Interpolated(env.region), code, minSize.value, w);
    TryBlockExternal(p.downloadUrl.value, bucket, prefix, Interpolated(env.region), code, minSize.value, w);
    ReplayAppend(start, claimed, body);
    ReplayNoWrites(store.records, body);

    var last;
    if result.Ok? {
      last := WriteRecord(id, Finished(result.value));
      run := Run(claimed + body + [last], Completed);
    } else {
      last := WriteRecord(id, SetProcessing(false));
      run := Run(claimed + body + [last], Threw(result.error));
    }
    ghost var before := store.records;
    var _ := store.Update(id, last.data);
    ReplayAppend(start, claimed + body, [last]);
    ReplayOneWrite(before, id, last.data);
  }

  /** The `try` block reads and writes no record. */
  lemma TryBlockExternal(target: string, bucket: string, prefix: string, region: string, code: string,
                         minSize: real, w: World)
    ensures var steps := TryBlock(target, bucket, prefix, region, code, minSize, w).0;
      forall k :: 0 <= k < |steps| ==> External(steps[k]) && !IsWrite(steps[k])
  {
  }

  // ---------------------------------------------------------------------------
  // What a run guarantees

  /** A missing id or a size argument that is not a positive number stops
      the run before the store is touched; without a size argument the
      minimum is 400 MiB. */
  lemma ArgumentsCheckedFirst(records: map<string, Product>, args: seq<string>, env: Env, w: World)
    ensures var run := DownloadRun(records, args, env, w);
      run.steps == [] <==> Arg(args, 0) == "" || !Positive(MinSizeArg(args, "400"))
    ensures Arg(args, 0) == "" ==> DownloadRun(records, args, env, w).outcome == Threw(MissingId)
    ensures Arg(args, 1) == "" ==> MinSizeArg(args, "400") == Finite(400.0)
  {
    assert "400" == NatToString(400);
    NatToStringRoundTrip(400);
  }

  /** A missing record, a record without a download URL, or one already
      being processed makes the run throw after the lookup, with nothing
      written. */
  lemma NotReadyWritesNothing(records: map<string, Product>, args: seq<string>, env: Env, w: World)
    requires Arg(args, 0) != "" && Positive(MinSizeArg(args, "400"))
    requires Arg(args, 0) !in records || !HasDownloadUrl(records[Arg(args, 0)]) || records[Arg(args, 0)].isProcessing
    ensures var run := DownloadRun(records, args, env, w);
      && run.steps == [FindRecord(Arg(args, 0))]
      && run.outcome.Threw?
      && Replay(records, run.steps) == records
  {
    ReplayNoWrites(records, [FindRecord(Arg(args, 0))]);
  }

  /** Once the record is found ready, the flag is written before the
      download starts, and the download fetches the record's URL into the
      scratch directory. */
  lemma FlagBeforeDownload(records: map<string, Product>, args: seq<string>, env: Env, w: World)
    requires Arg(args, 0) != "" && Positive(MinSizeArg(args, "400"))
    requires Arg(args, 0) in records && Ready(records[Arg(args, 0)])
    ensures var run := DownloadRun(records, args, env, w);
      && |run.steps| >= 4
      && run.steps[0] == FindRecord(Arg(args, 0))
      && run.steps[1] == WriteRecord(Arg(args, 0), SetProcessing(true))
      && run.steps[2] == Download(records[Arg(args, 0)].downloadUrl.value, "/downloads")
      && forall k :: 2 <= k < |run.steps| - 1 ==> External(run.steps[k])
  {
    var p := records[Arg(args, 0)];
    TryBlockExternal(p.downloadUrl.value, OrEmpty(env.bucket), OrEmpty(env.keyPrefix),
                     Interpolated(env.region), p.code, MinSizeArg(args, "400").value, w);
  }

  /** Inside the `try` block the uploads come right after the download, one
      per kept file, in file order. */
  lemma TryBlockUploads(target: string, bucket: string, prefix: string, region: string, code: string,
                        minSize: real, w: World)
    requires Gathered(minSize, w).Ok?
    ensures var body := TryBlock(target, bucket, prefix, region, code, minSize, w).0;
      var kept := Gathered(minSize, w).value;
      && |body| >= 1 + |kept|
      && body[1..1 + |kept|] == UploadSteps(bucket, kept, UploadKeys(prefix, code, kept), w)
  {
    var kept := Gathered(minSize, w).value;
    var ups := UploadSteps(bucket, kept, UploadKeys(prefix, code, kept), w);
    var body := TryBlock(target, bucket, prefix, region, code, minSize, w).0;
    assert body[..1 + |kept|] == [Download(target, DownloadDir)] + ups;
  }

  /** The i-th kept file is uploaded under `prefix/code/(i+1)ext`, right
      after the download; two kept files never share a key. */
  lemma KeysAndOrder(records: map<string, Product>, args: seq<string>, env: Env, w: World)
    requires Arg(args, 0) != "" && Positive(MinSizeArg(args, "400"))
    requires Arg(args, 0) in records && Ready(records[Arg(args, 0)])
    requires Gathered(MinSizeArg(args, "400").value, w).Ok?
    ensures var run := DownloadRun(records, args, env, w);
      var kept := Gathered(MinSizeArg(args, "400").value, w).value;
      var keys := UploadKeys(OrEmpty(env.keyPrefix), records[Arg(args, 0)].code, kept);
      && |run.steps| >= 3 + |kept|
      && run.steps[3..3 + |kept|] == UploadSteps(OrEmpty(env.bucket), kept, keys, w)
      && (forall i, j :: 0 <= i < j < |kept| ==> keys[i] != keys[j])
  {
    var id := Arg(args, 0);
    var p := records[id];
    var minSize := MinSizeArg(args, "400").value;
    var bucket, prefix, region := OrEmpty(env.bucket), OrEmpty(env.keyPrefix), Interpolated(env.region);
    var kept := Gathered(minSize, w).value;
    var (body, result) := TryBlock(p.downloadUrl.value, bucket, prefix, region, p.code, minSize, w);
    TryBlockUploads(p.downloadUrl.value, bucket, prefix, region, p.code, minSize, w);
    UploadKeysAllDistinct(prefix, p.code, kept);
    var claimed := [FindRecord(id), WriteRecord(id, SetProcessing(true))];
    var last := if result.Ok? then WriteRecord(id, Finished(result.value)) else WriteRecord(id, SetProcessing(false));
    assert DownloadRun(records, args, env, w).steps == claimed + body + [last];
    MiddleSlice(claimed, body, last, |kept|);
  }

  lemma MiddleSlice<T>(front: seq<T>, body: seq<T>, last: T, n: nat)
    requires 1 + n <= |body|
    ensures |front + body + [last]| >= |front| + 1 + n
    ensures (front + body + [last])[|front| + 1..|front| + 1 + n] == body[1..1 + n]
  {
  }

  /** The state a run leaves: the run completes exactly when every external
      step succeeds, and then the record's media URLs are replaced by the
      URLs of everything listed under `prefix/code/` (in listing order, old
      objects included), it is marked downloaded and released. A run that
      throws after claiming the record leaves it exactly as it was. No other
      record changes. */
  lemma FinalState(records: map<string, Product>, args: seq<string>, env: Env, w: World)
    requires WellFormed(records)
    requires Arg(args, 0) != "" && Positive(MinSizeArg(args, "400"))
    requires Arg(args, 0) in records && Ready(records[Arg(args, 0)])
    ensures var id := Arg(args, 0);
      var p := records[id];
      var minSize := MinSizeArg(args, "400").value;
      var prefix := OrEmpty(env.keyPrefix);
      var run := DownloadRun(records, args, env, w);
      var after := Replay(records, run.steps);
      && after.Keys == records.Keys
      && (forall other :: other in records && other != id ==> after[other] == records[other])
      && (run.outcome == Completed <==>
            Gathered(minSize, w).Ok? && AllUploaded(UploadKeys(prefix, p.code, Gathered(minSize, w).value), w)
            && FileListOnS3(w.listing).Some?)
      && (run.outcome == Completed ==>
            after[id] == p.(mediaUrls := ListingUrls(OrEmpty(env.bucket), Interpolated(env.region), prefix, p.code,
                                                     FileListOnS3(w.listing).value),
                            isDownloaded := true, isProcessing := false))
      && (run.outcome.Threw? ==> after[id] == p)
  {
    var id := Arg(args, 0);
    var p := records[id];
    var minSize := MinSizeArg(args, "400").value;
    var bucket, prefix, region := OrEmpty(env.bucket), OrEmpty(env.keyPrefix), Interpolated(env.region);
    var run := DownloadRun(records, args, env, w);
    var claimed := [FindRecord(id), WriteRecord(id, SetProcessing(true))];
    var (body, result) := TryBlock(p.downloadUrl.value, bucket, prefix, region, p.code, minSize, w);
    var last := if result.Ok? then WriteRecord(id, Finished(result.value)) else WriteRecord(id, SetProcessing(false));
    assert run.steps == claimed + body + [last];
    TryBlockExternal(p.downloadUrl.value, bucket, prefix, region, p.code, minSize, w);
    ClaimedOutcome(records, id, body, result);
  }

  /** Flag hygiene: whatever happens, a run ends with the record's
      `isProcessing` as it found it, so a failed run never leaves a record
      stuck in processing. */
  lemma FlagRestored(records: map<string, Product>, args: seq<string>, env: Env, w: World)
    requires WellFormed(records)
    requires Arg(args, 0) in records
    ensures var after := Replay(records, DownloadRun(records, args, env, w).steps);
      Arg(args, 0) in after && after[Arg(args, 0)].isProcessing == records[Arg(args, 0)].isProcessing
  {
    ReplayKeepsWellFormed(records, DownloadRun(records, args, env, w).steps);
    var id := Arg(args, 0);
    var run := DownloadRun(records, args, env, w);
    if id == "" || !Positive(MinSizeArg(args, "400")) {
      ReplayNoWrites(records, run.steps);
    } else if !Ready(records[id]) {
      NotReadyWritesNothing(records, args, env, w);
    } else {
      FinalState(records, args, env, w);
    }
  }
}
